/**
 * memory/fact_store.py: a two-level table user -> key -> value kept in one
 * JSON file. Every update reads the whole table, changes one entry and writes
 * the whole table back; read and write errors are swallowed.
 */
module FactStore {
  import opened Wrappers

  type Table = map<string, map<string, string>>

  /** `facts.get(user, {}).get(key)`. */
  function Lookup(facts: Table, user: string, key: string): (r: Option<string>)
    ensures r.Some? <==> user in facts && key in facts[user]
    ensures r.Some? ==> r.value == facts[user][key]
  {
    if user in facts && key in facts[user] then Some(facts[user][key]) else None
  }

  /**
   * The table `update_fact` writes back: the user's entry (created empty if
   * missing) with `key` set to `value`, everything else as it was.
   */
  function Put(facts: Table, user: string, key: string, value: string): (r: Table)
    ensures r.Keys == facts.Keys + {user}
    ensures Lookup(r, user, key) == Some(value)
    ensures forall u, k :: (u != user || k != key) ==> Lookup(r, u, k) == Lookup(facts, u, k)
  {
    var inner := if user in facts then facts[user] else map[];
    facts[user := inner[key := value]]
  }

  /** An unknown user gets an inner table holding exactly the new key. */
  lemma PutNewUser(facts: Table, user: string, key: string, value: string)
    requires user !in facts
    ensures Put(facts, user, key, value)[user] == map[key := value]
  {
  }

  /** Last write wins. */
  lemma {:induction false} PutLastWriteWins(facts: Table, user: string, key: string, v1: string, v2: string)
    ensures Put(Put(facts, user, key, v1), user, key, v2) == Put(facts, user, key, v2)
  {
    var a := Put(Put(facts, user, key, v1), user, key, v2);
    var b := Put(facts, user, key, v2);
    assert a.Keys == b.Keys;
    forall u | u in a
      ensures a[u] == b[u]
    {
      if u == user {
        assert a[u].Keys == b[u].Keys;
      }
    }
  }

  /** Repeating an identical update changes nothing. */
  lemma PutIdempotent(facts: Table, user: string, key: string, value: string)
    ensures Put(Put(facts, user, key, value), user, key, value) == Put(facts, user, key, value)
  {
    PutLastWriteWins(facts, user, key, value, value);
  }

  /**
   * How a `save_facts` call ends: the table is written, opening the file fails
   * (nothing is touched), or writing fails after the open has truncated it.
   */
  datatype WriteOutcome = Written | OpenFailed | WriteFailed

  /**
   * The JSON file: `None` when it is missing or cannot be parsed, otherwise the
   * table it holds.
   */
  class FactFile {
    var stored: Option<Table>

    constructor (initial: Option<Table>)
      ensures stored == initial
    {
      stored := initial;
    }

    /** `load_facts()`: a missing or unreadable file reads as the empty table. */
    function LoadFacts(): (r: Table)
      reads this
      ensures stored.None? ==> r == map[]
      ensures stored.Some? ==> r == stored.value
    {
      if stored.Some? then stored.value else map[]
    }

    /**
     * `save_facts(facts)`. Opening with `"w"` truncates the file before
     * `json.dump` writes to it, so an error is swallowed with one of two
     * effects: an open that fails leaves the file as it was, and a write that
     * fails after the open leaves it empty or cut short, which no longer parses.
     */
    method SaveFacts(facts: Table, outcome: WriteOutcome)
      modifies this
      ensures outcome == Written ==> stored == Some(facts)
      ensures outcome == OpenFailed ==> stored == old(stored)
      ensures outcome == WriteFailed ==> stored == None
    {
      match outcome
      case Written => stored := Some(facts);
      case OpenFailed =>
      case WriteFailed => stored := None;
    }

    /** `update_fact(user, key, value)`: load, set one entry, save the whole table. */
    method UpdateFact(user: string, key: string, value: string, outcome: WriteOutcome)
      modifies this
      ensures outcome == Written ==> stored == Some(Put(old(LoadFacts()), user, key, value))
      ensures outcome == OpenFailed ==> stored == old(stored)
      ensures outcome == WriteFailed ==> stored == None
      ensures outcome == Written ==> GetFact(user, key) == Some(value)
      ensures outcome != WriteFailed ==>
        forall u, k :: (u != user || k != key) ==> GetFact(u, k) == old(GetFact(u, k))
      ensures outcome == WriteFailed ==> forall u, k :: GetFact(u, k) == None
      ensures old(stored).None? && outcome == Written ==> stored == Some(map[user := map[key := value]])
    {
      var facts := LoadFacts();
      if user !in facts {
        facts := facts[user := map[]];
      }
      facts := facts[user := facts[user][key := value]];
      assert facts == Put(LoadFacts(), user, key, value);
      SaveFacts(facts, outcome);
    }

    /** `get_fact(user, key)`: None when the file, the user or the key is missing. */
    function GetFact(user: string, key: string): (r: Option<string>)
      reads this
      ensures r.Some? <==> stored.Some? && user in stored.value && key in stored.value[user]
      ensures r.Some? ==> r.value == stored.value[user][key]
    {
      Lookup(LoadFacts(), user, key)
    }
  }

  /** Two updates of the same entry, both saved: the second value is what is read back. */
  method LastWriteWins(file: FactFile, user: string, key: string, v1: string, v2: string)
    modifies file
    ensures file.GetFact(user, key) == Some(v2)
    ensures file.stored == Some(Put(old(file.LoadFacts()), user, key, v2))
  {
    file.UpdateFact(user, key, v1, Written);
    file.UpdateFact(user, key, v2, Written);
    PutLastWriteWins(old(file.LoadFacts()), user, key, v1, v2);
  }

  /**
   * A write that fails after truncation loses the whole table: the next
   * update loads `{}` and saves a table holding only its own fact.
   */
  method FailedWriteLosesTable(file: FactFile, user: string, key: string, v1: string, v2: string)
    modifies file
    ensures file.stored == Some(map[user := map[key := v2]])
    ensures forall u, k :: (u != user || k != key) ==> file.GetFact(u, k) == None
  {
    file.UpdateFact(user, key, v1, WriteFailed);
    file.UpdateFact(user, key, v2, Written);
  }
}
