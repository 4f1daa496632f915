/**
 * memory/memory.py: one persistent vector collection per user, named after the
 * normalised user name; chunks are appended, and `recall` merges the semantic
 * hits with a keyword scan of every stored document.
 *
 * The embedding model and the similarity search are not modelled: the hits a
 * search returns are an input. Each I/O step that the source guards with
 * `try`/`except` gets a flag saying whether it succeeded.
 */
module Memory {
  import opened Wrappers
  import opened Text

  /** Chunk metadata; a value may be Python's None. */
  type Metadata = map<string, Option<string>>

  datatype Chunk = Chunk(text: string, metadata: Metadata)

  // ---------------------------------------------------------------------------
  // get_user_chroma_collection: the per-user namespace
  // ---------------------------------------------------------------------------

  const CollectionPrefix: string := "user_"

  /** `user_name or 'anonymous'`: None and the empty name both fall back to "anonymous". */
  function NameOrAnonymous(userName: Option<string>): string {
    if userName.None? || userName.value == "" then "anonymous" else userName.value
  }

  /**
   * `f"user_{(user_name or 'anonymous').lower().replace(' ', '_')}"`: the prefix,
   * then the name lower-cased with every space turned into an underscore.
   */
  function CollectionName(userName: Option<string>): (r: string)
    ensures CollectionPrefix <= r
    ensures |r| == |CollectionPrefix| + |NameOrAnonymous(userName)|
    ensures IsLowerCase(r) && ' ' !in r
  {
    var r := CollectionPrefix + ReplaceChar(Lower(NameOrAnonymous(userName)), ' ', '_');
    assert forall i :: 0 <= i < |r| ==> r[i] != ' ' by {
      forall i | 0 <= i < |r| ensures r[i] != ' ' {
        if i >= |CollectionPrefix| {
          assert r[i] == ReplaceChar(Lower(NameOrAnonymous(userName)), ' ', '_')[i - |CollectionPrefix|];
        }
      }
    }
    r
  }

  /** Character by character: a space becomes `_`, an upper-case ASCII letter its lower-case form. */
  lemma CollectionNameChars(userName: Option<string>, i: int)
    requires 0 <= i < |NameOrAnonymous(userName)|
    ensures var c := NameOrAnonymous(userName)[i];
      CollectionName(userName)[|CollectionPrefix| + i] == if c == ' ' then '_' else LowerChar(c)
  {
  }

  /** A missing or empty name lands in the anonymous collection. */
  lemma AnonymousCollection()
    ensures CollectionName(None) == "user_anonymous"
    ensures CollectionName(Some("")) == "user_anonymous"
  {
    assert Lower("anonymous") == "anonymous";
    assert ReplaceChar("anonymous", ' ', '_') == "anonymous";
  }

  /**
   * The namespace does not separate users: names differing only in case or in
   * space versus underscore share one collection, and so does a user literally
   * called "Anonymous" with the anonymous one.
   */
  lemma CollectionNamesCollide()
    ensures CollectionName(Some("Anna Lee")) == CollectionName(Some("anna_lee")) == "user_anna_lee"
    ensures CollectionName(Some("Anonymous")) == CollectionName(None)
  {
    assert Lower("Anna Lee") == "anna lee";
    assert ReplaceChar("anna lee", ' ', '_') == "anna_lee";
    assert Lower("anna_lee") == "anna_lee";
    assert ReplaceChar("anna_lee", ' ', '_') == "anna_lee";
    assert Lower("Anonymous") == "anonymous";
    assert ReplaceChar("anonymous", ' ', '_') == "anonymous";
  }

  // ---------------------------------------------------------------------------
  // The keyword fallback of recall
  // ---------------------------------------------------------------------------

  const RecallKeywords: seq<string> := ["name", "live", "city", "from", "favorite", "like", "love"]

  /** `any(k in d.lower() for k in keywords)`. */
  predicate MentionsKeyword(d: string) {
    AnyIn(Lower(d), RecallKeywords)
  }

  /** `[d for d in docs if any(k in d.lower() for k in keywords)]`. */
  function KeywordDocs(docs: seq<string>): (r: seq<string>)
    ensures |r| <= |docs|
    ensures forall i :: 0 <= i < |r| ==> r[i] in docs && MentionsKeyword(r[i])
    ensures forall d :: d in docs && MentionsKeyword(d) ==> d in r
  {
    if docs == [] then []
    else
      var rest := KeywordDocs(docs[1..]);
      if MentionsKeyword(docs[0]) then [docs[0]] + rest else rest
  }

  /**
   * The scan keeps stored order: filtering a concatenation filters each part
   * and concatenates, and one document is kept exactly when it mentions a
   * keyword. Together these determine the filter completely.
   */
  lemma {:induction false} KeywordDocsInOrder(a: seq<string>, b: seq<string>, d: string)
    ensures KeywordDocs(a + b) == KeywordDocs(a) + KeywordDocs(b)
    ensures KeywordDocs([d]) == if MentionsKeyword(d) then [d] else []
  {
    if a == [] {
      assert a + b == b;
    } else {
      assert (a + b)[1..] == a[1..] + b;
      KeywordDocsInOrder(a[1..], b, d);
    }
    assert [d][1..] == [];
  }

  /**
   * `a` is read off `b` at the strictly increasing positions `idx`, each the
   * first occurrence of its element in `b`.
   */
  predicate AtFirstOccurrences(a: seq<string>, b: seq<string>, idx: seq<int>) {
    && |idx| == |a|
    && (forall i :: 0 <= i < |idx| ==> 0 <= idx[i] < |b| && a[i] == b[idx[i]] && b[idx[i]] !in b[..idx[i]])
    && (forall i, j :: 0 <= i < j < |idx| ==> idx[i] < idx[j])
  }

  /** Appending to `b` keeps the positions, and a new element can be read off at the end. */
  lemma AtFirstOccurrencesSnoc(a: seq<string>, b: seq<string>, idx: seq<int>, x: string)
    requires AtFirstOccurrences(a, b, idx)
    ensures AtFirstOccurrences(a, b + [x], idx)
    ensures x !in b ==> AtFirstOccurrences(a + [x], b + [x], idx + [|b|])
  {
    var b' := b + [x];
    forall i | 0 <= i < |idx|
      ensures b'[idx[i]] == b[idx[i]] && b'[..idx[i]] == b[..idx[i]]
    {
    }
    assert b'[..|b|] == b;
  }

  /**
   * The elements of `xs` that are not in `base`, each taken at its first
   * occurrence, in the order of `xs`. This is what the fallback loop appends
   * after the semantic hits `base`.
   */
  function FirstNew(xs: seq<string>, base: seq<string>): seq<string>
    decreases |xs|
  {
    if xs == [] then []
    else
      var init := xs[..|xs| - 1];
      var x := xs[|xs| - 1];
      FirstNew(init, base) + (if x !in base && x !in init then [x] else [])
  }

  /** An element is appended iff it is in `xs` and not already in `base`. */
  lemma {:induction false} FirstNewMembers(xs: seq<string>, base: seq<string>)
    ensures forall x :: x in FirstNew(xs, base) <==> x in xs && x !in base
    ensures |FirstNew(xs, base)| <= |xs|
    decreases |xs|
  {
    if xs != [] {
      var init := xs[..|xs| - 1];
      FirstNewMembers(init, base);
      assert xs == init + [xs[|xs| - 1]];
    }
  }

  /**
   * What the fallback appends keeps the order of `xs`: it is a subsequence of
   * `xs` taken at first occurrences, so a repeated document is placed where it
   * first appears.
   */
  lemma {:induction false} FirstNewInOrder(xs: seq<string>, base: seq<string>)
    ensures exists idx :: AtFirstOccurrences(FirstNew(xs, base), xs, idx)
    decreases |xs|
  {
    if xs == [] {
      assert AtFirstOccurrences(FirstNew(xs, base), xs, []);
    } else {
      var init := xs[..|xs| - 1];
      var x := xs[|xs| - 1];
      assert xs == init + [x];
      FirstNewInOrder(init, base);
      var idx :| AtFirstOccurrences(FirstNew(init, base), init, idx);
      AtFirstOccurrencesSnoc(FirstNew(init, base), init, idx, x);
      if x !in base && x !in init {
        assert AtFirstOccurrences(FirstNew(xs, base), xs, idx + [|init|]);
      } else {
        assert AtFirstOccurrences(FirstNew(xs, base), xs, idx);
      }
    }
  }

  /** Nothing is appended twice. */
  lemma {:induction false} FirstNewDistinct(xs: seq<string>, base: seq<string>)
    ensures forall i, j :: 0 <= j < i < |FirstNew(xs, base)| ==> FirstNew(xs, base)[i] != FirstNew(xs, base)[j]
    decreases |xs|
  {
    if xs != [] {
      var init := xs[..|xs| - 1];
      FirstNewDistinct(init, base);
      FirstNewMembers(init, base);
    }
  }

  /** Python's `s[:k]`, including its meaning for a negative `k` (drop the last `-k`). */
  function Take(s: seq<string>, k: int): (r: seq<string>)
    ensures k >= 0 ==> |r| == if k < |s| then k else |s|
    ensures k < 0 ==> |r| == if |s| + k > 0 then |s| + k else 0
    ensures r <= s
  {
    if k >= 0 then (if k < |s| then s[..k] else s)
    else if |s| + k > 0 then s[..|s| + k] else []
  }

  /**
   * The merged list of `recall`, cut to `[:k]`: the hits stay in front in their
   * order, and every later item comes from the fallback, is not a hit and does
   * not repeat an earlier item.
   */
  lemma MergeShape(hits: seq<string>, fallback: seq<string>, k: int)
    ensures var r := Take(hits + FirstNew(fallback, hits), k);
      && (k >= 0 ==> |r| <= k)
      && (forall i :: 0 <= i < |r| && i < |hits| ==> r[i] == hits[i])
      && (forall i :: |hits| <= i < |r| ==> r[i] in fallback && r[i] !in hits && r[i] !in r[..i])
  {
    var added := FirstNew(fallback, hits);
    var merged := hits + added;
    var r := Take(merged, k);
    FirstNewMembers(fallback, hits);
    FirstNewDistinct(fallback, hits);
    forall i | |hits| <= i < |r|
      ensures r[i] in fallback && r[i] !in hits && r[i] !in r[..i]
    {
      assert r[i] == added[i - |hits|];
      forall j | 0 <= j < i
        ensures r[j] != r[i]
      {
        if j >= |hits| {
          assert r[j] == added[j - |hits|];
        } else {
          assert r[j] in hits;
        }
      }
    }
  }

  /**
   * The fallback loop of `recall`: append each fallback document that is not
   * yet among the results, so later duplicates and hits are skipped.
   */
  method AppendFallback(hits: seq<string>, fallback: seq<string>) returns (results: seq<string>)
    ensures results == hits + FirstNew(fallback, hits)
  {
    results := hits;
    var i := 0;
    while i < |fallback|
      invariant 0 <= i <= |fallback|
      invariant results == hits + FirstNew(fallback[..i], hits)
    {
      FirstNewMembers(fallback[..i], hits);
      assert fallback[..i + 1][..i] == fallback[..i];
      if fallback[i] !in results {
        results := results + [fallback[i]];
      }
      i := i + 1;
    }
    assert fallback[..i] == fallback;
  }

  // ---------------------------------------------------------------------------
  // The collections
  // ---------------------------------------------------------------------------

  /** The persistent store: every collection by name, each an append-only sequence of chunks. */
  class VectorStore {
    var collections: map<string, seq<Chunk>>

    constructor ()
      ensures collections == map[]
    {
      collections := map[];
    }

    /** The chunks of a collection; opening an unknown one yields an empty collection. */
    function Chunks(name: string): seq<Chunk>
      reads this
    {
      if name in collections then collections[name] else []
    }

    /** `all_docs.get("documents", [])`: the stored texts in storage order. */
    function Documents(name: string): (r: seq<string>)
      reads this
      ensures |r| == |Chunks(name)|
      ensures forall i :: 0 <= i < |r| ==> r[i] == Chunks(name)[i].text
    {
      seq(|Chunks(name)|, i requires 0 <= i < |Chunks(name)| reads this => Chunks(name)[i].text)
    }

    /**
     * `store_memory_chunk(user_name, text, metadata)`: opening the collection
     * creates it if needed; when `addOk` (the add and persist succeeded) exactly
     * one chunk with the given metadata, or `{}`, is appended. A failure is
     * swallowed.
     */
    method StoreMemoryChunk(userName: Option<string>, text: string, metadata: Option<Metadata>, addOk: bool)
      modifies this
      ensures collections == old(collections)[CollectionName(userName) := old(Chunks(CollectionName(userName)))
        + (if addOk then [Chunk(text, metadata.GetOr(map[]))] else [])]
    {
      var name := CollectionName(userName);
      var added := if addOk then [Chunk(text, metadata.GetOr(map[]))] else [];
      collections := collections[name := Chunks(name) + added];
    }

    /**
     * `recall(user_name, query, k)`.
     *   countOk  - `col._collection.count()` did not raise;
     *   semantic - the page contents `similarity_search(query, k)` returned, None if it raised;
     *   getOk    - `col.get()` did not raise.
     * The result is the semantic hits followed by the stored documents that
     * mention a keyword and are not already present, cut to Python's `[:k]`.
     */
    method Recall(userName: Option<string>, k: int, countOk: bool, semantic: Option<seq<string>>, getOk: bool)
      returns (r: seq<string>)
      ensures var docs := Documents(CollectionName(userName));
        var hits := semantic.GetOr([]);
        r == if !countOk || docs == [] then []
             else Take(hits + (if getOk then FirstNew(KeywordDocs(docs), hits) else []), k)
      ensures k >= 0 ==> |r| <= k
      ensures forall i :: 0 <= i < |r| && i < |semantic.GetOr([])| ==> r[i] == semantic.GetOr([])[i]
      ensures forall i :: |semantic.GetOr([])| <= i < |r| ==>
        r[i] in Documents(CollectionName(userName)) && MentionsKeyword(r[i])
        && r[i] !in semantic.GetOr([]) && r[i] !in r[..i]
    {
      var docs := Documents(CollectionName(userName));
      if !countOk || docs == [] {
        return [];
      }
      var hits := semantic.GetOr([]);
      var results := hits;
      if getOk {
        results := AppendFallback(hits, KeywordDocs(docs));
      }
      r := Take(results, k);
      MergeShape(hits, if getOk then KeywordDocs(docs) else [], k);
    }
  }

  /** With an empty collection nothing is recalled, whatever the search would say. */
  method RecallEmpty(store: VectorStore, userName: Option<string>, k: int, semantic: Option<seq<string>>)
    returns (r: seq<string>)
    requires store.Chunks(CollectionName(userName)) == []
    ensures r == []
  {
    r := store.Recall(userName, k, true, semantic, true);
  }

  /**
   * Store, then recall: a saved chunk that mentions a keyword comes back from
   * the keyword fallback whatever the semantic search returns, as long as `k`
   * leaves room for it.
   */
  method StoreThenRecall(store: VectorStore, userName: Option<string>, text: string, metadata: Option<Metadata>,
                         semantic: Option<seq<string>>, k: int) returns (r: seq<string>)
    requires MentionsKeyword(text)
    requires k > |semantic.GetOr([])| + |store.Chunks(CollectionName(userName))|
    modifies store
    ensures text in r
  {
    store.StoreMemoryChunk(userName, text, metadata, true);
    var docs := store.Documents(CollectionName(userName));
    assert docs[|docs| - 1] == text;
    var hits := semantic.GetOr([]);
    var fallback := KeywordDocs(docs);
    FirstNewMembers(fallback, hits);
    r := store.Recall(userName, k, true, semantic, true);
    assert r == hits + FirstNew(fallback, hits);
  }
}
