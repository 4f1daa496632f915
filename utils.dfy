/**
 * utils.py: the turn pipeline of `chat_with_zeta`. The identity rule, then the
 * perception guard, may answer at once; otherwise the tone is classified,
 * memory is recalled into a prompt, the model's text is post-processed for the
 * tone, and a self-disclosure is written to memory.
 *
 * The model call and the memory hooks are outside the model: the recalled
 * items and the model's reply text are inputs, every prompt sent to the model
 * is appended to `prompts`, and every memory write to `notes`.
 */
module Utils {
  import opened Wrappers
  import opened Text
  import Brain
  import HallucinationGuard
  import opened Memory

  /** `"\n".join(items) if items else ""`. */
  function RecallMemory(items: seq<string>): (r: string)
    ensures items == [] ==> r == ""
    ensures |items| == 1 ==> r == items[0]
  {
    if items == [] then "" else JoinLines(items)
  }

  /** The recalled block splits back into the recalled items when none of them spans lines. */
  lemma RecallMemoryRoundTrip(items: seq<string>)
    requires items != []
    requires forall i :: 0 <= i < |items| ==> '\n' !in items[i]
    ensures SplitLines(RecallMemory(items)) == items
  {
    SplitJoin(items);
  }

  const PromptPreamble: string := "You are Zeta, a friendly assistant. Keep personality consistent. Known user facts:\n"
  const PromptUserTag: string := "\n\nUser: "
  const PromptEnd: string := "\nAssistant:"

  /**
   * The prompt of step 4: the system preamble with the recalled facts, then the
   * user's turn and the assistant cue. Facts and input sit at fixed offsets, so
   * both can be read back from the prompt.
   */
  function Prompt(past: string, userInput: string): (r: string)
    ensures PromptPreamble <= r
    ensures |r| == |PromptPreamble| + |past| + |PromptUserTag| + |userInput| + |PromptEnd|
    ensures r[|PromptPreamble|..|PromptPreamble| + |past|] == past
    ensures r[|PromptPreamble| + |past|..|PromptPreamble| + |past| + |PromptUserTag|] == PromptUserTag
    ensures r[|r| - |PromptEnd| - |userInput|..|r| - |PromptEnd|] == userInput
    ensures r[|r| - |PromptEnd|..] == PromptEnd
  {
    PromptPreamble + past + PromptUserTag + userInput + PromptEnd
  }

  /** Two turns produce the same prompt only when their facts and inputs agree (given their lengths). */
  lemma PromptDeterminesParts(past1: string, input1: string, past2: string, input2: string)
    requires |past1| == |past2| && |input1| == |input2|
    requires Prompt(past1, input1) == Prompt(past2, input2)
    ensures past1 == past2 && input1 == input2
  {
  }

  const FactTriggers: seq<string> := ["my name is ", "i live in ", "my favorite", "i'm from", "i am from"]

  /** The self-disclosure heuristic: does the lower-cased input contain a trigger phrase? */
  predicate DisclosesFact(userInput: string) {
    AnyIn(Lower(userInput), FactTriggers)
  }

  /** The trigger test is case-insensitive, and any text containing a disclosure is one. */
  lemma DisclosureIgnoresCase(s: string, t: string)
    ensures DisclosesFact(s) == DisclosesFact(Lower(s))
    ensures DisclosesFact(s) && Contains(t, s) ==> DisclosesFact(t)
  {
    LowerIsLowerCase(s);
    if DisclosesFact(s) && Contains(t, s) {
      MatchMonotone(s, t, FactTriggers);
    }
  }

  /** `user_profile or {}`. */
  function ProfileOrEmpty(profile: Option<map<string, string>>): map<string, string> {
    profile.GetOr(map[])
  }

  /**
   * `{"user": user_profile.get("user_id") if user_profile else "unknown"}`:
   * no profile or an empty one gives "unknown"; a profile without `user_id`
   * gives None.
   */
  function NoteMetadata(profile: Option<map<string, string>>): (m: Metadata)
    ensures m.Keys == {"user"}
    ensures profile.None? || profile.value == map[] ==> m["user"] == Some("unknown")
    ensures profile.Some? && "user_id" in profile.value ==> m["user"] == Some(profile.value["user_id"])
    ensures profile.Some? && profile.value != map[] && "user_id" !in profile.value ==> m["user"] == None
  {
    var p := ProfileOrEmpty(profile);
    if p == map[] then map["user" := Some("unknown")]
    else map["user" := if "user_id" in p then Some(p["user_id"]) else None]
  }

  /** `tone_dict.get("tone", "neutral")`. */
  function ToneOf(userInput: string): (tone: string)
    ensures tone in {Brain.Empathetic, Brain.PlayfulRoast, Brain.Neutral}
  {
    var d := Brain.AdaptTone(Some(userInput));
    if "tone" in d then d["tone"] else Brain.Neutral
  }

  /** The outcome of a turn as written, where a raised exception escapes. */
  datatype TurnOutcome = Replied(reply: string) | Raised(error: string)

  const RecallTypeError: string := "TypeError: recall() missing 1 required positional argument: 'query'"

  /**
   * `chat_with_zeta` as written. `recall_memory` calls `recall(query, k=3)`,
   * which binds the query to `user_name` and leaves `query` unbound, so every
   * turn that passes the identity rule and the guard raises before the model
   * is called (and before the store, which has the same defect, is reached).
   */
  function ChatAsWritten(userInput: string, profile: Option<map<string, string>>): (r: TurnOutcome)
    ensures Brain.IsIdentityProbe(Some(userInput)) ==>
      r == Replied(Brain.IdentityPrefix + Brain.BotName(ProfileOrEmpty(profile)) + Brain.IdentitySuffix)
    ensures !Brain.IsIdentityProbe(Some(userInput)) && HallucinationGuard.AsksForPerception(userInput)
      ==> r == Replied(HallucinationGuard.Refusal)
    ensures !Brain.IsIdentityProbe(Some(userInput)) && !HallucinationGuard.AsksForPerception(userInput)
      ==> r == Raised(RecallTypeError)
  {
    var identity := Brain.MaintainIdentity(Some(userInput), ProfileOrEmpty(profile));
    if identity.Some? then Replied(identity.value)
    else
      var guard := HallucinationGuard.GroundedResponse(userInput);
      if guard.Some? then Replied(guard.value)
      else Raised(RecallTypeError)
  }

  /** A plain greeting already reaches the failing recall call. */
  lemma GreetingRaisesAsWritten(profile: Option<map<string, string>>)
    ensures ChatAsWritten("hi", profile) == Raised(RecallTypeError)
  {
    forall i | 0 <= i < |Brain.IdentityProbes|
      ensures !Contains(Lower("hi"), Brain.IdentityProbes[i])
    {
      if Contains(Lower("hi"), Brain.IdentityProbes[i]) {
        ContainsLength(Lower("hi"), Brain.IdentityProbes[i]);
      }
    }
    forall i | 0 <= i < |HallucinationGuard.PerceptionPhrases|
      ensures !Contains(Lower("hi"), HallucinationGuard.PerceptionPhrases[i])
    {
      if Contains(Lower("hi"), HallucinationGuard.PerceptionPhrases[i]) {
        ContainsLength(Lower("hi"), HallucinationGuard.PerceptionPhrases[i]);
      }
    }
  }

  /** One conversation with the assistant, as seen from its model and memory boundaries. */
  class Conversation {
    /** Every prompt sent to the language model, in order. */
    var prompts: seq<string>
    /** Every memory write (`store_fact`), in order. */
    var notes: seq<Chunk>

    constructor ()
      ensures prompts == [] && notes == []
    {
      prompts := [];
      notes := [];
    }

    /** `store_fact(user_input, note, metadata)`: one memory write of `note` with its metadata, or `{}`. */
    method StoreFact(userInput: string, note: string, metadata: Option<Metadata>)
      modifies this
      ensures notes == old(notes) + [Chunk(note, metadata.GetOr(map[]))]
      ensures prompts == old(prompts)
    {
      notes := notes + [Chunk(note, metadata.GetOr(map[]))];
    }

    /**
     * `chat_with_zeta(user_input, user_profile)` with the recall hook taking the
     * query alone. `recalled` is what that hook returns for this input and
     * `modelText` is the model's reply to the prompt.
     */
    method ChatWithZeta(userInput: string, profile: Option<map<string, string>>, recalled: seq<string>, modelText: string)
      returns (reply: string)
      modifies this
      ensures Brain.IsIdentityProbe(Some(userInput)) ==>
        && reply == Brain.IdentityPrefix + Brain.BotName(ProfileOrEmpty(profile)) + Brain.IdentitySuffix
        && prompts == old(prompts) && notes == old(notes)
      ensures !Brain.IsIdentityProbe(Some(userInput)) && HallucinationGuard.AsksForPerception(userInput) ==>
        && reply == HallucinationGuard.Refusal
        && prompts == old(prompts) && notes == old(notes)
      ensures !Brain.IsIdentityProbe(Some(userInput)) && !HallucinationGuard.AsksForPerception(userInput) ==>
        && prompts == old(prompts) + [Prompt(RecallMemory(recalled), userInput)]
        && reply == Brain.NaturalResponse(Strip(modelText), ToneOf(userInput))
        && notes == old(notes) + (if DisclosesFact(userInput) then [Chunk(userInput, NoteMetadata(profile))] else [])
    {
      var identity := Brain.MaintainIdentity(Some(userInput), ProfileOrEmpty(profile));
      if identity.Some? {
        return identity.value;
      }
      var guard := HallucinationGuard.GroundedResponse(userInput);
      if guard.Some? {
        return guard.value;
      }

      var tone := ToneOf(userInput);
      var past := RecallMemory(recalled);
      var prompt := Prompt(past, userInput);
      prompts := prompts + [prompt];
      var final := Brain.NaturalResponse(Strip(modelText), tone);

      if DisclosesFact(userInput) {
        StoreFact(userInput, userInput, Some(NoteMetadata(profile)));
      }
      assert notes == old(notes) + (if DisclosesFact(userInput) then [Chunk(userInput, NoteMetadata(profile))] else []);
      reply := final;
    }
  }
}
