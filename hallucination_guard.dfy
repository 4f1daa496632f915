/**
 * brain/hallucination_gaurd.py: refuse questions that presuppose the assistant
 * perceives the physical world. The input must not be None: unlike the rules
 * in brain/brain.py this one lower-cases its argument without a None guard.
 */
module HallucinationGuard {
  import opened Wrappers
  import opened Text

  const PerceptionPhrases: seq<string> := [
    "did you see me", "where were you", "can you see me",
    "did you meet me", "what do i look like", "show me my picture",
    "what color is my hair", "track me", "can you hear me"
  ]

  const Refusal: string :=
    "I don\U{2019}t have real-world perception like sight or hearing, "
    + "so I can\U{2019}t see or recall real events. "
    + "But I remember everything you tell me here \U{1F4AC}"

  predicate AsksForPerception(userInput: string) {
    AnyIn(Lower(userInput), PerceptionPhrases)
  }

  /**
   * `grounded_response(user_input)`: the one fixed refusal, whichever phrase
   * matched, exactly when a perception phrase occurs in the lower-cased input.
   */
  function GroundedResponse(userInput: string): (r: Option<string>)
    ensures r.Some? <==> AsksForPerception(userInput)
    ensures r.Some? ==> r.value == Refusal
  {
    if AsksForPerception(userInput) then Some(Refusal) else None
  }

  /** Any of the nine phrases, anywhere in the input and in any letter case, triggers the refusal. */
  lemma RefusesEachPhrase(userInput: string, i: int)
    requires 0 <= i < |PerceptionPhrases|
    requires Contains(Lower(userInput), PerceptionPhrases[i])
    ensures GroundedResponse(userInput) == Some(Refusal)
  {
  }

  /** The refusal is monotone: a text containing a refused input is refused too. */
  lemma GuardMonotone(s: string, t: string)
    requires GroundedResponse(s).Some? && Contains(t, s)
    ensures GroundedResponse(t) == Some(Refusal)
  {
    MatchMonotone(s, t, PerceptionPhrases);
  }

  /** Matching ignores letter case. */
  lemma GuardIgnoresCase(s: string)
    ensures GroundedResponse(s) == GroundedResponse(Lower(s))
  {
    LowerIsLowerCase(s);
  }
}
