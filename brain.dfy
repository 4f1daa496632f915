/**
 * The personality rules of brain/brain.py: an identity reply, a three-way tone
 * classifier and a tone suffixer. Each rule is substring membership of fixed,
 * already lower-case phrases in the lower-cased input.
 */
module Brain {
  import opened Wrappers
  import opened Text

  // ---------------------------------------------------------------------------
  // maintain_identity
  // ---------------------------------------------------------------------------

  const IdentityProbes: seq<string> := ["what is your name", "who are you", "are you a bot"]

  /** The persona name used when the profile has no `bot_name` entry. */
  const DefaultBotName: string := "Zeta"

  const IdentityPrefix: string := "My name is "
  const IdentitySuffix: string := ". I'm here to help and chat with you."

  /** `user_profile.get("bot_name", "Zeta")`. */
  function BotName(profile: map<string, string>): string {
    if "bot_name" in profile then profile["bot_name"] else DefaultBotName
  }

  /** `(user_input or "").lower()`: a None input reads as the empty string. */
  function Lowered(userInput: Option<string>): string {
    Lower(userInput.GetOr(""))
  }

  predicate IsIdentityProbe(userInput: Option<string>) {
    AnyIn(Lowered(userInput), IdentityProbes)
  }

  /** `maintain_identity(user_input, user_profile)`. */
  function MaintainIdentity(userInput: Option<string>, profile: map<string, string>): (r: Option<string>)
    ensures r.Some? <==> IsIdentityProbe(userInput)
    ensures r.Some? ==> r.value == IdentityPrefix + BotName(profile) + IdentitySuffix
  {
    if IsIdentityProbe(userInput) then Some(IdentityPrefix + BotName(profile) + IdentitySuffix) else None
  }

  /** The identity reply names the configured persona, or Zeta when none is configured. */
  lemma IdentityReplyNamesBot(userInput: Option<string>, profile: map<string, string>)
    requires IsIdentityProbe(userInput)
    ensures "bot_name" in profile ==> Contains(MaintainIdentity(userInput, profile).value, profile["bot_name"])
    ensures "bot_name" !in profile ==> Contains(MaintainIdentity(userInput, profile).value, "Zeta")
  {
    var reply := MaintainIdentity(userInput, profile).value;
    var name := BotName(profile);
    assert reply[|IdentityPrefix|..|IdentityPrefix| + |name|] == name;
    ContainsAt(reply, name, |IdentityPrefix|);
  }

  /** A None input is never an identity probe. */
  lemma NoneIsNotIdentityProbe(profile: map<string, string>)
    ensures MaintainIdentity(None, profile) == None
  {
  }

  /** Probing is case-insensitive: the answer is decided by the lower-cased input. */
  lemma IdentityIgnoresCase(s: string, profile: map<string, string>)
    ensures MaintainIdentity(Some(s), profile) == MaintainIdentity(Some(Lower(s)), profile)
  {
    LowerIsLowerCase(s);
  }

  /** An upper-case probe with surrounding text is answered, with the default persona. */
  lemma ShoutedProbeIsAnswered()
    ensures MaintainIdentity(Some("Hey, WHO ARE YOU?"), map[]) == Some(IdentityPrefix + DefaultBotName + IdentitySuffix)
  {
    var lower := Lower("Hey, WHO ARE YOU?");
    assert lower == "hey, who are you?";
    assert lower[5..16] == IdentityProbes[1];
    ContainsAt(lower, IdentityProbes[1], 5);
  }

  /** Any text that contains an identity probe is itself an identity probe. */
  lemma IdentityMonotone(s: string, t: string, profile: map<string, string>)
    requires MaintainIdentity(Some(s), profile).Some? && Contains(t, s)
    ensures MaintainIdentity(Some(t), profile) == MaintainIdentity(Some(s), profile)
  {
    MatchMonotone(s, t, IdentityProbes);
  }

  // ---------------------------------------------------------------------------
  // adapt_tone
  // ---------------------------------------------------------------------------

  const EmpatheticPhrases: seq<string> := ["i'm feeling down", "i feel sad", "i'm depressed", "i'm upset"]
  const RoastPhrases: seq<string> := ["roast", "let's roast", "insult"]

  const Empathetic: string := "empathetic"
  const PlayfulRoast: string := "playful_roast"
  const Neutral: string := "neutral"

  /** `adapt_tone(user_input)`: a one-entry dict `{"tone": label}`; the first rule that matches wins. */
  function AdaptTone(userInput: Option<string>): (r: map<string, string>)
    ensures r.Keys == {"tone"}
    ensures r["tone"] in {Empathetic, PlayfulRoast, Neutral}
  {
    var lower := Lowered(userInput);
    if AnyIn(lower, EmpatheticPhrases) then map["tone" := Empathetic]
    else if AnyIn(lower, RoastPhrases) then map["tone" := PlayfulRoast]
    else map["tone" := Neutral]
  }

  /** The empathetic rule is checked first, so it wins over any roast phrase. */
  lemma EmpatheticBeforeRoast(s: string, i: int)
    requires 0 <= i < |EmpatheticPhrases| && Contains(Lower(s), EmpatheticPhrases[i])
    ensures AdaptTone(Some(s))["tone"] == Empathetic
  {
  }

  /** Each label is chosen exactly when its rule matches and no earlier rule does. */
  lemma ToneClassification(userInput: Option<string>)
    ensures AdaptTone(userInput)["tone"] == Empathetic <==> AnyIn(Lowered(userInput), EmpatheticPhrases)
    ensures AdaptTone(userInput)["tone"] == PlayfulRoast
      <==> !AnyIn(Lowered(userInput), EmpatheticPhrases) && AnyIn(Lowered(userInput), RoastPhrases)
    ensures AdaptTone(userInput)["tone"] == Neutral
      <==> !AnyIn(Lowered(userInput), EmpatheticPhrases) && !AnyIn(Lowered(userInput), RoastPhrases)
  {
  }

  /** "let's roast" is redundant: the roast rule fires exactly on "roast" or "insult". */
  lemma RoastRuleIsRoastOrInsult(lower: string)
    ensures AnyIn(lower, RoastPhrases) <==> Contains(lower, "roast") || Contains(lower, "insult")
  {
    if Contains(lower, "let's roast") {
      ContainsAt("let's roast", "roast", 6);
      ContainsTransitive(lower, "let's roast", "roast");
    }
    if Contains(lower, "roast") {
      assert Contains(lower, RoastPhrases[0]);
    }
    if Contains(lower, "insult") {
      assert Contains(lower, RoastPhrases[2]);
    }
  }

  /** Tone matching is case-insensitive: the label is decided by the lower-cased input. */
  lemma ToneIgnoresCase(s: string)
    ensures AdaptTone(Some(s)) == AdaptTone(Some(Lower(s)))
  {
    LowerIsLowerCase(s);
  }

  /** A None input is neutral. */
  lemma NoneIsNeutral()
    ensures AdaptTone(None) == map["tone" := Neutral]
  {
  }

  // ---------------------------------------------------------------------------
  // natural_response
  // ---------------------------------------------------------------------------

  const EmpatheticSuffix: string := " \U{1F497} I'm listening \U{2014} tell me more if you want."
  const RoastSuffix: string := " \U{1F60F} (roast mode \U{2014} keep it friendly!)"

  /** What `natural_response` appends for a tone: nothing for "neutral" or an unknown tone. */
  function ToneSuffix(tone: string): string {
    if tone == Empathetic then EmpatheticSuffix
    else if tone == PlayfulRoast then RoastSuffix
    else ""
  }

  /** `natural_response(text, tone)`. */
  function NaturalResponse(text: string, tone: string): (r: string)
    ensures text <= r
    ensures tone != Empathetic && tone != PlayfulRoast ==> r == text
  {
    if tone == Empathetic then text + EmpatheticSuffix
    else if tone == PlayfulRoast then text + RoastSuffix
    else text
  }

  /** The reply is the text followed by the tone's fixed suffix, which can be cut off again. */
  lemma NaturalResponseSuffix(text: string, tone: string)
    ensures NaturalResponse(text, tone) == text + ToneSuffix(tone)
    ensures NaturalResponse(text, tone)[..|text|] == text
  {
  }

  /** For a fixed tone, different texts give different replies. */
  lemma NaturalResponseInjective(a: string, b: string, tone: string)
    requires NaturalResponse(a, tone) == NaturalResponse(b, tone)
    ensures a == b
  {
    var ra := NaturalResponse(a, tone);
    assert |a| == |ra| - |ToneSuffix(tone)| == |b|;
    assert a == ra[..|a|] == b;
  }
}
