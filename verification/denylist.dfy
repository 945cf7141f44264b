/** The denylist filter: a message is refused when it contains, as an exact
    case-sensitive substring, any of six fixed Section Two question
    openings. */
module Denylist {
  import opened Text

  /** The forbidden phrases, in the order the filter tries them. Each is
      written in two pieces only so that the verifier reads its characters
      (it does not look inside long string literals). */
  const BannedPhrases: seq<string> := [
    "Multi-Factor Authentication " + "requires users to provide",
    "While on a business trip, " + "you use the company VPN",
    "You are an assistant " + "in the sales department",
    "Zero Trust Architecture " + "is a network security model",
    "You need to approve a file " + "request involving HR data",
    "You are an assistant " + "in the legal department"
  ]

  /** The fixed reply that replaces the upstream answer for a refused message. */
  const Refusal: string := "Please complete the questions in Section Two independently."

  /** `phrases.some(p => message.includes(p))`. */
  function SomeIncluded(message: string, phrases: seq<string>): (b: bool)
    ensures b <==> exists k :: 0 <= k < |phrases| && Occurs(phrases[k], message)
  {
    if |phrases| == 0 then false
    else Includes(message, phrases[0]) || SomeIncluded(message, phrases[1..])
  }

  /** The filter: does the message contain a banned phrase? */
  function IsBanned(message: string): (b: bool)
    ensures b <==> exists k :: 0 <= k < |BannedPhrases| && Occurs(BannedPhrases[k], message)
  {
    SomeIncluded(message, BannedPhrases)
  }

  /** Text added before or after a banned message cannot unblock it. */
  lemma BannedInContext(before: string, message: string, after: string)
    requires IsBanned(message)
    ensures IsBanned(before + message + after)
  {
    var k :| 0 <= k < |BannedPhrases| && Occurs(BannedPhrases[k], message);
    OccursInContext(BannedPhrases[k], before, message, after);
  }

  /** Every banned phrase is refused on its own. */
  lemma EachPhraseIsBanned(k: nat)
    requires k < |BannedPhrases|
    ensures IsBanned(BannedPhrases[k])
  {
    assert OccursAt(BannedPhrases[k], BannedPhrases[k], 0);
  }

  /** A message with a banned phrase in the middle of other text is refused. */
  lemma QuotedQuestionIsBanned()
    ensures IsBanned("Multi-Factor Authentication " + "requires users to provide ...")
  {
    EachPhraseIsBanned(0);
    BannedInContext("", BannedPhrases[0], " ...");
    assert "" + BannedPhrases[0] + " ..."
        == "Multi-Factor Authentication " + "requires users to provide" + " ...";
  }

  /** Every phrase starts with a capital letter. */
  lemma PhrasesStartCapitalised(k: nat)
    requires k < |BannedPhrases|
    ensures |BannedPhrases[k]| > 0 && 'A' <= BannedPhrases[k][0] <= 'Z'
  {
  }

  /** The match is case-sensitive: a message without capital letters, such
      as the lower-case form of a banned phrase, is let through, since every
      phrase starts with a capital letter. */
  lemma LowerCaseIsAllowed(message: string)
    requires forall i :: 0 <= i < |message| ==> !('A' <= message[i] <= 'Z')
    ensures !IsBanned(message)
  {
    forall k | 0 <= k < |BannedPhrases|
      ensures !Occurs(BannedPhrases[k], message)
    {
      PhrasesStartCapitalised(k);
      AbsentCharBlocksOccurrence(BannedPhrases[k], message, 0);
    }
  }

  /** A message shorter than every phrase is never refused. */
  lemma ShortMessageIsAllowed(message: string)
    requires |message| < 44
    ensures !IsBanned(message)
  {
  }
}
