/**
  The closure-phrase detector: decides from the user's last utterance whether
  the user is wrapping up the conversation.
 */
module Closure {
  import opened Text

  /** The trigger phrases, all lower case. */
  const ClosingTriggers: seq<string> :=
    ["yes", "that's all", "thank you", "thanks", "okay", "cool", "done", "perfect", "great"]

  /**
    `isClosureSignal`: trim, lower-case, then ask whether the result equals
    or includes some trigger phrase.
   */
  predicate IsClosureSignal(text: string) {
    var lower := Lower(Trim(text));
    exists k :: 0 <= k < |ClosingTriggers| &&
      (lower == ClosingTriggers[k] || Contains(lower, ClosingTriggers[k]))
  }

  /** Some trigger phrase occurs in `s`. */
  predicate MentionsTrigger(s: string) {
    exists k :: 0 <= k < |ClosingTriggers| && Contains(s, ClosingTriggers[k])
  }

  /** Each phrase is non-empty and neither starts nor ends with white space. */
  lemma TriggersAreTrimmed(k: int)
    requires 0 <= k < |ClosingTriggers|
    ensures |ClosingTriggers[k]| >= 3
    ensures !IsWhite(ClosingTriggers[k][0]) && !IsWhite(ClosingTriggers[k][|ClosingTriggers[k]| - 1])
  {
  }

  /**
    The text is a closure signal exactly when its lower-case form includes a
    trigger phrase: the equality test is subsumed by `includes`, and trimming
    never changes the answer.
   */
  lemma ClosureSignalSpec(text: string)
    ensures IsClosureSignal(text) <==> MentionsTrigger(Lower(text))
  {
    var lower := Lower(Trim(text));
    TrimLower(text);
    assert lower == Trim(Lower(text));
    forall k | 0 <= k < |ClosingTriggers|
      ensures (lower == ClosingTriggers[k] || Contains(lower, ClosingTriggers[k]))
              <==> Contains(Lower(text), ClosingTriggers[k])
    {
      if lower == ClosingTriggers[k] {
        ContainsSelf(lower);
      }
      TriggersAreTrimmed(k);
      ContainsTrim(Lower(text), ClosingTriggers[k]);
    }
  }

  /** Text made only of white space (the empty string included) is never a closure signal. */
  lemma BlankIsNoSignal(text: string)
    requires forall i :: 0 <= i < |text| ==> IsWhite(text[i])
    ensures !IsClosureSignal(text)
  {
    var lower := Lower(Trim(text));
    assert |Trim(text)| == 0;
    forall k | 0 <= k < |ClosingTriggers|
      ensures lower != ClosingTriggers[k] && !Contains(lower, ClosingTriggers[k])
    {
      TriggersAreTrimmed(k);
      NotInEmpty(ClosingTriggers[k]);
    }
  }

  /** Padding and capitals do not hide a trigger. */
  lemma PaddedThanks()
    ensures IsClosureSignal("  Thanks!\n")
  {
    var text := "  Thanks!\n";
    var lower := Lower(text);
    assert lower == "  thanks!\n" by {
      forall i | 0 <= i < |text|
        ensures lower[i] == "  thanks!\n"[i]
      {
      }
    }
    assert OccursAt(lower, "thanks", 2);
    assert ClosingTriggers[3] == "thanks";
    ClosureSignalSpec(text);
  }

  /** A trigger inside a longer word counts: "yesterday" includes "yes". */
  lemma YesterdayIsASignal()
    ensures IsClosureSignal("yesterday it froze")
  {
    var text := "yesterday it froze";
    LowerOfLowerCase(text);
    assert OccursAt(Lower(text), "yes", 0);
    assert ClosingTriggers[0] == "yes";
    ClosureSignalSpec(text);
  }

}
