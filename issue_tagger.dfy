/**
  The issue tagger: a first-match keyword classifier over a fixed, ordered
  table of rules. The widget uses its result to badge assistant messages and
  to decide whether a turn is logged to the backend's issue file.
 */
module IssueTagger {
  import opened Wrappers
  import opened Text

  /** One row of the table: if any keyword occurs in the lower-cased text, the tag applies. */
  datatype Rule = Rule(keywords: seq<string>, tag: string)

  const PrinterTag: string := "\U{1F527} Printer Issue"
  const PerformanceTag: string := "\U{1F9CA} App Performance"
  const OrderSyncTag: string := "\U{1F37D}\U{FE0F} Order Sync"
  const BillingTag: string := "\U{1F4B5} Billing Issue"

  /** The table, in the order in which it is searched. */
  const Rules: seq<Rule> := [
    Rule(["printer", "receipt", "paper"], PrinterTag),
    Rule(["freeze", "crash", "slow"], PerformanceTag),
    Rule(["order", "menu", "kitchen", "sync"], OrderSyncTag),
    Rule(["bill", "charge", "tax", "amount"], BillingTag)
  ]

  /** `keywords.some(word => lower.includes(word))`. */
  predicate RuleMatches(rule: Rule, lower: string) {
    exists k :: 0 <= k < |rule.keywords| && Contains(lower, rule.keywords[k])
  }

  /** Rule `k` matches and no rule before it does. */
  predicate IsFirstMatch(rules: seq<Rule>, lower: string, k: int) {
    && 0 <= k < |rules|
    && RuleMatches(rules[k], lower)
    && forall j :: 0 <= j < k ==> !RuleMatches(rules[j], lower)
  }

  /** The tag of the first rule, in table order, that matches. */
  function FirstMatch(rules: seq<Rule>, lower: string): Option<string> {
    if rules == [] then None
    else if RuleMatches(rules[0], lower) then Some(rules[0].tag)
    else FirstMatch(rules[1..], lower)
  }

  /** `detectIssueTag`: lower-case the text, then search the table. */
  function DetectIssueTag(text: string): (r: Option<string>)
    ensures r.Some? ==> r.value in {PrinterTag, PerformanceTag, OrderSyncTag, BillingTag}
  {
    FirstMatchSpec(Rules, Lower(text));
    FirstMatch(Rules, Lower(text))
  }

  /**
    The search returns the tag of the first matching rule, and nothing
    exactly when no rule matches.
   */
  lemma {:induction false} FirstMatchSpec(rules: seq<Rule>, lower: string)
    ensures FirstMatch(rules, lower).None? <==>
              forall k :: 0 <= k < |rules| ==> !RuleMatches(rules[k], lower)
    ensures forall k :: IsFirstMatch(rules, lower, k) ==> FirstMatch(rules, lower) == Some(rules[k].tag)
    ensures FirstMatch(rules, lower).Some? ==>
              exists k :: IsFirstMatch(rules, lower, k) && FirstMatch(rules, lower) == Some(rules[k].tag)
  {
    if rules != [] {
      FirstMatchSpec(rules[1..], lower);
      if RuleMatches(rules[0], lower) {
        assert IsFirstMatch(rules, lower, 0);
        forall k | IsFirstMatch(rules, lower, k)
          ensures k == 0
        {
        }
      } else {
        forall k | IsFirstMatch(rules, lower, k)
          ensures IsFirstMatch(rules[1..], lower, k - 1)
        {
          assert k != 0;
          forall j | 0 <= j < k - 1
            ensures !RuleMatches(rules[1..][j], lower)
          {
            assert rules[1..][j] == rules[j + 1];
          }
        }
        if FirstMatch(rules, lower).Some? {
          var k :| IsFirstMatch(rules[1..], lower, k) && FirstMatch(rules[1..], lower) == Some(rules[1..][k].tag);
          assert IsFirstMatch(rules, lower, k + 1);
        }
      }
    }
  }

  /**
    `detectIssueTag` returns the tag of the first table rule having a keyword
    in the lower-cased text, and null exactly when no rule has one.
   */
  lemma DetectIssueTagSpec(text: string)
    ensures DetectIssueTag(text).None? <==>
              forall k :: 0 <= k < |Rules| ==> !RuleMatches(Rules[k], Lower(text))
    ensures forall k :: IsFirstMatch(Rules, Lower(text), k) ==> DetectIssueTag(text) == Some(Rules[k].tag)
  {
    FirstMatchSpec(Rules, Lower(text));
  }

  /** The tagger ignores case: the text and its lower-case form get the same tag. */
  lemma DetectIssueTagIgnoresCase(text: string)
    ensures DetectIssueTag(Lower(text)) == DetectIssueTag(text)
  {
    LowerIsLowerCase(text);
  }

  /** "printer bill" matches both the printer and the billing rows; the earlier row wins. */
  lemma PrinterBeatsBilling()
    ensures RuleMatches(Rules[3], Lower("printer bill"))
    ensures DetectIssueTag("printer bill") == Some(PrinterTag)
  {
    var lower := Lower("printer bill");
    LowerOfLowerCase("printer bill");
    assert OccursAt(lower, "printer", 0);
    assert Rules[0].keywords[0] == "printer";
    assert RuleMatches(Rules[0], lower);
    assert OccursAt(lower, "bill", 8);
    assert Rules[3].keywords[0] == "bill";
    DetectIssueTagSpec("printer bill");
    assert IsFirstMatch(Rules, lower, 0);
  }

  /** Upper-case keywords are found too. */
  lemma UpperCaseKeyword()
    ensures DetectIssueTag("CRASH!") == Some(PerformanceTag)
  {
    var lower := Lower("CRASH!");
    assert lower == "crash!" by {
      forall i | 0 <= i < 6
        ensures lower[i] == "crash!"[i]
      {
      }
    }
    assert OccursAt(lower, "crash", 0);
    assert Rules[1].keywords[1] == "crash";
    assert RuleMatches(Rules[1], lower);
    NoWordIn(lower, "paper", 0);
    assert !RuleMatches(Rules[0], lower);
    DetectIssueTagSpec("CRASH!");
    assert IsFirstMatch(Rules, lower, 1);
  }

  /**
    The Kelvin sign lower-cases to `k`, so "\U{212A}itchen" contains the
    keyword "kitchen" and is tagged as an order-sync issue.
   */
  lemma KelvinSignKeyword()
    ensures DetectIssueTag("\U{212A}itchen") == Some(OrderSyncTag)
  {
    var lower := Lower("\U{212A}itchen");
    assert lower == "kitchen" by {
      forall i | 0 <= i < 7
        ensures lower[i] == "kitchen"[i]
      {
      }
    }
    assert OccursAt(lower, "kitchen", 0);
    assert Rules[2].keywords[2] == "kitchen";
    assert RuleMatches(Rules[2], lower);
    forall j | 0 <= j < |Rules[0].keywords|
      ensures !Contains(lower, Rules[0].keywords[j])
    {
      NoWordIn(lower, Rules[0].keywords[j], 0);
    }
    forall j | 0 <= j < |Rules[1].keywords|
      ensures !Contains(lower, Rules[1].keywords[j])
    {
      NoWordIn(lower, Rules[1].keywords[j], 1);
    }
    DetectIssueTagSpec("\U{212A}itchen");
    assert IsFirstMatch(Rules, lower, 2);
  }

  /** Every keyword has at least three letters, so shorter texts are never tagged. */
  lemma ShortTextUntagged(text: string)
    requires |text| < 3
    ensures DetectIssueTag(text) == None
  {
    DetectIssueTagSpec(text);
    forall k, j | 0 <= k < |Rules| && 0 <= j < |Rules[k].keywords|
      ensures !Contains(Lower(text), Rules[k].keywords[j])
    {
      assert |Rules[k].keywords[j]| >= 3;
    }
  }

  /** No tag holds a comma or a line break, so a tag is always one whole comma-separated field. */
  lemma TagsAreSingleFields(tag: string)
    requires tag in {PrinterTag, PerformanceTag, OrderSyncTag, BillingTag}
    ensures ',' !in tag && '\n' !in tag
  {
  }

}
