/**
  `aiCategorize`: a guess of (category, subcategory) from a file name, by an ordered list of
  substring rules over the lower-cased name. The first rule with a matching keyword wins.
 */
module Classifier {
  import opened Wrappers
  import opened Text
  import opened Records

  datatype Suggestion = Suggestion(cat: string, sub: string)

  /** A rule fires when the lower-cased name contains any of its keywords. */
  datatype Rule = Rule(keywords: seq<string>, suggestion: Suggestion)

  const Electricity := Suggestion(Bills, "Ρεύμα")
  const Water := Suggestion(Bills, "Νερό")
  const Phone := Suggestion(Bills, "Τηλέφωνο")

  /** The rules in priority order: electricity, then water, then phone. */
  const Rules: seq<Rule> := [
    Rule(["dei", "ρεύμα"], Electricity),
    Rule(["νερό", "eydap"], Water),
    Rule(["vodafone", "cosmote"], Phone)]

  /** `name.includes(a) || name.includes(b)`: some keyword of the rule occurs in `name`. */
  predicate Matches(rule: Rule, name: string): (b: bool)
    ensures rule.keywords == [] ==> !b
    ensures |rule.keywords| == 2 ==> (b <==> Contains(name, rule.keywords[0]) || Contains(name, rule.keywords[1]))
  {
    exists k :: 0 <= k < |rule.keywords| && Contains(name, rule.keywords[k])
  }

  /** None of the first `n` rules matches `name`. */
  predicate NoneMatchBefore(rules: seq<Rule>, name: string, n: int) {
    forall j :: 0 <= j < n && j < |rules| ==> !Matches(rules[j], name)
  }

  /** The suggestion of the first rule that matches `name`, or None when no rule does. */
  function FirstMatch(rules: seq<Rule>, name: string): (r: Option<Suggestion>)
    ensures r.None? <==> NoneMatchBefore(rules, name, |rules|)
    ensures r.Some? ==> exists i :: 0 <= i < |rules| && Matches(rules[i], name)
                                   && r.value == rules[i].suggestion && NoneMatchBefore(rules, name, i)
  {
    if rules == [] then None
    else if Matches(rules[0], name) then
      assert NoneMatchBefore(rules, name, 0);
      Some(rules[0].suggestion)
    else
      var r := FirstMatch(rules[1..], name);
      assert forall n :: 0 <= n <= |rules| - 1 ==>
        (NoneMatchBefore(rules[1..], name, n) <==> NoneMatchBefore(rules, name, n + 1)) by {
        forall n | 0 <= n <= |rules| - 1
          ensures NoneMatchBefore(rules[1..], name, n) <==> NoneMatchBefore(rules, name, n + 1)
        {
          assert forall j :: 1 <= j < |rules| ==> rules[j] == rules[1..][j - 1];
        }
      }
      assert r.Some? ==> exists i :: 0 <= i < |rules| && Matches(rules[i], name)
                                     && r.value == rules[i].suggestion && NoneMatchBefore(rules, name, i) by {
        if r.Some? {
          var i :| 0 <= i < |rules| - 1 && Matches(rules[1..][i], name)
                   && r.value == rules[1..][i].suggestion && NoneMatchBefore(rules[1..], name, i);
          assert rules[i + 1] == rules[1..][i];
        }
      }
      r
  }

  /** `aiCategorize(fileName)`; every suggestion names a subcategory the built-in registry lists. */
  function AiCategorize(fileName: string): (r: Option<Suggestion>)
    ensures r.Some? ==> r.value.cat in DefaultRegistry && r.value.sub in DefaultRegistry[r.value.cat]
  {
    FirstMatch(Rules, ToLower(fileName))
  }

  /**
    The rule list is the source's chain of tests: electricity keywords first, then water,
    then phone, and no suggestion when none of the six keywords occurs.
   */
  lemma AiCategorizeChain(fileName: string)
    ensures var name := ToLower(fileName);
      AiCategorize(fileName) ==
        if Contains(name, "dei") || Contains(name, "ρεύμα") then Some(Electricity)
        else if Contains(name, "νερό") || Contains(name, "eydap") then Some(Water)
        else if Contains(name, "vodafone") || Contains(name, "cosmote") then Some(Phone)
        else None
  {
    var name := ToLower(fileName);
    assert Matches(Rules[0], name) <==> Contains(name, "dei") || Contains(name, "ρεύμα");
    assert Matches(Rules[1], name) <==> Contains(name, "νερό") || Contains(name, "eydap");
    assert Matches(Rules[2], name) <==> Contains(name, "vodafone") || Contains(name, "cosmote");
    assert Rules[1..][1..][1..] == [];
  }

  /** A bill from the electricity provider, named in capitals, is filed under electricity. */
  lemma ElectricityBillExample()
    ensures AiCategorize("DEI-January.pdf") == Some(Electricity)
  {
    var name := ToLower("DEI-January.pdf");
    assert name[..3] == "dei";
    AiCategorizeChain("DEI-January.pdf");
  }
}
