/** `AuthSystem.checkPasswordStrength`: five independent rules, one point
    for each rule met and one hint for each rule missed, and the sign-up
    page's threshold of three points. */
module Strength {
  import opened Text

  /** The character class `[!@#$%^&*(),.?":{}|<>]`. */
  predicate IsSpecial(c: char) {
    c in "!@#$%^&*(),.?\":{}|<>"
  }

  /** A lower-case letter is in no other class. */
  lemma LetterIsPlain(c: char)
    requires IsLower(c)
    ensures !IsUpper(c) && !IsDigit(c) && !IsSpecial(c)
  {
  }

  datatype Rule = MinLength | HasUpper | HasLower | HasDigit | HasSpecial

  /** The rules in the order `checkPasswordStrength` applies them. */
  const AllRules: seq<Rule> := [MinLength, HasUpper, HasLower, HasDigit, HasSpecial]

  predicate Satisfies(password: string, rule: Rule) {
    match rule
    case MinLength => |password| >= 8
    case HasUpper => exists i :: 0 <= i < |password| && IsUpper(password[i])
    case HasLower => exists i :: 0 <= i < |password| && IsLower(password[i])
    case HasDigit => exists i :: 0 <= i < |password| && IsDigit(password[i])
    case HasSpecial => exists i :: 0 <= i < |password| && IsSpecial(password[i])
  }

  /** The feedback line shown when a rule is not met. */
  function Hint(rule: Rule): string {
    match rule
    case MinLength => "At least 8 characters"
    case HasUpper => "One uppercase letter"
    case HasLower => "One lowercase letter"
    case HasDigit => "One number"
    case HasSpecial => "One special character"
  }

  datatype Report = Report(score: nat, feedback: seq<string>)

  /** Number of `rules` that `password` meets. */
  function CountMet(password: string, rules: seq<Rule>): nat {
    if |rules| == 0 then 0
    else (if Satisfies(password, rules[0]) then 1 else 0) + CountMet(password, rules[1..])
  }

  /** Hints of the `rules` that `password` misses, in rule order. */
  function MissedHints(password: string, rules: seq<Rule>): seq<string> {
    if |rules| == 0 then []
    else (if Satisfies(password, rules[0]) then [] else [Hint(rules[0])])
         + MissedHints(password, rules[1..])
  }

  /** One step of `checkPasswordStrength`: a point if `met`, otherwise a hint. */
  function Tally(r: Report, met: bool, hint: string): Report {
    if met then r.(score := r.score + 1) else r.(feedback := r.feedback + [hint])
  }

  /** Each rule earns a point or a hint, never both. */
  lemma {:induction false} PointsPlusHints(password: string, rules: seq<Rule>)
    ensures CountMet(password, rules) + |MissedHints(password, rules)| == |rules|
  {
    if |rules| > 0 {
      PointsPlusHints(password, rules[1..]);
    }
  }

  /** A rule's hint is listed exactly when the rule is among `rules` and is
      missed (the five hints are pairwise different). */
  lemma {:induction false} HintListedIffMissed(password: string, rules: seq<Rule>, rule: Rule)
    ensures Hint(rule) in MissedHints(password, rules) <==> rule in rules && !Satisfies(password, rule)
  {
    if |rules| > 0 {
      HintListedIffMissed(password, rules[1..], rule);
      assert rules == [rules[0]] + rules[1..];
    }
  }

  /** Applies `rules` in order to the running report `acc`. */
  function TallyAll(password: string, rules: seq<Rule>, acc: Report): (r: Report)
    ensures r.score == acc.score + CountMet(password, rules)
    ensures r.feedback == acc.feedback + MissedHints(password, rules)
  {
    if |rules| == 0 then acc
    else
      var met := Satisfies(password, rules[0]);
      TallyStep(acc, met, Hint(rules[0]), MissedHints(password, rules[1..]));
      TallyAll(password, rules[1..], Tally(acc, met, Hint(rules[0])))
  }

  /** One tally step followed by the hints still to come lists the same
      hints as the step's own hint, if any, followed by those. */
  lemma TallyStep(acc: Report, met: bool, hint: string, later: seq<string>)
    ensures Tally(acc, met, hint).score == acc.score + (if met then 1 else 0)
    ensures Tally(acc, met, hint).feedback + later == acc.feedback + ((if met then [] else [hint]) + later)
  {
    if !met {
      assert (acc.feedback + [hint]) + later == acc.feedback + ([hint] + later);
    }
  }

  /** The report starts at score 0 with no feedback and the five rules are
      tallied in order: length, upper case, lower case, digit, symbol. */
  function CheckPasswordStrength(password: string): (r: Report)
    ensures r.score == CountMet(password, AllRules)
    ensures r.feedback == MissedHints(password, AllRules)
    ensures r.score <= 5 && r.score + |r.feedback| == 5
  {
    PointsPlusHints(password, AllRules);
    TallyAll(password, AllRules, Report(0, []))
  }

  /** The feedback names exactly the missed rules. */
  lemma FeedbackIffMissed(password: string, rule: Rule)
    ensures Hint(rule) in CheckPasswordStrength(password).feedback <==> !Satisfies(password, rule)
  {
    HintListedIffMissed(password, AllRules, rule);
  }

  /** The sign-up page's rule: a password is strong enough with three points. */
  predicate StrongEnough(password: string) {
    CheckPasswordStrength(password).score >= 3
  }

  /** Strong enough exactly when at most two of the five rules are missed. */
  lemma StrongEnoughIffFewMisses(password: string)
    ensures StrongEnough(password) <==> |MissedHints(password, AllRules)| <= 2
  {
  }

  /** Every rule is met by `Abcdef1!`. */
  lemma ScenarioPasswordIsStrong()
    ensures CheckPasswordStrength("Abcdef1!") == Report(5, [])
  {
    var p := "Abcdef1!";
    assert IsUpper(p[0]) && IsLower(p[1]) && IsDigit(p[6]) && IsSpecial(p[7]);
  }
}
