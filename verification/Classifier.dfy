/** The rule engine: one pass over the candidate rules with a best match per scope. */
module Classifier {
  import opened Common
  import opened Text
  import opened Rules

  const LABEL_UNKNOWN := "Unknown"

  datatype Message = Message(id: string, threadId: string, from: string, subject: string, bodySnippet: string)

  /** The audit reason, before it is printed as text. */
  datatype Reason =
    | NoMatchingRule
    | Matched(scope: Scope, ruleType: RuleType, op: Op, value: string, score: int)

  datatype Classification = Classification(labelName: string, confidence: real, reason: Reason)

  /** The values the string constants of a rule stand for, once recognised. */
  datatype Scope = UserSpecific | Global
  datatype Op = ContainsOp | EqualsOp

  datatype Candidate = Candidate(rule: Rule, scope: Scope)

  datatype Parts = Parts(senderEmail: string, senderDomain: string, subject: string, body: string, any: string)

  datatype Match = Match(targetLabel: string, score: int, reason: Reason)

  // ----- pure pieces ------------------------------------------------------

  function NormalizeScope(lib: Lib, scope: string): Option<Scope> {
    var n := Normalize(lib, scope);
    if n == "" || n == USER_SPECIFIC then Some(UserSpecific)
    else if n == GLOBAL then Some(Global)
    else None
  }

  /** The operator of a rule; a blank one means contains. */
  function OpOf(lib: Lib, operator: string): Option<Op> {
    var n := Normalize(lib, operator);
    if n == "" || n == CONTAINS then Some(ContainsOp)
    else if n == EQUALS then Some(EqualsOp)
    else None
  }

  function ExtractSenderEmail(lib: Lib, from: string): string {
    var f := Trim(lib, from);
    if f == "" then ""
    else match lib.parseAddress(f)
      case Some(address) => Normalize(lib, address)
      case None => Normalize(lib, f)
  }

  function ExtractSenderDomain(senderEmail: string): string {
    var parts := Split(senderEmail, '@');
    if |parts| != 2 then "" else parts[1]
  }

  function ExtractParts(lib: Lib, m: Message): Parts {
    var email := ExtractSenderEmail(lib, m.from);
    Parts(email, ExtractSenderDomain(email), Normalize(lib, m.subject), Normalize(lib, m.bodySnippet),
          Normalize(lib, m.from + " " + m.subject + " " + m.bodySnippet))
  }

  function SpecificityBonus(ruleType: RuleType, op: Op): int {
    (if op == EqualsOp then 20 else 0) +
    match ruleType
    case SenderEmail => 50
    case SenderDomain => 40
    case Subject => 30
    case Body => 20
    case Any => 10
    case OtherType(_) => 0
  }

  function ScoreRule(priority: int, specificity: int): int {
    Wrap64(Wrap64(priority * 1000) + specificity)
  }

  function ConfidenceFromScore(score: int): real {
    if score >= 200000 then 0.98 else if score >= 120000 then 0.94 else 0.9
  }

  function Field(parts: Parts, ruleType: RuleType): Option<string> {
    match ruleType
    case SenderEmail => Some(parts.senderEmail)
    case SenderDomain => Some(parts.senderDomain)
    case Subject => Some(parts.subject)
    case Body => Some(parts.body)
    case Any => Some(parts.any)
    case OtherType(_) => None
  }

  predicate Test(op: Op, value: string, needle: string) {
    if op == EqualsOp then value == needle else Contains(value, needle)
  }

  /** The operator with which a rule hits a message, if it does. */
  function Hit(lib: Lib, parts: Parts, rule: Rule): Option<Op> {
    if rule.priority < 0 then None
    else if Trim(lib, rule.ruleValue) == [] || Trim(lib, rule.targetLabel) == [] then None
    else
      match (OpOf(lib, rule.operator), Field(parts, rule.ruleType))
      case (Some(op), Some(value)) =>
        var needle := Normalize(lib, rule.ruleValue);
        if needle == [] || !Test(op, value, needle) then None else Some(op)
      case _ => None
  }

  function MatchCandidate(lib: Lib, parts: Parts, c: Candidate): Option<Match> {
    match Hit(lib, parts, c.rule)
    case None => None
    case Some(op) =>
      var score := ScoreRule(c.rule.priority, SpecificityBonus(c.rule.ruleType, op));
      Some(Match(c.rule.targetLabel, score, Matched(c.scope, c.rule.ruleType, op, c.rule.ruleValue, score)))
  }

  // ----- the specification function --------------------------------------

  /** Enabled rules with a known scope, in order. */
  function Eligible(scopeOf: string -> Option<Scope>, rules: seq<Rule>): seq<Candidate> {
    if rules == [] then []
    else
      var n := |rules| - 1;
      var before := Eligible(scopeOf, rules[..n]);
      var scope := scopeOf(rules[n].scope);
      if rules[n].enabled && scope.Some? then before + [Candidate(rules[n], scope.value)] else before
  }

  function Scoper(lib: Lib): string -> Option<Scope> {
    scope => NormalizeScope(lib, scope)
  }

  /** What each candidate of a scope contributes: its match, if it has one. */
  function Matches(f: Candidate -> Option<Match>, cs: seq<Candidate>, scope: Scope): (r: seq<Option<Match>>)
    ensures |r| == |cs|
    ensures forall i :: 0 <= i < |cs| ==> r[i] == if cs[i].scope == scope then f(cs[i]) else None
  {
    if cs == [] then []
    else
      var n := |cs| - 1;
      Matches(f, cs[..n], scope) + [if cs[n].scope == scope then f(cs[n]) else None]
  }

  /** Matching against the parts of one message. */
  function Matcher(lib: Lib, parts: Parts): Candidate -> Option<Match> {
    c => MatchCandidate(lib, parts, c)
  }

  /** The first match of greatest score. */
  function FirstMax(ms: seq<Option<Match>>): Option<Match> {
    if ms == [] then None
    else
      var n := |ms| - 1;
      var before := FirstMax(ms[..n]);
      if ms[n].Some? && (before.None? || ms[n].value.score > before.value.score) then ms[n] else before
  }

  function Best(lib: Lib, parts: Parts, cs: seq<Candidate>, scope: Scope): Option<Match> {
    FirstMax(Matches(Matcher(lib, parts), cs, scope))
  }

  function Decide(bestUser: Option<Match>, bestGlobal: Option<Match>): Classification {
    match (if bestUser.Some? then bestUser else bestGlobal)
    case None => Classification(LABEL_UNKNOWN, 0.5, NoMatchingRule)
    case Some(best) => Classification(best.targetLabel, ConfidenceFromScore(best.score), best.reason)
  }

  function ClassificationOf(lib: Lib, m: Message, rules: seq<Rule>): Classification {
    var parts := ExtractParts(lib, m);
    var cs := Eligible(Scoper(lib), rules);
    Decide(Best(lib, parts, cs, UserSpecific), Best(lib, parts, cs, Global))
  }

  lemma BestStep(lib: Lib, parts: Parts, cs: seq<Candidate>, scope: Scope)
    requires cs != []
    ensures var n := |cs| - 1;
      var before := Best(lib, parts, cs[..n], scope);
      var here := MatchCandidate(lib, parts, cs[n]);
      Best(lib, parts, cs, scope) ==
      if cs[n].scope == scope && here.Some? && (before.None? || here.value.score > before.value.score)
      then here else before
  {
    var n := |cs| - 1;
    assert Matches(Matcher(lib, parts), cs, scope)[..n] == Matches(Matcher(lib, parts), cs[..n], scope);
  }

  /** Classify, with its two accumulators. */
  method Classify(lib: Lib, m: Message, rules: seq<Rule>) returns (r: Classification)
    ensures r == ClassificationOf(lib, m, rules)
  {
    var candidates := [];
    for i := 0 to |rules|
      invariant candidates == Eligible(Scoper(lib), rules[..i])
    {
      assert rules[..i + 1][..i] == rules[..i];
      if rules[i].enabled {
        var scope := NormalizeScope(lib, rules[i].scope);
        if scope.Some? {
          candidates := candidates + [Candidate(rules[i], scope.value)];
        }
      }
    }
    assert rules[..|rules|] == rules;

    var parts := ExtractParts(lib, m);
    var bestUser, bestGlobal := None, None;
    for i := 0 to |candidates|
      invariant bestUser == Best(lib, parts, candidates[..i], UserSpecific)
      invariant bestGlobal == Best(lib, parts, candidates[..i], Global)
    {
      assert candidates[..i + 1][..i] == candidates[..i];
      BestStep(lib, parts, candidates[..i + 1], UserSpecific);
      BestStep(lib, parts, candidates[..i + 1], Global);
      var found := MatchCandidate(lib, parts, candidates[i]);
      if found.Some? {
        if candidates[i].scope == UserSpecific {
          if bestUser == None || found.value.score > bestUser.value.score {
            bestUser := found;
          }
        } else {
          if bestGlobal == None || found.value.score > bestGlobal.value.score {
            bestGlobal := found;
          }
        }
      }
    }
    assert candidates[..|candidates|] == candidates;
    r := Decide(bestUser, bestGlobal);
  }

  /** `FirstMax` is the earliest of the highest-scoring matches. */
  lemma {:induction false} FirstMaxSpec(ms: seq<Option<Match>>) returns (i: nat)
    ensures FirstMax(ms).None? ==> forall j :: 0 <= j < |ms| ==> ms[j].None?
    ensures FirstMax(ms).Some? ==>
      && i < |ms| && ms[i] == FirstMax(ms)
      && (forall j :: 0 <= j < |ms| && ms[j].Some? ==> ms[j].value.score <= FirstMax(ms).value.score)
      && (forall j :: 0 <= j < i && ms[j].Some? ==> ms[j].value.score < FirstMax(ms).value.score)
  {
    i := 0;
    if ms != [] {
      var n := |ms| - 1;
      i := FirstMaxSpec(ms[..n]);
      assert forall j :: 0 <= j < n ==> ms[..n][j] == ms[j];
      var before := FirstMax(ms[..n]);
      if ms[n].Some? && (before.None? || ms[n].value.score > before.value.score) { i := n; }
    }
  }
}
