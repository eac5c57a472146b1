/** When a rule hits a message, and which rule of a list answers, said of the message's own fields. */
module Matching {
  import opened Common
  import opened Text
  import opened Rules
  import opened Classifier
  import opened RuleChoice

  // ----- one rule ------------------------------------------------------------------

  /** The operator as it is written: a blank one means contains. */
  predicate Reads(lib: Lib, operator: string, op: Op) {
    var n := Normalize(lib, operator);
    match op
    case EqualsOp => n == "equals"
    case ContainsOp => n == "" || n == "contains"
  }

  ghost predicate Meets(op: Op, text: string, value: string) {
    match op
    case EqualsOp => text == value
    case ContainsOp => exists before, after :: text == before + value + after
  }

  /** The address that parses out of the header, or else the header itself. */
  function SenderAddress(lib: Lib, from: string): string {
    if Blank(lib, from) then ""
    else
      match lib.parseAddress(Trim(lib, from))
      case Some(address) => Normalize(lib, address)
      case None => Normalize(lib, from)
  }

  /** The text that a rule of the type is held against meets the value. */
  ghost predicate Tests(lib: Lib, m: Message, ruleType: RuleType, op: Op, value: string) {
    match ruleType
    case SenderEmail => Meets(op, SenderAddress(lib, m.from), value)
    case SenderDomain => exists user, domain ::
      IsAddress(SenderAddress(lib, m.from), user, domain) && Meets(op, domain, value)
    case Subject => Meets(op, Normalize(lib, m.subject), value)
    case Body => Meets(op, Normalize(lib, m.bodySnippet), value)
    case Any => Meets(op, Normalize(lib, m.from + " " + m.subject + " " + m.bodySnippet), value)
    case OtherType(_) => false
  }

  /** A user and a domain around the only '@'. */
  predicate IsAddress(address: string, user: string, domain: string) {
    address == user + "@" + domain && '@' !in user && '@' !in domain
  }

  ghost predicate HitsWith(lib: Lib, m: Message, rule: Rule, op: Op) {
    && rule.priority >= 0 && !Blank(lib, rule.ruleValue) && !Blank(lib, rule.targetLabel)
    && Reads(lib, rule.operator, op)
    && Tests(lib, m, rule.ruleType, op, Normalize(lib, rule.ruleValue))
  }

  lemma NormalizeTrimmed(lib: Lib, s: string)
    ensures Normalize(lib, Trim(lib, s)) == Normalize(lib, s)
    ensures Normalize(lib, s) == "" <==> Blank(lib, s)
  {
    TrimTwice(lib, s);
    TrimBlank(lib, s);
  }

  lemma SenderIsAddress(lib: Lib, from: string)
    ensures ExtractSenderEmail(lib, from) == SenderAddress(lib, from)
  {
    NormalizeTrimmed(lib, from);
    TrimBlank(lib, from);
  }

  lemma SplitTwo(s: string, a: string, b: string)
    ensures Split(s, '@') == [a, b] <==> IsAddress(s, a, b)
  {
    if Split(s, '@') == [a, b] {
      var rest := SplitFirst(s, '@');
      SplitSingle(rest, '@');
      SplitPlain(s, '@', a);
      SplitPlain(s, '@', b);
    }
    if IsAddress(s, a, b) {
      assert s == a + ['@'] + b;
      SplitHead(a, '@', b);
      SplitWhole(b, '@');
    }
  }

  lemma TestMeets(op: Op, text: string, value: string)
    ensures Test(op, text, value) <==> Meets(op, text, value)
  {
    ContainsMiddle(text, value);
  }

  /** The domain of an address with a single '@' is tested; of any other text, nothing. */
  lemma DomainTests(address: string, op: Op, value: string)
    requires value != ""
    ensures Test(op, ExtractSenderDomain(address), value) <==>
      exists user, domain :: IsAddress(address, user, domain) && Meets(op, domain, value)
  {
    var parts := Split(address, '@');
    TestMeets(op, ExtractSenderDomain(address), value);
    if |parts| == 2 {
      assert parts == [parts[0], parts[1]];
      SplitTwo(address, parts[0], parts[1]);
    }
    forall user, domain | IsAddress(address, user, domain) ensures parts == [user, domain] {
      SplitTwo(address, user, domain);
    }
  }

  lemma FieldTests(lib: Lib, m: Message, ruleType: RuleType, op: Op, value: string)
    requires value != ""
    ensures var field := Field(ExtractParts(lib, m), ruleType);
      (field.Some? && Test(op, field.value, value)) <==> Tests(lib, m, ruleType, op, value)
  {
    SenderIsAddress(lib, m.from);
    match ruleType {
      case SenderEmail => TestMeets(op, SenderAddress(lib, m.from), value);
      case SenderDomain => DomainTests(SenderAddress(lib, m.from), op, value);
      case Subject => TestMeets(op, Normalize(lib, m.subject), value);
      case Body => TestMeets(op, Normalize(lib, m.bodySnippet), value);
      case Any => TestMeets(op, Normalize(lib, m.from + " " + m.subject + " " + m.bodySnippet), value);
      case OtherType(_) =>
    }
  }

  /** When a rule hits a message, and with which operator. */
  lemma HitExactly(lib: Lib, m: Message, rule: Rule, op: Op)
    ensures Hit(lib, ExtractParts(lib, m), rule) == Some(op) <==> HitsWith(lib, m, rule, op)
  {
    NormalizeTrimmed(lib, rule.ruleValue);
    TrimBlank(lib, rule.ruleValue);
    TrimBlank(lib, rule.targetLabel);
    if !Blank(lib, rule.ruleValue) {
      FieldTests(lib, m, rule.ruleType, op, Normalize(lib, rule.ruleValue));
    }
  }

  /** When a stored rule fires for a user: it is enabled, theirs or global, and hits. */
  lemma FiresExactly(lib: Lib, user: string, m: Message, rule: UserRule)
    ensures Fires(lib, user, m, rule) <==>
      && rule.enabled && (rule.userId == None || rule.userId == Some(user))
      && exists op :: HitsWith(lib, m, Rule(rule.ruleType, rule.operator, rule.ruleValue, rule.targetLabel,
                                            rule.enabled, rule.priority, RuleScope(rule)), op)
  {
    HitExactly(lib, m, ToRule(rule), EqualsOp);
    HitExactly(lib, m, ToRule(rule), ContainsOp);
  }

  // ----- a list of rules -------------------------------------------------------------

  /** The scope as it is written: a blank one means user-specific, an unknown one takes the rule out. */
  predicate Scoped(lib: Lib, text: string, scope: Scope) {
    var n := Normalize(lib, text);
    match scope
    case UserSpecific => n == "" || n == "user_specific"
    case Global => n == "global"
  }

  /** The rule takes part, in the scope, and hits. */
  ghost predicate Considered(lib: Lib, m: Message, rule: Rule, scope: Scope, op: Op) {
    rule.enabled && Scoped(lib, rule.scope, scope) && HitsWith(lib, m, rule, op)
  }

  /** A thousand for each step of priority, and a bonus for the field and for equality, in 64 bits. */
  function ScoreOf(rule: Rule, op: Op): int {
    var bonus :=
      match rule.ruleType
      case SenderEmail => 50
      case SenderDomain => 40
      case Subject => 30
      case Body => 20
      case Any => 10
      case OtherType(_) => 0;
    Wrap64(Wrap64(rule.priority * 1000) + bonus + if op == EqualsOp then 20 else 0)
  }

  /** What a rule offers in a scope. */
  function Offer(lib: Lib, m: Message, rule: Rule, scope: Scope): Option<Match> {
    if rule.enabled && NormalizeScope(lib, rule.scope) == Some(scope)
    then MatchCandidate(lib, ExtractParts(lib, m), Candidate(rule, scope)) else None
  }

  lemma OfferExactly(lib: Lib, m: Message, rule: Rule, scope: Scope, op: Op)
    ensures var score := ScoreOf(rule, op);
      Offer(lib, m, rule, scope) ==
        Some(Match(rule.targetLabel, score, Matched(scope, rule.ruleType, op, rule.ruleValue, score))) <==>
      Considered(lib, m, rule, scope, op)
  {
    HitExactly(lib, m, rule, op);
  }

  lemma OfferSome(lib: Lib, m: Message, rule: Rule, scope: Scope) returns (op: Op)
    requires Offer(lib, m, rule, scope).Some?
    ensures Considered(lib, m, rule, scope, op)
    ensures Offer(lib, m, rule, scope).value.score == ScoreOf(rule, op)
  {
    op := Hit(lib, ExtractParts(lib, m), rule).value;
    HitExactly(lib, m, rule, op);
  }

  predicate TakesPart(scopeOf: string -> Option<Scope>, rule: Rule) {
    rule.enabled && scopeOf(rule.scope).Some?
  }

  /** The candidates are the rules at these places, in order. */
  ghost predicate Indexed(scopeOf: string -> Option<Scope>, rules: seq<Rule>, cs: seq<Candidate>, idx: seq<nat>) {
    && |idx| == |cs|
    && (forall k :: 0 <= k < |idx| ==>
          && idx[k] < |rules| && TakesPart(scopeOf, rules[idx[k]])
          && cs[k] == Candidate(rules[idx[k]], scopeOf(rules[idx[k]].scope).value))
    && (forall k, l :: 0 <= k < l < |idx| ==> idx[k] < idx[l])
  }

  /** Every rule that takes part is at one of the places. */
  ghost predicate Covers(scopeOf: string -> Option<Scope>, rules: seq<Rule>, idx: seq<nat>) {
    forall i :: 0 <= i < |rules| && TakesPart(scopeOf, rules[i]) ==> i in idx
  }

  /** Which rules take part, in their order. */
  lemma {:induction false} EligibleIndices(scopeOf: string -> Option<Scope>, rules: seq<Rule>) returns (idx: seq<nat>)
    ensures Indexed(scopeOf, rules, Eligible(scopeOf, rules), idx) && Covers(scopeOf, rules, idx)
  {
    idx := [];
    if rules != [] {
      var n := |rules| - 1;
      var before := EligibleIndices(scopeOf, rules[..n]);
      idx := if TakesPart(scopeOf, rules[n]) then before + [n] else before;
      CoversMore(scopeOf, rules, before, idx);
      IndexedMore(scopeOf, rules, Eligible(scopeOf, rules[..n]), before);
    }
  }

  lemma IndexedMore(scopeOf: string -> Option<Scope>, rules: seq<Rule>, cs: seq<Candidate>, before: seq<nat>)
    requires rules != [] && Indexed(scopeOf, rules[..|rules| - 1], cs, before)
    ensures Indexed(scopeOf, rules, cs, before)
    ensures var n := |rules| - 1;
      TakesPart(scopeOf, rules[n]) ==>
        Indexed(scopeOf, rules, cs + [Candidate(rules[n], scopeOf(rules[n].scope).value)], before + [n])
  {
    var n := |rules| - 1;
    forall k | 0 <= k < |before| ensures before[k] < n && rules[..n][before[k]] == rules[before[k]] {}
  }

  lemma CoversMore(scopeOf: string -> Option<Scope>, rules: seq<Rule>, before: seq<nat>, idx: seq<nat>)
    requires rules != [] && Covers(scopeOf, rules[..|rules| - 1], before)
    requires idx == if TakesPart(scopeOf, rules[|rules| - 1]) then before + [|rules| - 1] else before
    ensures Covers(scopeOf, rules, idx)
  {
    forall i | 0 <= i < |rules| && TakesPart(scopeOf, rules[i]) ensures i in idx {
      if i < |rules| - 1 { assert rules[..|rules| - 1][i] == rules[i]; }
    }
  }

  /** The first maximum of some of a list is the earliest of its best, when the others have nothing to offer. */
  lemma FirstMaxOfSome(offers: seq<Option<Match>>, idx: seq<nat>, ms: seq<Option<Match>>) returns (i: nat)
    requires |ms| == |idx| && forall l :: 0 <= l < |idx| ==> idx[l] < |offers| && ms[l] == offers[idx[l]]
    requires forall k, l :: 0 <= k < l < |idx| ==> idx[k] < idx[l]
    requires forall j :: 0 <= j < |offers| && offers[j].Some? ==> j in idx
    ensures FirstMax(ms).None? ==> forall j :: 0 <= j < |offers| ==> offers[j].None?
    ensures FirstMax(ms).Some? ==>
      && i < |offers| && offers[i] == FirstMax(ms)
      && forall j :: 0 <= j < |offers| && offers[j].Some? ==>
           && offers[j].value.score <= FirstMax(ms).value.score
           && (j < i ==> offers[j].value.score < FirstMax(ms).value.score)
  {
    var k := FirstMaxSpec(ms);
    i := if k < |idx| then idx[k] else 0;
    forall j | 0 <= j < |offers| && offers[j].Some?
      ensures FirstMax(ms).Some? && offers[j].value.score <= FirstMax(ms).value.score
      ensures j < i ==> offers[j].value.score < FirstMax(ms).value.score
    {
      var l :| 0 <= l < |idx| && idx[l] == j;
      assert ms[l] == offers[j];
    }
  }

  function Offers(lib: Lib, m: Message, rules: seq<Rule>, scope: Scope): seq<Option<Match>> {
    seq(|rules|, i requires 0 <= i < |rules| => Offer(lib, m, rules[i], scope))
  }

  /** A scope's accumulator ends with the earliest of the best offers. */
  lemma BestOfRules(lib: Lib, m: Message, rules: seq<Rule>, scope: Scope) returns (i: nat)
    ensures var best := Best(lib, ExtractParts(lib, m), Eligible(Scoper(lib), rules), scope);
      if best.None? then forall j :: 0 <= j < |rules| ==> Offer(lib, m, rules[j], scope).None?
      else
        && i < |rules| && Offer(lib, m, rules[i], scope) == best
        && forall j :: 0 <= j < |rules| && Offer(lib, m, rules[j], scope).Some? ==>
             && Offer(lib, m, rules[j], scope).value.score <= best.value.score
             && (j < i ==> Offer(lib, m, rules[j], scope).value.score < best.value.score)
  {
    var cs := Eligible(Scoper(lib), rules);
    var ms := Matches(Matcher(lib, ExtractParts(lib, m)), cs, scope);
    var idx := EligibleIndices(Scoper(lib), rules);
    var offers := Offers(lib, m, rules, scope);
    i := FirstMaxOfSome(offers, idx, ms);
    assert forall j :: 0 <= j < |rules| ==> offers[j] == Offer(lib, m, rules[j], scope);
  }

  /** One of two rules that take part goes before the other: user-specific before global, the higher score, the
      earlier in the list. */
  predicate GoesBefore(i: nat, scope: Scope, score: int, j: nat, otherScope: Scope, otherScore: int) {
    if scope != otherScope then scope == UserSpecific
    else score > otherScore || (score == otherScore && i <= j)
  }

  ghost predicate Leads(lib: Lib, m: Message, rules: seq<Rule>, i: nat, scope: Scope, op: Op) {
    && i < |rules| && Considered(lib, m, rules[i], scope, op)
    && forall j: nat, sc, o :: j < |rules| && Considered(lib, m, rules[j], sc, o) ==>
         GoesBefore(i, scope, ScoreOf(rules[i], op), j, sc, ScoreOf(rules[j], o))
  }

  /** A score in its band of confidence. */
  function Band(score: int): real {
    if score >= 200_000 then 0.98 else if score >= 120_000 then 0.94 else 0.9
  }

  lemma BestLeads(lib: Lib, m: Message, rules: seq<Rule>, scope: Scope, i: nat) returns (op: Op)
    requires i < |rules| && Offer(lib, m, rules[i], scope).Some?
    requires forall j :: 0 <= j < |rules| && Offer(lib, m, rules[j], scope).Some? ==>
      && Offer(lib, m, rules[j], scope).value.score <= Offer(lib, m, rules[i], scope).value.score
      && (j < i ==> Offer(lib, m, rules[j], scope).value.score < Offer(lib, m, rules[i], scope).value.score)
    requires scope == Global ==> forall j :: 0 <= j < |rules| ==> Offer(lib, m, rules[j], UserSpecific).None?
    ensures Leads(lib, m, rules, i, scope, op)
    ensures var score := ScoreOf(rules[i], op);
      Offer(lib, m, rules[i], scope).value ==
        Match(rules[i].targetLabel, score, Matched(scope, rules[i].ruleType, op, rules[i].ruleValue, score))
  {
    op := OfferSome(lib, m, rules[i], scope);
    OfferExactly(lib, m, rules[i], scope, op);
    forall j: nat, sc, o | j < |rules| && Considered(lib, m, rules[j], sc, o)
      ensures GoesBefore(i, scope, ScoreOf(rules[i], op), j, sc, ScoreOf(rules[j], o))
    {
      OfferExactly(lib, m, rules[j], sc, o);
    }
  }

  lemma NoneConsidered(lib: Lib, m: Message, rules: seq<Rule>)
    requires forall scope, j :: 0 <= j < |rules| ==> Offer(lib, m, rules[j], scope).None?
    ensures forall scope, op, j :: 0 <= j < |rules| ==> !Considered(lib, m, rules[j], scope, op)
  {
    forall scope, op, j | 0 <= j < |rules| ensures !Considered(lib, m, rules[j], scope, op) {
      OfferExactly(lib, m, rules[j], scope, op);
    }
  }

  /** Classification of a message with any list of rules: the leading rule answers, with its label, the band of
      its score, and itself as the reason; without one the answer is Unknown. */
  lemma ClassifyExactly(lib: Lib, m: Message, rules: seq<Rule>) returns (i: nat, scope: Scope, op: Op)
    ensures var r := ClassificationOf(lib, m, rules);
      if forall s, o, j :: 0 <= j < |rules| ==> !Considered(lib, m, rules[j], s, o)
      then r == Classification("Unknown", 0.5, NoMatchingRule)
      else
        && Leads(lib, m, rules, i, scope, op)
        && var score := ScoreOf(rules[i], op);
           r == Classification(rules[i].targetLabel, Band(score),
                               Matched(scope, rules[i].ruleType, op, rules[i].ruleValue, score))
  {
    var a := BestOfRules(lib, m, rules, UserSpecific);
    var b := BestOfRules(lib, m, rules, Global);
    var parts, cs := ExtractParts(lib, m), Eligible(Scoper(lib), rules);
    i, scope, op := 0, Global, ContainsOp;
    if Best(lib, parts, cs, UserSpecific).Some? {
      i, scope := a, UserSpecific;
      op := BestLeads(lib, m, rules, scope, i);
    } else if Best(lib, parts, cs, Global).Some? {
      i := b;
      op := BestLeads(lib, m, rules, scope, i);
    } else {
      forall s: Scope, j | 0 <= j < |rules| ensures Offer(lib, m, rules[j], s).None? {
        match s { case UserSpecific => case Global => }
      }
      NoneConsidered(lib, m, rules);
    }
  }

  /** Where the 64 bits suffice the score is what it seems to be. */
  lemma ScoreInNumbers(rule: Rule, op: Op)
    requires 0 <= rule.priority < 0x8000_0000
    ensures ScoreOf(rule, op) - rule.priority * 1000 ==
      (if op == EqualsOp then 20 else 0) +
      match rule.ruleType
      case SenderEmail => 50
      case SenderDomain => 40
      case Subject => 30
      case Body => 20
      case Any => 10
      case OtherType(_) => 0
  {
  }
}
