/** The rule engine read through the query: one declarative choice, whatever the table order. */
module RuleChoice {
  import opened Common
  import opened Text
  import opened Rules
  import opened Classifier

  /** Classification of a message for a user with the rules of a table. */
  function Triage(lib: Lib, table: seq<UserRule>, user: string, m: Message): Classification {
    ClassificationOf(lib, m, ToRules(Select(table, user)))
  }

  function MatchOf(lib: Lib, m: Message, rule: UserRule): Option<Match> {
    MatchCandidate(lib, ExtractParts(lib, m), Stored(rule))
  }

  ghost predicate Fires(lib: Lib, user: string, m: Message, rule: UserRule) {
    Applicable(user, rule) && MatchOf(lib, m, rule).Some?
  }

  function Specificity(lib: Lib, rule: UserRule): int {
    match OpOf(lib, rule.operator)
    case Some(op) => SpecificityBonus(rule.ruleType, op)
    case None => 0
  }

  /** User-specific before global, then priority, then specificity, then age. */
  ghost predicate Beats(lib: Lib, a: UserRule, b: UserRule) {
    if a.userId.None? != b.userId.None? then a.userId.Some?
    else if a.priority != b.priority then a.priority > b.priority
    else if Specificity(lib, a) != Specificity(lib, b) then Specificity(lib, a) > Specificity(lib, b)
    else a.id < b.id
  }

  ghost predicate Wins(lib: Lib, table: seq<UserRule>, user: string, m: Message, w: UserRule) {
    && w in table && Fires(lib, user, m, w)
    && forall v :: v in table && v != w && Fires(lib, user, m, v) ==> Beats(lib, w, v)
  }

  /** The two accumulators at the end of the pass. */
  function BestOfTable(lib: Lib, table: seq<UserRule>, user: string, m: Message, scope: Scope): Option<Match> {
    Best(lib, ExtractParts(lib, m), Eligible(Scoper(lib), ToRules(Select(table, user))), scope)
  }

  lemma TriageDecides(lib: Lib, table: seq<UserRule>, user: string, m: Message)
    ensures Triage(lib, table, user, m)
         == Decide(BestOfTable(lib, table, user, m, UserSpecific), BestOfTable(lib, table, user, m, Global))
  {
  }

  lemma DecideOnOne(x: Match, g: Option<Match>)
    ensures Decide(Some(x), g) == Decide(Some(x), None) == Decide(None, Some(x))
  {
  }

  /** The answer a rule gives when it is the chosen one. */
  function Answer(lib: Lib, m: Message, w: UserRule): Classification
    requires MatchOf(lib, m, w).Some?
  {
    Decide(MatchOf(lib, m, w), None)
  }

  // ----- from stored rules to candidates -----------------------------------

  function ScopeOf(rule: UserRule): Scope {
    if rule.userId.None? then Global else UserSpecific
  }

  /** What a stored rule becomes in the classifier. */
  function Stored(rule: UserRule): Candidate {
    Candidate(ToRule(rule), ScopeOf(rule))
  }

  /** A scope written in plain letters is read as it stands. */
  lemma PlainScope(lib: Lib, scope: string)
    requires lib.Sane() && forall c :: c in scope ==> Plain(c)
    ensures scope == GLOBAL ==> NormalizeScope(lib, scope) == Some(Global)
    ensures scope == USER_SPECIFIC ==> NormalizeScope(lib, scope) == Some(UserSpecific)
  {
    NormalizePlain(lib, scope);
  }

  lemma ScopesArePlain()
    ensures forall c :: c in GLOBAL ==> Plain(c)
    ensures forall c :: c in USER_SPECIFIC ==> Plain(c)
  {
  }

  lemma StoredScope(lib: Lib, rule: UserRule)
    requires lib.Sane()
    ensures Scoper(lib)(ToRule(rule).scope) == Some(ScopeOf(rule))
  {
    ScopesArePlain();
    PlainScope(lib, RuleScope(rule));
  }

  lemma {:induction false} AllEligible(scopeOf: string -> Option<Scope>, rules: seq<Rule>, scopes: seq<Scope>)
    requires |rules| == |scopes|
    requires forall i :: 0 <= i < |rules| ==> rules[i].enabled && scopeOf(rules[i].scope) == Some(scopes[i])
    ensures |Eligible(scopeOf, rules)| == |rules|
    ensures forall i :: 0 <= i < |rules| ==> Eligible(scopeOf, rules)[i] == Candidate(rules[i], scopes[i])
  {
    if rules != [] {
      var n := |rules| - 1;
      AllEligible(scopeOf, rules[..n], scopes[..n]);
    }
  }

  lemma CandidatesOfStored(lib: Lib, q: seq<UserRule>)
    requires lib.Sane() && forall v :: v in q ==> v.enabled
    ensures |Eligible(Scoper(lib), ToRules(q))| == |q|
    ensures forall i :: 0 <= i < |q| ==> Eligible(Scoper(lib), ToRules(q))[i] == Stored(q[i])
  {
    var scopes := seq(|q|, i requires 0 <= i < |q| => ScopeOf(q[i]));
    forall i | 0 <= i < |q| ensures Scoper(lib)(ToRules(q)[i].scope) == Some(scopes[i]) {
      StoredScope(lib, q[i]);
    }
    AllEligible(Scoper(lib), ToRules(q), scopes);
  }

  lemma ScoreFits(priority: Int32, bonus: int)
    requires priority >= 0 && 10 <= bonus <= 70
    ensures ScoreRule(priority, bonus) == priority * 1000 + bonus
  {
  }

  /** A stored priority leaves room in 64 bits: the score of a match is exact, and its
      specificity never reaches the next priority. */
  lemma ScoreExact(lib: Lib, m: Message, rule: UserRule)
    requires MatchOf(lib, m, rule).Some?
    ensures MatchOf(lib, m, rule).value.score == rule.priority * 1000 + Specificity(lib, rule)
    ensures rule.priority >= 0 && 10 <= Specificity(lib, rule) <= 70
  {
    ScoreFits(rule.priority, Specificity(lib, rule));
  }

  /** What each row of the query result contributes to a scope. */
  ghost predicate Contributions(lib: Lib, q: seq<UserRule>, m: Message, scope: Scope, ms: seq<Option<Match>>) {
    && |ms| == |q|
    && forall j :: 0 <= j < |q| ==> ms[j] == if ScopeOf(q[j]) == scope then MatchOf(lib, m, q[j]) else None
  }

  /** The two accumulators, seen from the query result. */
  lemma BestOfStored(lib: Lib, q: seq<UserRule>, m: Message, scope: Scope) returns (ms: seq<Option<Match>>)
    requires lib.Sane() && forall v :: v in q ==> v.enabled
    ensures Contributions(lib, q, m, scope, ms)
    ensures Best(lib, ExtractParts(lib, m), Eligible(Scoper(lib), ToRules(q)), scope) == FirstMax(ms)
  {
    var cs := Eligible(Scoper(lib), ToRules(q));
    CandidatesOfStored(lib, q);
    ms := Matches(Matcher(lib, ExtractParts(lib, m)), cs, scope);
  }

  /** Among sorted rows scored lexicographically, the first maximum is the row that beats all others. */
  lemma FirstMaxIsWinner(lib: Lib, q: seq<UserRule>, ms: seq<Option<Match>>, k: nat)
    requires Sorted(q) && |ms| == |q| && k < |q| && ms[k].Some?
    requires forall j :: 0 <= j < |q| && ms[j].Some? ==>
      && q[j].userId.None? == q[k].userId.None?
      && ms[j].value.score == q[j].priority * 1000 + Specificity(lib, q[j])
      && 10 <= Specificity(lib, q[j]) <= 70
      && (q[j] == q[k] ==> ms[j] == ms[k])
      && (q[j] != q[k] ==> Beats(lib, q[k], q[j]))
    ensures FirstMax(ms) == ms[k]
  {
    var i := FirstMaxSpec(ms);
  }

  // ----- the main theorem ---------------------------------------------------

  lemma NoBest(lib: Lib, q: seq<UserRule>, m: Message, scope: Scope)
    requires lib.Sane() && forall v :: v in q ==> v.enabled && (ScopeOf(v) == scope ==> MatchOf(lib, m, v).None?)
    ensures Best(lib, ExtractParts(lib, m), Eligible(Scoper(lib), ToRules(q)), scope).None?
  {
    var ms := BestOfStored(lib, q, m, scope);
    var u := FirstMaxSpec(ms);
  }

  lemma WinnerBeatsRow(lib: Lib, table: seq<UserRule>, user: string, m: Message, w: UserRule, v: UserRule)
    requires Wins(lib, table, user, m, w) && v in table && Applicable(user, v) && MatchOf(lib, m, v).Some?
    ensures MatchOf(lib, m, v).value.score == v.priority * 1000 + Specificity(lib, v)
    ensures 10 <= Specificity(lib, v) <= 70
    ensures v != w ==> Beats(lib, w, v)
  {
    ScoreExact(lib, m, v);
  }

  lemma WinnerBeatsContribution(lib: Lib, table: seq<UserRule>, user: string, m: Message, w: UserRule,
                                ms: seq<Option<Match>>, j: nat)
    requires Wins(lib, table, user, m, w)
    requires Contributions(lib, Select(table, user), m, ScopeOf(w), ms)
    requires j < |ms| && ms[j].Some?
    ensures var v := Select(table, user)[j];
      && v.userId.None? == w.userId.None?
      && ms[j].value.score == v.priority * 1000 + Specificity(lib, v)
      && 10 <= Specificity(lib, v) <= 70
      && (v == w ==> ms[j] == MatchOf(lib, m, w))
      && (v != w ==> Beats(lib, w, v))
  {
    SelectSpec(table, user);
    var v := Select(table, user)[j];
    assert v in Select(table, user);
    WinnerBeatsRow(lib, table, user, m, w, v);
  }

  lemma WinnerIsBest(lib: Lib, table: seq<UserRule>, user: string, m: Message, w: UserRule)
    requires lib.Sane() && Wins(lib, table, user, m, w)
    ensures Best(lib, ExtractParts(lib, m), Eligible(Scoper(lib), ToRules(Select(table, user))), ScopeOf(w))
         == MatchOf(lib, m, w)
  {
    var q := Select(table, user);
    SelectSpec(table, user);
    var ms := BestOfStored(lib, q, m, ScopeOf(w));
    var k :| 0 <= k < |q| && q[k] == w;
    assert ms[k] == MatchOf(lib, m, w);
    WinnerIsFirstMax(lib, table, user, m, w, ms, k);
  }

  lemma WinnerIsFirstMax(lib: Lib, table: seq<UserRule>, user: string, m: Message, w: UserRule,
                         ms: seq<Option<Match>>, k: nat)
    requires Wins(lib, table, user, m, w)
    requires Contributions(lib, Select(table, user), m, ScopeOf(w), ms)
    requires k < |ms| && Select(table, user)[k] == w && ms[k].Some?
    ensures FirstMax(ms) == ms[k]
  {
    var q := Select(table, user);
    SelectSpec(table, user);
    WinnerBeatsContribution(lib, table, user, m, w, ms, k);
    forall j | 0 <= j < |ms| && ms[j].Some?
      ensures ms[j].value.score == q[j].priority * 1000 + Specificity(lib, q[j])
      ensures 10 <= Specificity(lib, q[j]) <= 70 && q[j].userId.None? == q[k].userId.None?
      ensures q[j] == q[k] ==> ms[j] == ms[k]
      ensures q[j] != q[k] ==> Beats(lib, q[k], q[j])
    {
      WinnerBeatsContribution(lib, table, user, m, w, ms, j);
    }
    FirstMaxIsWinner(lib, q, ms, k);
  }

  /** The choice: the winning rule answers, and it wins for every order of the table. */
  lemma WinnerAnswers(lib: Lib, table: seq<UserRule>, user: string, m: Message, w: UserRule)
    requires lib.Sane() && UniqueIds(table) && Wins(lib, table, user, m, w)
    ensures Triage(lib, table, user, m) == Answer(lib, m, w)
  {
    TriageDecides(lib, table, user, m);
    DecideOnOne(MatchOf(lib, m, w).value, BestOfTable(lib, table, user, m, Global));
    WinnerIsBest(lib, table, user, m, w);
    if w.userId.None? {
      SelectSpec(table, user);
      NoBest(lib, Select(table, user), m, UserSpecific);
    }
  }

  /** A score tells the band of its priority, whatever the specificity. */
  lemma ConfidenceBand(priority: int, bonus: int)
    requires priority >= 0 && 10 <= bonus <= 70
    ensures var confidence := ConfidenceFromScore(priority * 1000 + bonus);
      && (confidence == 0.98 <==> priority >= 200)
      && (confidence == 0.94 <==> 120 <= priority < 200)
      && (confidence == 0.9 <==> priority < 120)
  {
  }

  lemma MatchExplained(lib: Lib, m: Message, w: UserRule)
    requires MatchOf(lib, m, w).Some?
    ensures OpOf(lib, w.operator).Some? && Trim(lib, w.targetLabel) != []
    ensures var score := w.priority * 1000 + Specificity(lib, w);
      MatchOf(lib, m, w).value ==
        Match(w.targetLabel, score, Matched(ScopeOf(w), w.ruleType, OpOf(lib, w.operator).value, w.ruleValue, score))
  {
    ScoreExact(lib, m, w);
  }

  /** What the answer says: the winner's label, its priority as a confidence band, and the winner itself as
      the audit reason, with a score that is exact. */
  lemma WinnerExplained(lib: Lib, table: seq<UserRule>, user: string, m: Message, w: UserRule)
    requires lib.Sane() && UniqueIds(table) && Wins(lib, table, user, m, w)
    ensures OpOf(lib, w.operator).Some?
    ensures var r := Triage(lib, table, user, m);
      && r.labelName == w.targetLabel && Trim(lib, r.labelName) != []
      && (r.confidence == 0.98 <==> w.priority >= 200)
      && (r.confidence == 0.94 <==> 120 <= w.priority < 200)
      && (r.confidence == 0.9 <==> w.priority < 120)
      && r.reason == Matched(ScopeOf(w), w.ruleType, OpOf(lib, w.operator).value, w.ruleValue,
                             w.priority * 1000 + Specificity(lib, w))
  {
    WinnerAnswers(lib, table, user, m, w);
    ScoreExact(lib, m, w);
    MatchExplained(lib, m, w);
    ConfidenceBand(w.priority, Specificity(lib, w));
  }

  lemma NoRuleFires(lib: Lib, table: seq<UserRule>, user: string, m: Message)
    requires lib.Sane() && forall v :: v in table ==> !Fires(lib, user, m, v)
    ensures Triage(lib, table, user, m) == Classification("Unknown", 0.5, NoMatchingRule)
  {
    var q := Select(table, user);
    SelectSpec(table, user);
    NoBest(lib, q, m, UserSpecific);
    NoBest(lib, q, m, Global);
  }

  lemma BeatsTransitive(lib: Lib, a: UserRule, b: UserRule, c: UserRule)
    requires Beats(lib, a, b) && Beats(lib, b, c)
    ensures Beats(lib, a, c)
  {
  }

  lemma {:induction false} SomeoneBeatsAll(lib: Lib, s: set<UserRule>) returns (w: UserRule)
    requires s != {} && forall a, b :: a in s && b in s && a != b ==> a.id != b.id
    ensures w in s && forall v :: v in s && v != w ==> Beats(lib, w, v)
    decreases |s|
  {
    var head :| head in s;
    w := head;
    if s != {head} {
      assert s - {head} != {};
      var best := SomeoneBeatsAll(lib, s - {head});
      if Beats(lib, head, best) {
        forall v | v in s && v != head && v != best ensures Beats(lib, head, v) {
          BeatsTransitive(lib, head, best, v);
        }
      } else {
        w := best;
      }
    }
  }

  /** A winner exists as soon as one rule fires. */
  lemma SomeRuleWins(lib: Lib, table: seq<UserRule>, user: string, m: Message) returns (w: UserRule)
    requires UniqueIds(table) && exists v :: v in table && Fires(lib, user, m, v)
    ensures Wins(lib, table, user, m, w)
  {
    var fired := set v | v in table && Fires(lib, user, m, v);
    forall a, b | a in fired && b in fired && a != b ensures a.id != b.id {
      var i :| 0 <= i < |table| && table[i] == a;
      var j :| 0 <= j < |table| && table[j] == b;
    }
    w := SomeoneBeatsAll(lib, fired);
  }

  // ----- consequences -------------------------------------------------------

  /** Two tables agree when the rules of one that the other lacks do not beat the winner:
      removing or adding losing rules changes nothing. */
  lemma LosersAreIrrelevant(lib: Lib, t1: seq<UserRule>, t2: seq<UserRule>, user: string, m: Message, w: UserRule)
    requires lib.Sane() && UniqueIds(t1) && UniqueIds(t2)
    requires Wins(lib, t1, user, m, w) && w in t2
    requires forall v :: v in t2 && v !in t1 && Fires(lib, user, m, v) ==> Beats(lib, w, v)
    ensures Triage(lib, t1, user, m) == Triage(lib, t2, user, m)
  {
    WinnerAnswers(lib, t1, user, m, w);
    WinnerAnswers(lib, t2, user, m, w);
  }

  /** Global rules do not matter to a message that a user-specific rule matches. */
  lemma GlobalsAreIrrelevant(lib: Lib, t1: seq<UserRule>, t2: seq<UserRule>, user: string, m: Message)
    requires lib.Sane() && UniqueIds(t1) && UniqueIds(t2)
    requires forall v: UserRule :: v.userId.Some? ==> (v in t1 <==> v in t2)
    requires exists v :: v in t1 && v.userId.Some? && Fires(lib, user, m, v)
    ensures Triage(lib, t1, user, m) == Triage(lib, t2, user, m)
  {
    var w := SomeRuleWins(lib, t1, user, m);
    LosersAreIrrelevant(lib, t1, t2, user, m, w);
  }

  /** The order of the table does not matter. */
  lemma TableOrderIsIrrelevant(lib: Lib, t1: seq<UserRule>, t2: seq<UserRule>, user: string, m: Message)
    requires lib.Sane() && UniqueIds(t1) && multiset(t1) == multiset(t2)
    ensures Triage(lib, t1, user, m) == Triage(lib, t2, user, m)
  {
    forall v ensures v in t1 <==> v in t2 {
      assert v in t1 <==> v in multiset(t1);
      assert v in t2 <==> v in multiset(t2);
    }
    UniqueIdsOfPermutation(t1, t2);
    if exists v :: v in t1 && Fires(lib, user, m, v) {
      var w := SomeRuleWins(lib, t1, user, m);
      LosersAreIrrelevant(lib, t1, t2, user, m, w);
    } else {
      NoRuleFires(lib, t1, user, m);
      NoRuleFires(lib, t2, user, m);
    }
  }

  lemma UniqueIdsOfPermutation(t1: seq<UserRule>, t2: seq<UserRule>)
    requires UniqueIds(t1) && multiset(t1) == multiset(t2)
    ensures UniqueIds(t2)
  {
    forall i, j | 0 <= i < j < |t2| ensures t2[i].id != t2[j].id {
      if t2[i] == t2[j] {
        TwoPlaces(t2, i, j);
        OnePlace(t1, t2[i]);
      } else {
        assert t2[i] in multiset(t2) && t2[j] in multiset(t2);
        var a :| 0 <= a < |t1| && t1[a] == t2[i];
        var b :| 0 <= b < |t1| && t1[b] == t2[j];
        assert t1[a].id != t1[b].id;
      }
    }
  }

  lemma TwoPlaces<T>(q: seq<T>, i: nat, j: nat)
    requires i < j < |q| && q[i] == q[j]
    ensures multiset(q)[q[i]] >= 2
  {
    assert q == q[..j] + q[j..];
    assert q[..j][i] == q[i] && q[j..][0] == q[i];
    assert q[i] in multiset(q[..j]) && q[i] in multiset(q[j..]);
  }

  lemma {:induction false} OnePlace(q: seq<UserRule>, x: UserRule)
    requires UniqueIds(q)
    ensures multiset(q)[x] <= 1
  {
    if q != [] {
      OnePlace(q[1..], x);
      assert q == [q[0]] + q[1..];
      assert forall k :: 0 <= k < |q[1..]| ==> q[1..][k] == q[k + 1];
      assert q[0] !in q[1..];
    }
  }

  /** The result depends on the message only through which rules it matches. */
  lemma OnlyMatchesMatter(lib: Lib, table: seq<UserRule>, user: string, m1: Message, m2: Message)
    requires lib.Sane() && UniqueIds(table)
    requires forall v :: v in table ==> (Fires(lib, user, m1, v) <==> Fires(lib, user, m2, v))
    ensures Triage(lib, table, user, m1) == Triage(lib, table, user, m2)
  {
    if exists v :: v in table && Fires(lib, user, m1, v) {
      var w := SomeRuleWins(lib, table, user, m1);
      assert Wins(lib, table, user, m2, w);
      WinnerAnswers(lib, table, user, m1, w);
      WinnerAnswers(lib, table, user, m2, w);
    } else {
      NoRuleFires(lib, table, user, m1);
      NoRuleFires(lib, table, user, m2);
    }
  }

  // ----- inclusions between matches -----------------------------------------

  /** A part that is not blank survives in the joined text. */
  lemma PartInAny(lib: Lib, before: string, part: string, after: string)
    requires Trim(lib, part) != []
    ensures Contains(Normalize(lib, before + part + after), Normalize(lib, part))
  {
    TrimInContext(lib, before, part, after);
    ContainsEach(lib.lower, Trim(lib, before + part + after), Trim(lib, part));
  }

  ghost predicate Hits(lib: Lib, m: Message, rule: Rule) {
    Hit(lib, ExtractParts(lib, m), rule).Some?
  }

  /** A contains-match on the subject or on the body is one on the whole text. */
  lemma PartMatchIsAnyMatch(lib: Lib, m: Message, rule: Rule)
    requires rule.ruleType == Subject || rule.ruleType == Body
    requires OpOf(lib, rule.operator) == Some(ContainsOp) && Hits(lib, m, rule)
    ensures Hits(lib, m, rule.(ruleType := Any))
  {
    AnyContainsParts(lib, m, Normalize(lib, rule.ruleValue));
  }

  lemma AnyContainsParts(lib: Lib, m: Message, needle: string)
    requires |needle| > 0
    ensures Contains(Normalize(lib, m.subject), needle) ==> Contains(ExtractParts(lib, m).any, needle)
    ensures Contains(Normalize(lib, m.bodySnippet), needle) ==> Contains(ExtractParts(lib, m).any, needle)
  {
    var any := m.from + " " + m.subject + " " + m.bodySnippet;
    if Contains(Normalize(lib, m.subject), needle) {
      PartInAny(lib, m.from + " ", m.subject, " " + m.bodySnippet);
      assert any == (m.from + " ") + m.subject + (" " + m.bodySnippet);
      ContainsTransitive(Normalize(lib, any), Normalize(lib, m.subject), needle);
    }
    if Contains(Normalize(lib, m.bodySnippet), needle) {
      PartInAny(lib, m.from + " " + m.subject + " ", m.bodySnippet, "");
      assert any == (m.from + " " + m.subject + " ") + m.bodySnippet + "";
      ContainsTransitive(Normalize(lib, any), Normalize(lib, m.bodySnippet), needle);
    }
  }

  /** A contains-match on the sender's domain is one on the sender's address. */
  lemma DomainMatchIsEmailMatch(lib: Lib, m: Message, rule: Rule)
    requires rule.ruleType == SenderDomain
    requires OpOf(lib, rule.operator) == Some(ContainsOp) && Hits(lib, m, rule)
    ensures Hits(lib, m, rule.(ruleType := SenderEmail))
  {
    EmailContainsDomain(ExtractSenderEmail(lib, m.from), Normalize(lib, rule.ruleValue));
  }

  lemma EmailContainsDomain(email: string, needle: string)
    requires |needle| > 0 && Contains(ExtractSenderDomain(email), needle)
    ensures Contains(email, needle)
  {
    var i := SplitLast(email, '@');
    assert OccursAt(email, ExtractSenderDomain(email), i);
    ContainsTransitive(email, ExtractSenderDomain(email), needle);
  }

  lemma ContainsIsAnOperator(lib: Lib)
    requires lib.Sane()
    ensures OpOf(lib, CONTAINS) == Some(ContainsOp)
  {
    NormalizePlain(lib, CONTAINS);
  }

  lemma SelfContained(s: string)
    ensures Contains(s, s)
  {
    assert OccursAt(s, s, 0);
  }

  /** An equals-match is also a contains-match. */
  lemma EqualsMatchIsContainsMatch(lib: Lib, m: Message, rule: Rule)
    requires lib.Sane() && OpOf(lib, rule.operator) == Some(EqualsOp) && Hits(lib, m, rule)
    ensures Hits(lib, m, rule.(operator := CONTAINS))
  {
    ContainsIsAnOperator(lib);
    SelfContained(Normalize(lib, rule.ruleValue));
  }
}
