/** Rules as the classifier sees them, and as the user_rules table stores them. */
module Rules {
  import opened Common

  /** The rule_type column, compared as written; any other text is an unknown type. */
  datatype RuleType = SenderEmail | SenderDomain | Subject | Body | Any | OtherType(text: string)

  const EQUALS := "equals"
  const CONTAINS := "contains"

  const GLOBAL := "global"
  const USER_SPECIFIC := "user_specific"

  /** The range of the INTEGER column that holds a stored priority. */
  type Int32 = x: int | -0x8000_0000 <= x < 0x8000_0000

  /** Go's int arithmetic on 64 bits. */
  function Wrap64(x: int): (r: int)
    ensures -0x8000_0000_0000_0000 <= r < 0x8000_0000_0000_0000 && (x - r) % 0x1_0000_0000_0000_0000 == 0
    ensures -0x8000_0000_0000_0000 <= x < 0x8000_0000_0000_0000 ==> r == x
  {
    (x + 0x8000_0000_0000_0000) % 0x1_0000_0000_0000_0000 - 0x8000_0000_0000_0000
  }

  datatype Rule = Rule(
    ruleType: RuleType, operator: string, ruleValue: string, targetLabel: string,
    enabled: bool, priority: int, scope: string)

  /** A stored rule; `userId` is None for a Global Rule. */
  datatype UserRule = UserRule(
    id: int, userId: Option<string>, ruleType: RuleType, operator: string,
    ruleValue: string, targetLabel: string, enabled: bool, priority: Int32)

  function RuleScope(rule: UserRule): string {
    if rule.userId.None? then GLOBAL else USER_SPECIFIC
  }

  function ToRule(rule: UserRule): Rule {
    Rule(rule.ruleType, rule.operator, rule.ruleValue, rule.targetLabel,
         rule.enabled, rule.priority, RuleScope(rule))
  }

  function ToRules(rules: seq<UserRule>): (r: seq<Rule>)
    ensures |r| == |rules| && forall i :: 0 <= i < |rules| ==> r[i] == ToRule(rules[i])
  {
    if rules == [] then [] else [ToRule(rules[0])] + ToRules(rules[1..])
  }

  method ToClassificationRules(rules: seq<UserRule>) returns (result: seq<Rule>)
    ensures |result| == |rules|
    ensures forall i :: 0 <= i < |rules| ==>
      && result[i].ruleType == rules[i].ruleType && result[i].operator == rules[i].operator
      && result[i].ruleValue == rules[i].ruleValue && result[i].targetLabel == rules[i].targetLabel
      && result[i].enabled == rules[i].enabled && result[i].priority == rules[i].priority
      && result[i].scope == if rules[i].userId.Some? then "user_specific" else "global"
    ensures result == ToRules(rules)
  {
    result := [];
    for i := 0 to |rules|
      invariant |result| == i && forall j :: 0 <= j < i ==> result[j] == ToRule(rules[j])
    {
      result := result + [ToRule(rules[i])];
    }
  }

  predicate Applicable(user: string, rule: UserRule) {
    (rule.userId == Some(user) || rule.userId == None) && rule.enabled
  }

  /** The order of the query: user-specific first, then priority descending, then id ascending. */
  predicate Ordered(a: UserRule, b: UserRule) {
    if a.userId.None? != b.userId.None? then a.userId.Some?
    else if a.priority != b.priority then a.priority > b.priority
    else a.id <= b.id
  }

  function Insert(rule: UserRule, sorted: seq<UserRule>): (r: seq<UserRule>)
    ensures multiset(r) == multiset(sorted) + multiset{rule}
  {
    if sorted == [] || Ordered(rule, sorted[0]) then
      [rule] + sorted
    else
      assert sorted == [sorted[0]] + sorted[1..];
      [sorted[0]] + Insert(rule, sorted[1..])
  }

  /** The rows the query returns for a user, in its order. */
  function Select(table: seq<UserRule>, user: string): seq<UserRule> {
    if table == [] then []
    else
      var rest := Select(table[1..], user);
      if Applicable(user, table[0]) then Insert(table[0], rest) else rest
  }

  ghost predicate Sorted(q: seq<UserRule>) {
    forall i, j :: 0 <= i < j < |q| ==> Ordered(q[i], q[j])
  }

  ghost predicate UniqueIds(table: seq<UserRule>) {
    forall i, j :: 0 <= i < j < |table| ==> table[i].id != table[j].id
  }

  lemma {:induction false} InsertSorted(rule: UserRule, sorted: seq<UserRule>)
    requires Sorted(sorted)
    ensures Sorted(Insert(rule, sorted))
  {
    if sorted != [] && !Ordered(rule, sorted[0]) {
      var tail := Insert(rule, sorted[1..]);
      InsertSorted(rule, sorted[1..]);
      forall j | 0 <= j < |tail| ensures Ordered(sorted[0], tail[j]) {
        assert tail[j] in multiset(tail);
        assert tail[j] == rule || tail[j] in sorted[1..];
      }
    }
  }

  /** The query returns exactly the enabled rows of the user and the global ones, user-specific rows first, higher
      priorities before lower ones, and among equals the older first. */
  lemma {:induction false} SelectSpec(table: seq<UserRule>, user: string)
    ensures Sorted(Select(table, user))
    ensures forall r :: r in Select(table, user) <==> r in table && Applicable(user, r)
    ensures forall r :: r in Select(table, user) <==>
      r in table && r.enabled && (r.userId == None || r.userId == Some(user))
    ensures forall i, j :: 0 <= i < j < |Select(table, user)| ==>
      var a, b := Select(table, user)[i], Select(table, user)[j];
      && (b.userId.Some? ==> a.userId.Some?)
      && (a.userId.None? == b.userId.None? ==> a.priority >= b.priority)
      && (a.userId.None? == b.userId.None? && a.priority == b.priority ==> a.id <= b.id)
  {
    if table != [] {
      SelectSpec(table[1..], user);
      var rest := Select(table[1..], user);
      assert table == [table[0]] + table[1..];
      if Applicable(user, table[0]) {
        InsertSorted(table[0], rest);
        var all := Insert(table[0], rest);
        forall r ensures r in all <==> r in rest || r == table[0] {
          assert r in all <==> r in multiset(all);
          assert r in rest <==> r in multiset(rest);
        }
      }
    }
  }

  /** How often a rule is in the answer for a user: as often as in the table when it applies, else never. */
  function Times(table: seq<UserRule>, user: string, rule: UserRule): nat {
    if Applicable(user, rule) then multiset(table)[rule] else 0
  }

  lemma {:induction false} SelectCounts(table: seq<UserRule>, user: string, rule: UserRule)
    ensures multiset(Select(table, user))[rule] == Times(table, user, rule)
  {
    if table != [] {
      SelectCounts(table[1..], user, rule);
      assert table == [table[0]] + table[1..];
    }
  }

  lemma TakeFirst(q: seq<UserRule>)
    requires q != []
    ensures q == [q[0]] + q[1..] && multiset(q[1..]) == multiset(q) - multiset{q[0]}
    ensures Sorted(q) ==> Sorted(q[1..])
    ensures forall r :: r in q[1..] ==> r in q
  {
    assert q == [q[0]] + q[1..];
  }

  lemma SameFirst(table: seq<UserRule>, p: seq<UserRule>, q: seq<UserRule>)
    requires UniqueIds(table) && Sorted(p) && Sorted(q) && multiset(p) == multiset(q) && p != [] && q != []
    requires forall r :: r in p ==> r in table
    ensures p[0] == q[0]
  {
    assert p[0] in multiset(p) && q[0] in multiset(q);
    var i :| 0 <= i < |q| && q[i] == p[0];
    var j :| 0 <= j < |p| && p[j] == q[0];
    if i > 0 && j > 0 {
      assert Ordered(q[0], q[i]) && Ordered(p[0], p[j]);
      assert p[0] in p && p[j] in p;
      var a :| 0 <= a < |table| && table[a] == p[0];
      var b :| 0 <= b < |table| && table[b] == p[j];
      assert table[a].id == table[b].id;
    }
  }

  /** Rules of a table with distinct ids can be sorted in one way only. */
  lemma {:induction false} SortedIsUnique(table: seq<UserRule>, p: seq<UserRule>, q: seq<UserRule>)
    requires UniqueIds(table) && Sorted(p) && Sorted(q) && multiset(p) == multiset(q)
    requires forall r :: r in p ==> r in table
    ensures p == q
  {
    assert |multiset(p)| == |p| && |multiset(q)| == |q|;
    if p == [] || q == [] {
    } else {
      SameFirst(table, p, q);
      TakeFirst(p);
      TakeFirst(q);
      SortedIsUnique(table, p[1..], q[1..]);
    }
  }

  /** The clauses of the query leave one answer: a sorted sequence that holds every rule as often as they say
      is the answer. */
  lemma OnlyAnswer(table: seq<UserRule>, user: string, q: seq<UserRule>)
    requires UniqueIds(table) && Sorted(q)
    requires forall r :: multiset(q)[r] == Times(table, user, r)
    ensures q == Select(table, user)
  {
    SelectSpec(table, user);
    forall r ensures multiset(q)[r] == multiset(Select(table, user))[r] { SelectCounts(table, user, r); }
    assert multiset(q) == multiset(Select(table, user));
    SortedIsUnique(table, Select(table, user), q);
  }

  // ----- the query and its rows -------------------------------------------------------

  /** A nullable text column. */
  datatype NullString = NullString(text: string, valid: bool)

  /** A row of the answer, with its columns as they are scanned. */
  datatype RuleRow = RuleRow(
    id: int, userId: NullString, ruleType: RuleType, operator: string,
    ruleValue: string, targetLabel: string, enabled: bool, priority: Int32)

  function Column(userId: Option<string>): NullString {
    match userId
    case None => NullString("", false)
    case Some(text) => NullString(text, true)
  }

  function RowOf(rule: UserRule): RuleRow {
    RuleRow(rule.id, Column(rule.userId), rule.ruleType, rule.operator, rule.ruleValue, rule.targetLabel,
            rule.enabled, rule.priority)
  }

  /** What the database answers. */
  function Query(table: seq<UserRule>, user: string): seq<RuleRow> {
    var q := Select(table, user);
    seq(|q|, i requires 0 <= i < |q| => RowOf(q[i]))
  }

  /** The enabled rules of the user and the global ones, each exactly once, the user's own first, then by
      priority and age. */
  method ListEnabledUserRules(table: seq<UserRule>, user: string) returns (result: seq<UserRule>)
    ensures Sorted(result)
    ensures forall r :: multiset(result)[r] == Times(table, user, r)
    ensures result == Select(table, user)
  {
    var rows := Query(table, user);
    result := [];
    for i := 0 to |rows|
      invariant |result| == i && forall j :: 0 <= j < i ==> result[j] == Select(table, user)[j]
    {
      var row := rows[i];
      var rule := UserRule(row.id, None, row.ruleType, row.operator, row.ruleValue, row.targetLabel, row.enabled,
                           row.priority);
      if row.userId.valid { rule := rule.(userId := Some(row.userId.text)); }
      result := result + [rule];
    }
    assert result == Select(table, user);
    SelectSpec(table, user);
    forall r ensures multiset(result)[r] == Times(table, user, r) { SelectCounts(table, user, r); }
  }
}
