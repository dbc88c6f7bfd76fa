/** What no longer occurs in an optimized plan: nothing is left that any of the rules would rewrite. */
module OptimizerNormalForm {
  import opened Types
  import opened Expressions
  import opened RowOperators
  import opened Plans
  import opened Optimizer
  import opened OptimizerProofs

  /** Filters have the types of their children, as in every well-formed plan. */
  predicate FiltersKeepTypes(p: Plan) {
    match p
    case Leaf(_, _) => true
    case Unary(_, op, child) => FiltersKeepTypes(child) && (op.Filter? ==> p.Types() == child.Types())
    case Join(_, _, left, right) => FiltersKeepTypes(left) && FiltersKeepTypes(right)
  }

  lemma {:induction false} WellFormedFilters(db: Database, p: Plan)
    requires WellFormed(db, p)
    ensures FiltersKeepTypes(p)
  {
    match p
    case Leaf(_, _) =>
    case Unary(_, _, child) => WellFormedFilters(db, child);
    case Join(_, _, left, right) =>
      WellFormedFilters(db, left);
      WellFormedFilters(db, right);
  }

  predicate SameTypes(q: Plan, p: Plan) {
    FiltersKeepTypes(q) && q.Types() == p.Types()
  }

  lemma AtRootKeepsTypes(rule: Rule, p: Plan)
    requires FiltersKeepTypes(p) && AtRoot(rule, p).Some?
    ensures SameTypes(AtRoot(rule, p).value, p)
  {
  }

  lemma {:induction false} RuleKeepsTypes(rule: Rule, p: Plan)
    requires FiltersKeepTypes(p) && Optimize(rule, p).Some?
    ensures SameTypes(Optimize(rule, p).value, p)
  {
    match p
    case Leaf(_, _) => AtRootKeepsTypes(rule, p);
    case Unary(_, _, child) =>
      RuleKeepsTypes(rule, child);
      AtRootKeepsTypes(rule, p.(child := Optimize(rule, child).value));
    case Join(_, _, left, right) =>
      RuleKeepsTypes(rule, left);
      RuleKeepsTypes(rule, right);
      AtRootKeepsTypes(rule, p.(left := Optimize(rule, left).value, right := Optimize(rule, right).value));
  }

  function Position(rule: Rule): nat {
    match rule
    case MergeProjection => 0
    case MergeFilterScan => 1
    case MergeFilterNLJ => 2
    case FalseFilter => 3
    case NLJAsHashJoin => 4
    case SortLimitAsTopN => 5
  }

  predicate IsBareScan(p: Plan) {
    p.Leaf? && p.leafOp.SeqScan? && p.leafOp.filterPredicate.None?
  }

  /** What the rule looks for below a node is not at the root of an optimized plan unless it was before. */
  predicate NothingAppeared(rule: Rule, before: Plan, after: Plan) {
    match rule
    case MergeProjection => after.Types() == before.Types()
    case MergeFilterScan => IsBareScan(after) ==> IsBareScan(before)
    case MergeFilterNLJ => IsTrueJoin(after) ==> IsTrueJoin(before)
    case _ => true
  }

  lemma AtRootBringsNothingBack(rule: Rule, later: Rule, p: Plan)
    requires Position(rule) < Position(later) && FiltersKeepTypes(p) && AtRoot(later, p).Some? && NoMatch(rule, p)
    ensures NoMatch(rule, AtRoot(later, p).value) && NothingAppeared(rule, p, AtRoot(later, p).value)
  {
    AtRootKeepsTypes(later, p);
  }

  /** A rule that has passed over a plan finds nothing in it after any later rule has. */
  lemma {:induction false} NothingComesBack(rule: Rule, later: Rule, p: Plan)
    requires Position(rule) < Position(later) && FiltersKeepTypes(p) && NoMatch(rule, p)
    requires Optimize(later, p).Some?
    ensures NoMatch(rule, Optimize(later, p).value) && NothingAppeared(rule, p, Optimize(later, p).value)
    decreases p
  {
    match p
    case Leaf(_, _) => AtRootBringsNothingBack(rule, later, p);
    case Unary(_, _, child) =>
      NothingComesBack(rule, later, child);
      RuleKeepsTypes(later, child);
      AtRootBringsNothingBack(rule, later, p.(child := Optimize(later, child).value));
    case Join(_, _, left, right) =>
      NothingComesBack(rule, later, left);
      NothingComesBack(rule, later, right);
      RuleKeepsTypes(later, left);
      RuleKeepsTypes(later, right);
      AtRootBringsNothingBack(rule, later,
                              p.(left := Optimize(later, left).value, right := Optimize(later, right).value));
  }

  predicate AllLater(rules: seq<Rule>, rule: Rule) {
    forall r :: r in rules ==> Position(rule) < Position(r)
  }

  lemma {:induction false} NothingComesBackAtAll(rule: Rule, rules: seq<Rule>, p: Plan)
    requires AllLater(rules, rule) && FiltersKeepTypes(p) && NoMatch(rule, p) && OptimizeAll(rules, p).Some?
    ensures NoMatch(rule, OptimizeAll(rules, p).value)
  {
    if rules != [] {
      RuleKeepsTypes(rules[0], p);
      NothingComesBack(rule, rules[0], p);
      NothingComesBackAtAll(rule, rules[1..], Optimize(rules[0], p).value);
    }
  }

  predicate InOrder(rules: seq<Rule>) {
    forall i, j :: 0 <= i < j < |rules| ==> Position(rules[i]) < Position(rules[j])
  }

  lemma {:induction false} RulesLeaveNoMatch(rules: seq<Rule>, p: Plan, i: nat)
    requires InOrder(rules) && i < |rules| && FiltersKeepTypes(p) && OptimizeAll(rules, p).Some?
    ensures NoMatch(rules[i], OptimizeAll(rules, p).value)
  {
    var q := Optimize(rules[0], p).value;
    RuleKeepsTypes(rules[0], p);
    if i == 0 {
      RuleLeavesNoMatch(rules[0], p);
      NothingComesBackAtAll(rules[0], rules[1..], q);
    } else {
      RulesLeaveNoMatch(rules[1..], q, i - 1);
    }
  }

  /**
   * Nothing is left to rewrite in an optimized plan: no identity projection, no filter over a bare scan or a
   * join on true, no filter that never holds, no nested loop join on an equality of columns, no limit over a sort.
   */
  lemma OptimizedIsNormal(p: Plan, rule: Rule)
    requires FiltersKeepTypes(p) && OptimizeCustom(p).Some?
    ensures NoMatch(rule, OptimizeCustom(p).value)
  {
    assert CUSTOM_RULES[Position(rule)] == rule;
    RulesLeaveNoMatch(CUSTOM_RULES, p, Position(rule));
  }

  // ----- The tests on constants -----

  /** The first test holds of exactly the constants true and NULL, and throws for exactly those of other types. */
  lemma TrueTestIff(e: Expression)
    requires Typed(e, [], [])
    ensures IsPredicateTrue(e) == Some(true) <==> e == Constant(Bool(true)) || e == Constant(Null(BOOLEAN))
    ensures IsPredicateTrue(e) == None <==> e.Constant? && IsInteger(e.val.TypeOf())
  {
    if e.Constant? {
      GetAsBoolVersusIsTrue(e.val);
    }
  }

  predicate FitsInteger(v: Value) {
    IsInteger(v.TypeOf()) && (v.IsNull() || -0x8000_0000 < v.Raw() < 0x8000_0000)
  }

  /**
   * The second test, on an equality of two constants: it throws exactly if one of them is no number that fits
   * INTEGER; else it holds exactly if the equality passes no row, unless both are NULL.
   */
  lemma FalseTestIff(l: Value, r: Value, row: Row)
    requires l.HasType(l.TypeOf()) && r.HasType(r.TypeOf())
    ensures var e := Binary(Comparison(Equal), Constant(l), Constant(r));
            && (IsPredicateFalse(e) == None <==> !FitsInteger(l) || !FitsInteger(r))
            && (FitsInteger(l) && FitsInteger(r) ==>
                  (IsPredicateFalse(e) == Some(true) <==> !Passes(e.Evaluate(row)) && !(l.IsNull() && r.IsNull())))
  {
    var e := Binary(Comparison(Equal), Constant(l), Constant(r));
    assert e.Evaluate(row) == Comparison(Equal).Apply(l, r);
  }

  /** The projection that hands through all columns is recognised, under whatever names. */
  lemma IdentityIsMerged(schema: Schema, child: Plan)
    requires TypesOf(schema) == child.Types()
    ensures var types := child.Types();
            var columns := seq(|types|, i requires 0 <= i < |types| => ColumnValue(0, i, types[i]));
            AtRoot(MergeProjection, Unary(schema, Projection(columns), child)) == Some(child.(schema := schema))
  {
  }

  /** An equality of a left and a right column is hashed on these columns, whichever side it is written on. */
  lemma EquiJoinIsHashed(schema: Schema, on: EquiJoin, joinType: JoinType, left: Plan, right: Plan)
    ensures AtRoot(NLJAsHashJoin, Join(schema, NestedLoopJoin(on.Predicate(), joinType), left, right))
         == Some(Join(schema, HashJoin(ColumnValue(0, on.a, on.aType), ColumnValue(0, on.b, on.bType), joinType),
                      left, right))
  {
  }
}
