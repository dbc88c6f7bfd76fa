/** The optimizer loses failures of a plan only by dropping filters that never hold. */
module OptimizerExactness {
  import opened Types
  import opened Plans
  import opened Optimizer
  import opened OptimizerProofs

  /** No filter of the plan is one that FalseFilter would drop. */
  predicate NothingToDrop(p: Plan) {
    match p
    case Leaf(_, _) => true
    case Unary(_, op, child) => NothingToDrop(child) && (op.Filter? ==> IsPredicateFalse(op.pred) != Some(true))
    case Join(_, _, left, right) => NothingToDrop(left) && NothingToDrop(right)
  }

  lemma AtRootAddsNothingToDrop(rule: Rule, p: Plan)
    requires NothingToDrop(p) && AtRoot(rule, p).Some?
    ensures NothingToDrop(AtRoot(rule, p).value)
    ensures rule == FalseFilter ==> AtRoot(rule, p).value == p
  {
  }

  lemma {:induction false} RuleAddsNothingToDrop(rule: Rule, p: Plan)
    requires NothingToDrop(p) && Optimize(rule, p).Some?
    ensures NothingToDrop(Optimize(rule, p).value)
    ensures rule == FalseFilter ==> Optimize(rule, p).value == p
  {
    match p
    case Leaf(_, _) => AtRootAddsNothingToDrop(rule, p);
    case Unary(_, _, child) =>
      RuleAddsNothingToDrop(rule, child);
      AtRootAddsNothingToDrop(rule, p.(child := Optimize(rule, child).value));
    case Join(_, _, left, right) =>
      RuleAddsNothingToDrop(rule, left);
      RuleAddsNothingToDrop(rule, right);
      AtRootAddsNothingToDrop(rule, p.(left := Optimize(rule, left).value, right := Optimize(rule, right).value));
  }

  lemma EquivalentTransitive(db: Database, r: Plan, q: Plan, p: Plan)
    requires Equivalent(db, r, q) && Equivalent(db, q, p)
    ensures Equivalent(db, r, p)
  {
  }

  lemma {:induction false} RulesAreExact(rules: seq<Rule>, db: Database, p: Plan)
    requires WellFormed(db, p) && TablesTyped(db) && RulesApply(db, p) && OptimizeAll(rules, p).Some?
    requires NothingToDrop(p)
    ensures Equivalent(db, OptimizeAll(rules, p).value, p)
  {
    if rules == [] {
      assert Equivalent(db, p, p);
    } else {
      var q := Optimize(rules[0], p).value;
      RuleAddsNothingToDrop(rules[0], p);
      RuleIsSound(rules[0], db, p);
      RulesAreExact(rules[1..], db, q);
      EquivalentTransitive(db, OptimizeAll(rules[1..], q).value, q, p);
    }
  }

  /** Without a filter to drop, the optimized plan ends in exactly the ways in which the original may end. */
  lemma OptimizerIsExact(db: Database, p: Plan)
    requires WellFormed(db, p) && TablesTyped(db) && RulesApply(db, p) && OptimizeCustom(p).Some?
    requires NothingToDrop(p)
    ensures forall out :: Allowed(db, OptimizeCustom(p).value, out) <==> Allowed(db, p, out)
  {
    RulesAreExact(CUSTOM_RULES, db, p);
  }
}
