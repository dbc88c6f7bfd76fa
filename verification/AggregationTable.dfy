/**
 * The aggregation hash table as a function of the rows inserted: one entry per distinct group key,
 * holding the running values of all aggregates over that group's rows.
 */
module AggregationTable {
  import opened Sequences
  import opened Types
  import opened Expressions
  import opened Aggregates

  /** AggregateKey::operator==: every pair of values compares equal. */
  predicate KeyEquals(a: Row, b: Row)
    requires |a| == |b|
  {
    forall i :: 0 <= i < |b| ==> Compare(Equal, a[i], b[i]) == Some(CmpTrue)
  }

  predicate HasNull(key: Row) {
    exists v :: v in key && v.IsNull()
  }

  /**
   * Keys of the same column types are equal exactly when they are the same and contain no NULL: a
   * key with a NULL does not even equal itself. Only then may the hash table be read as a map.
   */
  lemma KeyEqualsIffSame(a: Row, b: Row, types: seq<TypeId>)
    requires RowHasTypes(a, types) && RowHasTypes(b, types)
    ensures KeyEquals(a, b) <==> a == b && !HasNull(a)
  {
    if KeyEquals(a, b) {
      forall i | 0 <= i < |a|
        ensures a[i] == b[i] && !a[i].IsNull()
      {
        assert a[i].HasType(types[i]) && b[i].HasType(types[i]);
        assert Compare(Equal, a[i], b[i]) == Some(CmpTrue);
      }
    }
    if a == b && !HasNull(a) {
      forall i | 0 <= i < |a|
        ensures Compare(Equal, a[i], b[i]) == Some(CmpTrue)
      {
        assert a[i] in a;
      }
    }
  }

  /** A row as the table sees it: its group key and the input of each aggregate. */
  datatype Entry = Entry(key: Row, inputs: Row)

  type Table = map<Row, Row>

  /** GenerateInitialAggregateValue. */
  function InitialValues(types: seq<AggregationType>): (values: Row)
    ensures |values| == |types|
    ensures forall i :: 0 <= i < |types| ==> values[i] == Initial(types[i])
  {
    if types == [] then [] else [Initial(types[0])] + InitialValues(types[1..])
  }

  /** CombineAggregateValues; None where one of the aggregates throws. */
  function CombineAll(types: seq<AggregationType>, acc: Row, inputs: Row): (values: Option<Row>)
    requires |types| == |acc| == |inputs|
    ensures values.Some? ==> |values.value| == |types|
  {
    if types == [] then Some([])
    else
      var first, rest := Combine(types[0], acc[0], inputs[0]), CombineAll(types[1..], acc[1..], inputs[1..]);
      if first.Some? && rest.Some? then Some([first.value] + rest.value) else None
  }

  lemma {:induction false} CombineAllAt(types: seq<AggregationType>, acc: Row, inputs: Row, i: nat)
    requires |types| == |acc| == |inputs| && i < |types| && CombineAll(types, acc, inputs).Some?
    ensures Combine(types[i], acc[i], inputs[i]) == Some(CombineAll(types, acc, inputs).value[i])
  {
    if i > 0 {
      CombineAllAt(types[1..], acc[1..], inputs[1..], i - 1);
    }
  }

  lemma {:induction false} CombineAllFailsAt(types: seq<AggregationType>, acc: Row, inputs: Row) returns (i: nat)
    requires |types| == |acc| == |inputs| && CombineAll(types, acc, inputs).None?
    ensures i < |types| && Combine(types[i], acc[i], inputs[i]).None?
  {
    if Combine(types[0], acc[0], inputs[0]).None? {
      i := 0;
    } else {
      i := CombineAllFailsAt(types[1..], acc[1..], inputs[1..]);
      i := i + 1;
    }
  }

  /** InsertCombine; None where it throws. */
  function InsertCombine(types: seq<AggregationType>, table: Table, e: Entry): (t: Option<Table>)
    requires |e.inputs| == |types| && forall k :: k in table ==> |table[k]| == |types|
    ensures t.Some? ==> t.value.Keys == table.Keys + {e.key} && forall k :: k in t.value ==> |t.value[k]| == |types|
  {
    match CombineAll(types, Before(types, table, e.key), e.inputs)
    case Some(values) => Some(table[e.key := values])
    case None => None
  }

  predicate EntriesFit(types: seq<AggregationType>, es: seq<Entry>) {
    forall e :: e in es ==> |e.inputs| == |types|
  }

  /** The table after inserting all entries in order; None where an insertion throws. */
  function TableOf(types: seq<AggregationType>, es: seq<Entry>): (t: Option<Table>)
    requires EntriesFit(types, es)
    ensures t.Some? ==> forall k :: k in t.value ==> |t.value[k]| == |types|
  {
    if es == [] then Some(map[])
    else
      match TableOf(types, es[..|es| - 1])
      case Some(t) => InsertCombine(types, t, es[|es| - 1])
      case None => None
  }

  // ----- The table holds the folds of the groups -----

  /** The inputs of one aggregate over the rows of one group, in arrival order. */
  function GroupInputs(es: seq<Entry>, key: Row, i: nat): seq<Value>
    requires forall e :: e in es ==> i < |e.inputs|
  {
    if es == [] then []
    else
      var last := es[|es| - 1];
      GroupInputs(es[..|es| - 1], key, i) + (if last.key == key then [last.inputs[i]] else [])
  }

  function KeysOf(es: seq<Entry>): set<Row> {
    set e | e in es :: e.key
  }

  /** One entry per distinct key. */
  lemma {:induction false} TableHasAllKeys(types: seq<AggregationType>, es: seq<Entry>)
    requires EntriesFit(types, es) && TableOf(types, es).Some?
    ensures TableOf(types, es).value.Keys == KeysOf(es)
  {
    if es != [] {
      TableHasAllKeys(types, es[..|es| - 1]);
      KeysGrow(es);
    }
  }

  /** The running value of a group before an insertion. */
  function Before(types: seq<AggregationType>, table: Table, key: Row): Row {
    if key in table then table[key] else InitialValues(types)
  }

  /** In a group's entry every aggregate holds the fold over exactly that group's inputs. */
  lemma {:induction false} TableHoldsGroupFold(types: seq<AggregationType>, es: seq<Entry>, k: Row, i: nat)
    requires EntriesFit(types, es) && TableOf(types, es).Some? && i < |types|
    ensures Fold(types[i], GroupInputs(es, k, i)) == Some(Before(types, TableOf(types, es).value, k)[i])
  {
    if es != [] {
      var front, last := es[..|es| - 1], es[|es| - 1];
      TableHoldsGroupFold(types, front, k, i);
      var t := TableOf(types, front).value;
      if k == last.key {
        var before := GroupInputs(front, k, i);
        CombineAllAt(types, Before(types, t, k), last.inputs, i);
        assert (before + [last.inputs[i]])[..|before|] == before;
      } else {
        assert GroupInputs(es, k, i) == GroupInputs(front, k, i);
      }
    }
  }

  // ----- Conservation: every row is counted in exactly one group -----

  /** How many rows have the key. */
  function GroupSize(es: seq<Entry>, key: Row): nat {
    if es == [] then 0 else GroupSize(es[..|es| - 1], key) + (if es[|es| - 1].key == key then 1 else 0)
  }

  ghost function Pick(keys: set<Row>): (k: Row)
    requires keys != {}
    ensures k in keys
  {
    var k :| k in keys;
    k
  }

  ghost function SizesOf(es: seq<Entry>, keys: set<Row>): nat {
    if keys == {} then 0 else GroupSize(es, Pick(keys)) + SizesOf(es, keys - {Pick(keys)})
  }

  lemma {:induction false} SizesStep(es: seq<Entry>, keys: set<Row>)
    requires es != []
    ensures SizesOf(es, keys) == SizesOf(es[..|es| - 1], keys) + (if es[|es| - 1].key in keys then 1 else 0)
  {
    if keys != {} {
      SizesStep(es, keys - {Pick(keys)});
    }
  }

  lemma {:induction false} SizesOfNothing(keys: set<Row>)
    ensures SizesOf([], keys) == 0
  {
    if keys != {} {
      SizesOfNothing(keys - {Pick(keys)});
    }
  }

  /** The group sizes add up to the number of rows. */
  lemma {:induction false} GroupSizesAddUp(es: seq<Entry>, keys: set<Row>)
    requires KeysOf(es) <= keys
    ensures SizesOf(es, keys) == |es|
  {
    if es == [] {
      SizesOfNothing(keys);
    } else {
      var front, last := es[..|es| - 1], es[|es| - 1];
      KeysGrow(es);
      GroupSizesAddUp(front, keys);
      SizesStep(es, keys);
    }
  }

  lemma {:induction false} GroupInputsCount(es: seq<Entry>, key: Row, i: nat)
    requires forall e :: e in es ==> i < |e.inputs|
    ensures |GroupInputs(es, key, i)| == GroupSize(es, key) <= |es|
  {
    if es != [] {
      GroupInputsCount(es[..|es| - 1], key, i);
    }
  }

  /** COUNT(*) of a group is the size of the group. */
  lemma CountStarIsGroupSize(types: seq<AggregationType>, es: seq<Entry>, key: Row, i: nat)
    requires EntriesFit(types, es) && TableOf(types, es).Some?
    requires key in TableOf(types, es).value && i < |types| && types[i] == CountStarAggregate
    ensures TableOf(types, es).value[key][i] == Int(INTEGER, GroupSize(es, key))
  {
    TableHoldsGroupFold(types, es, key, i);
    GroupInputsCount(es, key, i);
    CountStarCountsRows(GroupInputs(es, key, i));
  }

  /** The i-th values of some entries of the table, added up. */
  ghost function SumOfColumn(t: Table, i: nat, keys: set<Row>): int
    requires forall k :: k in keys ==> k in t && i < |t[k]|
  {
    if keys == {} then 0 else t[Pick(keys)][i].Raw() + SumOfColumn(t, i, keys - {Pick(keys)})
  }

  lemma {:induction false} CountsAreSizes(types: seq<AggregationType>, es: seq<Entry>, i: nat, keys: set<Row>)
    requires EntriesFit(types, es) && TableOf(types, es).Some?
    requires i < |types| && types[i] == CountStarAggregate && keys <= TableOf(types, es).value.Keys
    ensures SumOfColumn(TableOf(types, es).value, i, keys) == SizesOf(es, keys)
  {
    if keys != {} {
      CountStarIsGroupSize(types, es, Pick(keys), i);
      CountsAreSizes(types, es, i, keys - {Pick(keys)});
    }
  }

  /** The COUNT(*) values of all entries add up to the number of rows inserted. */
  lemma CountsAddUp(types: seq<AggregationType>, es: seq<Entry>, i: nat)
    requires EntriesFit(types, es) && TableOf(types, es).Some?
    requires i < |types| && types[i] == CountStarAggregate
    ensures var t := TableOf(types, es).value; SumOfColumn(t, i, t.Keys) == |es|
  {
    var keys := TableOf(types, es).value.Keys;
    TableHasAllKeys(types, es);
    CountsAreSizes(types, es, i, keys);
    GroupSizesAddUp(es, keys);
  }

  // ----- The table does not depend on the order of the rows -----

  /** Inserting throws only if the fold of some aggregate over some group does. */
  lemma {:induction false} FailureHasWitness(types: seq<AggregationType>, es: seq<Entry>) returns (k: Row, i: nat)
    requires EntriesFit(types, es) && TableOf(types, es).None?
    ensures k in KeysOf(es) && i < |types| && Fold(types[i], GroupInputs(es, k, i)).None?
  {
    var front, last := es[..|es| - 1], es[|es| - 1];
    KeysGrow(es);
    if TableOf(types, front).Some? {
      i := FailingInsert(types, front, last);
      k := last.key;
      assert GroupInputs(es, k, i) == GroupInputs(front, k, i) + [last.inputs[i]];
    } else {
      k, i := FailureHasWitness(types, front);
      if k == last.key {
        FoldStaysFailed(types[i], GroupInputs(front, k, i), last.inputs[i]);
        assert GroupInputs(es, k, i) == GroupInputs(front, k, i) + [last.inputs[i]];
      } else {
        assert GroupInputs(es, k, i) == GroupInputs(front, k, i);
      }
    }
  }

  lemma KeysGrow(es: seq<Entry>)
    requires es != []
    ensures KeysOf(es) == KeysOf(es[..|es| - 1]) + {es[|es| - 1].key}
  {
    assert es == es[..|es| - 1] + [es[|es| - 1]];
  }

  lemma FoldStaysFailed(ty: AggregationType, inputs: seq<Value>, input: Value)
    requires Fold(ty, inputs).None?
    ensures Fold(ty, inputs + [input]).None?
  {
    assert (inputs + [input])[..|inputs|] == inputs;
  }

  lemma FailingInsert(types: seq<AggregationType>, front: seq<Entry>, last: Entry) returns (i: nat)
    requires EntriesFit(types, front) && |last.inputs| == |types| && TableOf(types, front).Some?
    requires InsertCombine(types, TableOf(types, front).value, last).None?
    ensures i < |types| && Fold(types[i], GroupInputs(front, last.key, i) + [last.inputs[i]]).None?
  {
    i := CombineAllFailsAt(types, Before(types, TableOf(types, front).value, last.key), last.inputs);
    TableHoldsGroupFold(types, front, last.key, i);
    var before := GroupInputs(front, last.key, i);
    assert (before + [last.inputs[i]])[..|before|] == before;
  }

  lemma {:induction false} GroupInputsConcat(a: seq<Entry>, b: seq<Entry>, key: Row, i: nat)
    requires forall e :: e in a + b ==> i < |e.inputs|
    ensures forall e :: e in a || e in b ==> e in a + b
    ensures GroupInputs(a + b, key, i) == GroupInputs(a, key, i) + GroupInputs(b, key, i)
  {
    assert forall e :: e in a || e in b ==> e in a + b;
    if b == [] {
      assert a + b == a;
    } else {
      var front, last := b[..|b| - 1], b[|b| - 1];
      assert (a + b)[..|a + b| - 1] == a + front;
      GroupInputsConcat(a, front, key, i);
    }
  }

  lemma PermutedEntries(a: seq<Entry>, b: seq<Entry>)
    requires multiset(a) == multiset(b)
    ensures |a| == |b| && (forall e :: e in a <==> e in b) && KeysOf(a) == KeysOf(b)
  {
    PermutationHasSameMembers(a, b);
  }

  lemma {:induction false} GroupInputsPermute(a: seq<Entry>, b: seq<Entry>, key: Row, i: nat)
    requires multiset(a) == multiset(b) && forall e :: e in a ==> i < |e.inputs|
    ensures forall e :: e in b ==> i < |e.inputs|
    ensures multiset(GroupInputs(a, key, i)) == multiset(GroupInputs(b, key, i))
  {
    PermutedEntries(a, b);
    if a != [] {
      var front, last := a[..|a| - 1], a[|a| - 1];
      assert a == front + [last];
      var before, after := FindLast(front, last, b);
      GroupInputsPermute(front, before + after, key, i);
      GroupInputsConcat(before, after, key, i);
      GroupInputsConcat(before, [last] + after, key, i);
      GroupInputsConcat([last], after, key, i);
      GroupInputsConcat(front, [last], key, i);
    }
  }

  /** SUM, MIN and MAX get integers, and no group's sum overflows or meets the number that encodes NULL. */
  predicate SumsFit(types: seq<AggregationType>, es: seq<Entry>)
    requires EntriesFit(types, es)
  {
    && (forall e, i :: e in es && 0 <= i < |types| && TakesIntegers(types[i]) ==> e.inputs[i].HasType(INTEGER))
    && (forall k, i :: k in KeysOf(es) && 0 <= i < |types| && types[i] == SumAggregate ==>
                         PartialSumsFit(INTEGER, GroupInputs(es, k, i)))
  }

  lemma {:induction false} GroupInputsTyped(es: seq<Entry>, key: Row, i: nat)
    requires forall e :: e in es ==> i < |e.inputs| && e.inputs[i].HasType(INTEGER)
    ensures AllHaveType(INTEGER, GroupInputs(es, key, i))
  {
    if es != [] {
      GroupInputsTyped(es[..|es| - 1], key, i);
    }
  }

  lemma GroupFoldsAgree(types: seq<AggregationType>, a: seq<Entry>, b: seq<Entry>, k: Row, i: nat)
    requires multiset(a) == multiset(b) && k in KeysOf(a) && i < |types|
    requires EntriesFit(types, a) && EntriesFit(types, b) && SumsFit(types, a) && SumsFit(types, b)
    ensures Fold(types[i], GroupInputs(a, k, i)) == Fold(types[i], GroupInputs(b, k, i))
    ensures |a| < Half(INTEGER) ==> Fold(types[i], GroupInputs(a, k, i)).Some?
  {
    PermutedEntries(a, b);
    GroupInputsPermute(a, b, k, i);
    if TakesIntegers(types[i]) {
      GroupInputsTyped(a, k, i);
    }
    GroupInputsCount(a, k, i);
    FoldIgnoresOrder(types[i], GroupInputs(a, k, i), GroupInputs(b, k, i));
  }

  /** If inserting in one order throws, inserting in the other does, which takes 2^31 rows. */
  lemma InsertionFailsAlike(types: seq<AggregationType>, a: seq<Entry>, b: seq<Entry>)
    requires multiset(a) == multiset(b)
    requires EntriesFit(types, a) && EntriesFit(types, b) && SumsFit(types, a) && SumsFit(types, b)
    ensures TableOf(types, a).None? ==> TableOf(types, b).None? && |a| >= Half(INTEGER)
  {
    if TableOf(types, a).None? {
      var k, i := FailureHasWitness(types, a);
      GroupFoldsAgree(types, a, b, k, i);
      if TableOf(types, b).Some? {
        TableHoldsGroupFold(types, b, k, i);
        assert false;
      }
    }
  }

  lemma RunningValuesAgree(types: seq<AggregationType>, a: seq<Entry>, b: seq<Entry>, k: Row)
    requires multiset(a) == multiset(b) && k in KeysOf(a)
    requires EntriesFit(types, a) && EntriesFit(types, b) && SumsFit(types, a) && SumsFit(types, b)
    requires TableOf(types, a).Some? && TableOf(types, b).Some?
    ensures Before(types, TableOf(types, a).value, k) == Before(types, TableOf(types, b).value, k)
  {
    var x, y := Before(types, TableOf(types, a).value, k), Before(types, TableOf(types, b).value, k);
    forall i | 0 <= i < |types|
      ensures x[i] == y[i]
    {
      GroupFoldsAgree(types, a, b, k, i);
      TableHoldsGroupFold(types, a, k, i);
      TableHoldsGroupFold(types, b, k, i);
    }
  }

  lemma SameTable(types: seq<AggregationType>, s: Table, t: Table)
    requires s.Keys == t.Keys && forall k :: k in s ==> Before(types, s, k) == Before(types, t, k)
    ensures s == t
  {
    forall k | k in s
      ensures s[k] == t[k]
    {
      assert Before(types, s, k) == Before(types, t, k);
    }
  }

  /** Permuting the rows changes nothing in the table, nor whether filling it throws, if no order overflows a sum. */
  lemma TableIgnoresOrder(types: seq<AggregationType>, a: seq<Entry>, b: seq<Entry>)
    requires multiset(a) == multiset(b)
    requires EntriesFit(types, a) && EntriesFit(types, b) && SumsFit(types, a) && SumsFit(types, b)
    ensures TableOf(types, a) == TableOf(types, b)
    ensures |a| < Half(INTEGER) ==> TableOf(types, a).Some?
  {
    PermutedEntries(a, b);
    InsertionFailsAlike(types, a, b);
    InsertionFailsAlike(types, b, a);
    if TableOf(types, a).Some? {
      var s, t := TableOf(types, a).value, TableOf(types, b).value;
      TableHasAllKeys(types, a);
      TableHasAllKeys(types, b);
      forall k | k in s
        ensures Before(types, s, k) == Before(types, t, k)
      {
        RunningValuesAgree(types, a, b, k);
      }
      SameTable(types, s, t);
    }
  }
}
