/** The hash table of an aggregation, updated in place row by row. */
module AggregationHashTable {
  import opened Types
  import opened Expressions
  import opened Aggregates
  import opened AggregationTable
  import opened Plans

  /** How combining the aggregates from `i` on completes the ones combined so far. */
  function Complete(done: Row, rest: Option<Row>): Option<Row> {
    match rest
    case Some(values) => Some(done + values)
    case None => None
  }

  lemma CompleteStart(types: seq<AggregationType>, acc: Row, inputs: Row)
    requires |types| == |acc| == |inputs|
    ensures Complete(acc[..0], CombineAll(types[0..], acc[0..], inputs[0..])) == CombineAll(types, acc, inputs)
  {
    assert types[0..] == types && acc[0..] == acc && inputs[0..] == inputs;
    if CombineAll(types, acc, inputs).Some? {
      assert acc[..0] + CombineAll(types, acc, inputs).value == CombineAll(types, acc, inputs).value;
    }
  }

  lemma CompleteStep(types: seq<AggregationType>, acc: Row, inputs: Row, i: nat, done: Row)
    requires |types| == |acc| == |inputs| && i < |types| && |done| == i
    ensures var v := Combine(types[i], acc[i], inputs[i]);
            Complete(done, CombineAll(types[i..], acc[i..], inputs[i..])) ==
            if v.None? then None
            else Complete(done + [v.value], CombineAll(types[i + 1..], acc[i + 1..], inputs[i + 1..]))
  {
    var rest := CombineAll(types[i..], acc[i..], inputs[i..]);
    assert types[i..][1..] == types[i + 1..] && acc[i..][1..] == acc[i + 1..] && inputs[i..][1..] == inputs[i + 1..];
    if rest.Some? {
      var v := Combine(types[i], acc[i], inputs[i]).value;
      assert done + ([v] + rest.value[1..]) == (done + [v]) + rest.value[1..];
    }
  }

  class SimpleAggregationHashTable {
    const aggTypes: seq<AggregationType>
    var ht: Table

    constructor (aggTypes: seq<AggregationType>)
      ensures this.aggTypes == aggTypes && ht == map[] && Valid()
    {
      this.aggTypes := aggTypes;
      ht := map[];
    }

    predicate Valid()
      reads this
    {
      forall k :: k in ht ==> |ht[k]| == |aggTypes|
    }

    method GenerateInitialAggregateValue() returns (values: Row)
      ensures values == InitialValues(aggTypes)
    {
      values := [];
      for i := 0 to |aggTypes|
        invariant |values| == i && forall j :: 0 <= j < i ==> values[j] == Initial(aggTypes[j])
      {
        var initial := if aggTypes[i] == CountStarAggregate then Int(INTEGER, 0) else Null(INTEGER);
        values := values + [initial];
      }
    }

    /** Overwrites the running values of one group, one aggregate after the other. Returns false where it throws. */
    method CombineAggregateValues(key: Row, input: Row) returns (ok: bool)
      requires Valid() && key in ht && |input| == |aggTypes|
      modifies this
      ensures ok == old(CombineAll(aggTypes, ht[key], input).Some?)
      ensures ok ==> Valid() && ht == old(ht[key := CombineAll(aggTypes, ht[key], input).value])
    {
      ghost var table, acc := ht, ht[key];
      var i := 0;
      CompleteStart(aggTypes, acc, input);
      while i < |aggTypes|
        invariant 0 <= i <= |aggTypes| && key in ht && |ht[key]| == |aggTypes|
        invariant ht == table[key := ht[key]] && ht[key][i..] == acc[i..]
        invariant CombineAll(aggTypes, acc, input)
               == Complete(ht[key][..i], CombineAll(aggTypes[i..], acc[i..], input[i..]))
      {
        CompleteStep(aggTypes, acc, input, i, ht[key][..i]);
        assert ht[key][i] == ht[key][i..][0] == acc[i];
        var value := Combine(aggTypes[i], ht[key][i], input[i]);
        if value.None? {
          return false;
        }
        ghost var before := ht[key];
        ht := ht[key := ht[key][i := value.value]];
        assert ht[key][..i + 1] == before[..i] + [value.value];
        assert ht[key][i + 1..] == before[i..][1..] == acc[i..][1..];
        i := i + 1;
      }
      assert ht[key][..i] + [] == ht[key];
      return true;
    }

    /** Adds a row to its group, which starts with the initial values. Returns false where the engine throws. */
    method InsertCombine(key: Row, input: Row) returns (ok: bool)
      requires Valid() && |input| == |aggTypes|
      modifies this
      ensures ok == old(AggregationTable.InsertCombine(aggTypes, ht, Entry(key, input)).Some?)
      ensures ok ==> Valid() && ht == old(AggregationTable.InsertCombine(aggTypes, ht, Entry(key, input)).value)
    {
      if key !in ht {
        var initial := GenerateInitialAggregateValue();
        ht := ht[key := initial];
      }
      ok := CombineAggregateValues(key, input);
    }

    method InsertIntialCombine()
      requires Valid() && ht == map[]
      modifies this
      ensures Valid() && ht == map[[] := InitialValues(aggTypes)]
    {
      var initial := GenerateInitialAggregateValue();
      ht := ht[[] := initial];
    }

    /** The keys in the order in which an iterator visits the entries, which nothing prescribes. */
    method Begin() returns (order: seq<Row>)
      ensures Enumerates(order, ht.Keys)
    {
      order := [];
      var keys := ht.Keys;
      while keys != {}
        invariant keys <= ht.Keys && Enumerates(order, ht.Keys - keys)
        decreases keys
      {
        var key :| key in keys;
        order := order + [key];
        keys := keys - {key};
      }
      assert ht.Keys - {} == ht.Keys;
    }
  }
}
