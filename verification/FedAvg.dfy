/** Federated averaging: the sample-weighted mean of the updates, over the reals. */
module FedAvg {
  import opened MachineInts
  import opened Options
  import opened Tasks

  /** A decoded value that is used only when it is a number. */
  datatype Entry = Number(value: real) | NotNumber

  /** The parts of an update's payload that are read: the list "w", if it is one, and "b". */
  datatype Payload = Payload(w: Option<seq<Entry>>, b: Entry)

  datatype Update = Update(numSamples: int, payload: Option<Payload>)

  datatype Model = Model(w: Option<seq<real>>, b: real, totalSamples: nat, numUpdates: nat)

  datatype Error = NoUpdates | Overflow

  /** A number of the model: one of the weights, or the bias. */
  datatype Coordinate = Weight(i: nat) | Bias

  function EntryOf(u: Update, c: Coordinate): Entry {
    if u.payload.None? then NotNumber
    else
      match c
      case Bias => u.payload.value.b
      case Weight(i) =>
        var w := u.payload.value.w;
        if w.Some? && i < |w.value| then w.value[i] else NotNumber
  }

  /** What is not a number counts as zero. */
  function ValueOf(u: Update, c: Coordinate): real {
    if EntryOf(u, c).Number? then EntryOf(u, c).value else 0.0
  }

  /** An update without a payload has no samples, whatever it says. */
  function Samples(u: Update): int {
    if u.payload.None? then 0 else u.numSamples
  }

  /** What an update adds to a coordinate's sum. */
  function Term(u: Update, c: Coordinate): real {
    ValueOf(u, c) * Samples(u) as real
  }

  function TotalSamples(updates: seq<Update>): int {
    if updates == [] then 0
    else TotalSamples(updates[..|updates| - 1]) + Samples(updates[|updates| - 1])
  }

  function WeightedSum(updates: seq<Update>, c: Coordinate): real {
    if updates == [] then 0.0
    else WeightedSum(updates[..|updates| - 1], c) + Term(updates[|updates| - 1], c)
  }

  /** The sample-weighted mean; zero when there are no samples at all. */
  function Mean(updates: seq<Update>, c: Coordinate): real {
    var total := TotalSamples(updates);
    if total > 0 then WeightedSum(updates, c) / total as real else 0.0
  }

  /** The first update alone decides how many weights the model has, or that it has none. */
  function Shape(updates: seq<Update>): Option<nat>
    requires updates != []
  {
    var first := updates[0];
    if first.payload.Some? && first.payload.value.w.Some? then Some(|first.payload.value.w.value|) else None
  }

  predicate NoNegative(updates: seq<Update>) {
    forall i :: 0 <= i < |updates| ==> Samples(updates[i]) >= 0
  }

  /** The sample counts can be added up in 64 bits. */
  predicate Countable(updates: seq<Update>) {
    NoNegative(updates) && TotalSamples(updates) <= INT64_MAX
  }

  lemma {:induction false} TotalGrows(updates: seq<Update>, k: nat)
    requires k <= |updates| && NoNegative(updates)
    ensures 0 <= TotalSamples(updates[..k]) <= TotalSamples(updates)
    decreases |updates| - k
  {
    if k == |updates| {
      assert updates[..k] == updates;
      TotalNatural(updates);
    } else {
      TotalGrows(updates, k + 1);
      assert updates[..k + 1][..k] == updates[..k];
      TotalNatural(updates[..k]);
    }
  }

  lemma {:induction false} TotalNatural(updates: seq<Update>)
    requires NoNegative(updates)
    ensures TotalSamples(updates) >= 0
  {
    if updates != [] {
      TotalNatural(updates[..|updates| - 1]);
    }
  }

  /** Without samples every weighted sum is zero, so leaving the sums undivided is harmless. */
  lemma {:induction false} NoSamplesNoSum(updates: seq<Update>, c: Coordinate)
    requires NoNegative(updates) && TotalSamples(updates) == 0
    ensures WeightedSum(updates, c) == 0.0
  {
    if updates != [] {
      var before := updates[..|updates| - 1];
      TotalNatural(before);
      NoSamplesNoSum(before, c);
    }
  }

  // The aggregation as it is computed, in place.

  method AggregateWeights(acc: array<real>, u: Update, weight: real)
    modifies acc
    ensures forall i :: 0 <= i < acc.Length ==> acc[i] == old(acc[i]) + ValueOf(u, Weight(i)) * weight
  {
    if u.payload.Some? && u.payload.value.w.Some? {
      var w := u.payload.value.w.value;
      for i := 0 to |w|
        invariant forall k :: 0 <= k < acc.Length ==>
                    acc[k] == if k < i then old(acc[k]) + ValueOf(u, Weight(k)) * weight else old(acc[k])
      {
        if w[i].Number? {
          if i < acc.Length {
            assert ValueOf(u, Weight(i)) == w[i].value;
            acc[i] := acc[i] + w[i].value * weight;
          }
        }
      }
    }
  }

  method Normalize(acc: array<real>, bias: real, total: nat) returns (b: real)
    modifies acc
    ensures forall i :: 0 <= i < acc.Length ==> acc[i] == if total > 0 then old(acc[i]) / total as real else old(acc[i])
    ensures b == if total > 0 then bias / total as real else bias
  {
    b := bias;
    if total > 0 {
      var norm := total as real;
      for i := 0 to acc.Length
        invariant forall k :: 0 <= k < acc.Length ==> acc[k] == if k < i then old(acc[k]) / norm else old(acc[k])
      {
        acc[i] := acc[i] / norm;
      }
      b := b / norm;
    }
  }

  /** The weight of an update and the new number of samples, unless the count would not fit. */
  method ValidateAndProcess(u: Update, total: nat) returns (r: Result<(nat, nat), Error>)
    requires total <= INT64_MAX
    ensures r.Err? <==> Samples(u) < 0 || total + Samples(u) > INT64_MAX
    ensures r.Err? ==> r.error == Overflow
    ensures r.Ok? ==> r.value == (Samples(u), total + Samples(u))
  {
    if u.payload.None? {
      return Ok((0, total));
    }
    if u.numSamples < 0 {
      return Err(Overflow);
    }
    if total > INT64_MAX - u.numSamples {
      return Err(Overflow);
    }
    return Ok((u.numSamples, total + u.numSamples));
  }

  /** The running sums over the first `k` updates. */
  ghost predicate Summed(updates: seq<Update>, k: nat, acc: seq<real>, bias: real, total: int)
    requires k <= |updates|
  {
    && NoNegative(updates[..k])
    && total == TotalSamples(updates[..k])
    && bias == WeightedSum(updates[..k], Bias)
    && forall i :: 0 <= i < |acc| ==> acc[i] == WeightedSum(updates[..k], Weight(i))
  }

  lemma SumSnoc(updates: seq<Update>, k: nat)
    requires k < |updates|
    ensures TotalSamples(updates[..k + 1]) == TotalSamples(updates[..k]) + Samples(updates[k])
    ensures forall c :: WeightedSum(updates[..k + 1], c) == WeightedSum(updates[..k], c) + Term(updates[k], c)
    ensures NoNegative(updates[..k]) && Samples(updates[k]) >= 0 ==> NoNegative(updates[..k + 1])
  {
    assert updates[..k + 1][..k] == updates[..k];
    assert forall i :: 0 <= i < k ==> updates[..k + 1][i] == updates[..k][i];
  }

  lemma SumNothing(updates: seq<Update>, acc: seq<real>)
    requires forall i :: 0 <= i < |acc| ==> acc[i] == 0.0
    ensures Summed(updates, 0, acc, 0.0, 0)
  {
    assert updates[..0] == [];
  }

  /** Adding one update's terms; an update without samples may be passed over. */
  lemma SumStep(updates: seq<Update>, k: nat, acc: seq<real>, acc': seq<real>, bias: real, bias': real, total: int)
    requires k < |updates| && Samples(updates[k]) >= 0 && Summed(updates, k, acc, bias, total) && |acc| == |acc'|
    requires bias' == bias + Term(updates[k], Bias)
    requires forall i :: 0 <= i < |acc| ==> acc'[i] == acc[i] + Term(updates[k], Weight(i))
    ensures Summed(updates, k + 1, acc', bias', total + Samples(updates[k]))
  {
    hide Term;
    SumSnoc(updates, k);
  }

  /** A prefix that does not add up keeps the whole from adding up. */
  lemma PrefixOverflows(updates: seq<Update>, k: nat)
    requires k < |updates|
    requires Samples(updates[k]) < 0 || TotalSamples(updates[..k]) + Samples(updates[k]) > INT64_MAX
    ensures !Countable(updates)
  {
    if NoNegative(updates) {
      SumSnoc(updates, k);
      TotalGrows(updates, k + 1);
    }
  }

  method AggregateBias(bias: real, u: Update, weight: real) returns (b: real)
    ensures b == bias + ValueOf(u, Bias) * weight
  {
    b := bias;
    if u.payload.Some? && u.payload.value.b.Number? {
      b := b + u.payload.value.b.value * weight;
    }
  }

  /** One update, added to the running sums in place. */
  method AggregateUpdate(updates: seq<Update>, k: nat, acc: array<real>, some: bool, bias: real, total: nat)
    returns (r: Result<(real, nat), Error>)
    requires k < |updates| && total <= INT64_MAX && (!some ==> acc.Length == 0)
    requires Summed(updates, k, acc[..], bias, total)
    modifies acc
    ensures r.Err? ==> r.error == Overflow && !Countable(updates)
    ensures r.Ok? ==> r.value.1 <= INT64_MAX && Summed(updates, k + 1, acc[..], r.value.0, r.value.1)
  {
    hide Summed, TotalSamples, WeightedSum, Countable;
    var u := updates[k];
    var checked := ValidateAndProcess(u, total);
    if checked.Err? {
      SummedTotal(updates, k, acc[..], bias, total);
      PrefixOverflows(updates, k);
      return Err(checked.error);
    }
    var (weight, newTotal) := checked.value;
    if weight == 0 {
      SumStep(updates, k, acc[..], acc[..], bias, bias, total);
      return Ok((bias, total));
    }
    ghost var before := acc[..];
    if some {
      AggregateWeights(acc, u, weight as real);
    }
    var b := AggregateBias(bias, u, weight as real);
    hide ValueOf;
    assert forall i :: 0 <= i < acc.Length ==> acc[i] == before[i] + ValueOf(u, Weight(i)) * weight as real;
    SumStep(updates, k, before, acc[..], bias, b, total);
    return Ok((b, newTotal));
  }

  lemma SummedTotal(updates: seq<Update>, k: nat, acc: seq<real>, bias: real, total: int)
    requires k <= |updates| && Summed(updates, k, acc, bias, total)
    ensures total == TotalSamples(updates[..k])
  {
  }

  /** The mean of the updates in every coordinate, with the shape of the first. */
  ghost predicate IsAverage(updates: seq<Update>, m: Model) {
    && updates != []
    && m.totalSamples == TotalSamples(updates) && m.numUpdates == |updates|
    && m.b == Mean(updates, Bias)
    && m.w.Some? == Shape(updates).Some?
    && (m.w.Some? ==> |m.w.value| == Shape(updates).value)
    && (m.w.Some? ==> forall i :: 0 <= i < |m.w.value| ==> m.w.value[i] == Mean(updates, Weight(i)))
  }

  /** The model is the average; the only errors are an empty list and a count that does not fit. */
  method Aggregate(updates: seq<Update>) returns (r: Result<Model, Error>)
    ensures updates == [] ==> r == Err(NoUpdates)
    ensures updates != [] && !Countable(updates) ==> r == Err(Overflow)
    ensures updates != [] && Countable(updates) ==> r.Ok? && IsAverage(updates, r.value)
  {
    hide Summed, TotalSamples, WeightedSum, IsAverage, Countable;
    if |updates| == 0 {
      return Err(NoUpdates);
    }
    var shape := Shape(updates);
    var acc := new real[if shape.Some? then shape.value else 0](_ => 0.0);
    var bias, total: nat := 0.0, 0;
    SumNothing(updates, acc[..]);
    for k := 0 to |updates|
      invariant total <= INT64_MAX
      invariant Summed(updates, k, acc[..], bias, total)
    {
      var sums := AggregateUpdate(updates, k, acc, shape.Some?, bias, total);
      if sums.Err? {
        return Err(sums.error);
      }
      bias, total := sums.value.0, sums.value.1;
    }
    ghost var sums, b := acc[..], bias;
    bias := Normalize(acc, bias, total);
    var m := Model(if shape.Some? then Some(acc[..]) else None, bias, total, |updates|);
    Averaged(updates, sums, b, total, m);
    return Ok(m);
  }

  lemma Averaged(updates: seq<Update>, sums: seq<real>, bias: real, total: nat, m: Model)
    requires updates != [] && total <= INT64_MAX && Summed(updates, |updates|, sums, bias, total)
    requires |sums| == (if Shape(updates).Some? then Shape(updates).value else 0)
    requires m.totalSamples == total && m.numUpdates == |updates|
    requires m.b == if total > 0 then bias / total as real else bias
    requires m.w.Some? == Shape(updates).Some? && (m.w.Some? ==> |m.w.value| == |sums|)
    requires m.w.Some? ==> forall i :: 0 <= i < |sums| ==>
               m.w.value[i] == if total > 0 then sums[i] / total as real else sums[i]
    ensures Countable(updates) && IsAverage(updates, m)
  {
    hide TotalSamples, WeightedSum, Mean, Shape;
    assert updates[..|updates|] == updates;
    MeanOfSums(updates);
  }

  lemma MeanOfSums(updates: seq<Update>)
    requires NoNegative(updates)
    ensures forall c :: Mean(updates, c)
              == if TotalSamples(updates) > 0 then WeightedSum(updates, c) / TotalSamples(updates) as real
                 else WeightedSum(updates, c)
  {
    TotalNatural(updates);
    forall c
      ensures TotalSamples(updates) == 0 ==> WeightedSum(updates, c) == 0.0
    {
      if TotalSamples(updates) == 0 {
        NoSamplesNoSum(updates, c);
      }
    }
  }

  // What a mean promises.

  ghost predicate Counts(updates: seq<Update>, i: int) {
    0 <= i < |updates| && Samples(updates[i]) > 0
  }

  /** A bound on every value that has weight bounds the weighted sum. */
  lemma {:induction false} SumBelow(updates: seq<Update>, c: Coordinate, m: real)
    requires NoNegative(updates) && forall i :: Counts(updates, i) ==> ValueOf(updates[i], c) <= m
    ensures WeightedSum(updates, c) <= Times(m, TotalSamples(updates))
  {
    if updates == [] {
      assert Times(m, 0) == 0.0;
    } else {
      var n := |updates| - 1;
      var before := updates[..n];
      forall i | Counts(before, i)
        ensures ValueOf(before[i], c) <= m
      {
        assert Counts(updates, i);
      }
      SumBelow(before, c, m);
      assert Samples(updates[n]) > 0 ==> Counts(updates, n);
      TermBelow(updates[n], c, m);
      hide Term, Samples, Times;
      Spread(m, TotalSamples(before), Samples(updates[n]));
    }
  }

  lemma TermBelow(u: Update, c: Coordinate, m: real)
    requires Samples(u) >= 0 && (Samples(u) > 0 ==> ValueOf(u, c) <= m)
    ensures Term(u, c) <= Times(m, Samples(u))
  {
    Scale(ValueOf(u, c), m, Samples(u) as real);
    Scale(m, ValueOf(u, c), Samples(u) as real);
  }

  lemma {:induction false} SumAbove(updates: seq<Update>, c: Coordinate, m: real)
    requires NoNegative(updates) && forall i :: Counts(updates, i) ==> ValueOf(updates[i], c) >= m
    ensures WeightedSum(updates, c) >= Times(m, TotalSamples(updates))
  {
    if updates == [] {
      assert Times(m, 0) == 0.0;
    } else {
      var n := |updates| - 1;
      var before := updates[..n];
      forall i | Counts(before, i)
        ensures ValueOf(before[i], c) >= m
      {
        assert Counts(updates, i);
      }
      SumAbove(before, c, m);
      assert Samples(updates[n]) > 0 ==> Counts(updates, n);
      TermAbove(updates[n], c, m);
      hide Term, Samples, Times;
      Spread(m, TotalSamples(before), Samples(updates[n]));
    }
  }

  lemma TermAbove(u: Update, c: Coordinate, m: real)
    requires Samples(u) >= 0 && (Samples(u) > 0 ==> ValueOf(u, c) >= m)
    ensures Term(u, c) >= Times(m, Samples(u))
  {
    Scale(ValueOf(u, c), m, Samples(u) as real);
    Scale(m, ValueOf(u, c), Samples(u) as real);
  }

  function Times(m: real, x: int): real {
    m * x as real
  }

  lemma Spread(m: real, x: int, y: int)
    ensures Times(m, x + y) == Times(m, x) + Times(m, y)
  {
  }

  lemma Scale(a: real, b: real, t: real)
    requires t >= 0.0
    ensures a <= b ==> a * t <= b * t
    ensures t == 0.0 ==> a * t == b * t
    ensures t > 0.0 && a < b ==> a * t < b * t
  {
  }

  /** Every coordinate lies between the least and the greatest value that has weight. */
  lemma MeanBetween(updates: seq<Update>, c: Coordinate, least: real, greatest: real)
    requires NoNegative(updates) && TotalSamples(updates) > 0
    requires forall i :: Counts(updates, i) ==> least <= ValueOf(updates[i], c) <= greatest
    ensures least <= Mean(updates, c) <= greatest
  {
    SumBelow(updates, c, greatest);
    SumAbove(updates, c, least);
    Divide(WeightedSum(updates, c), TotalSamples(updates) as real, least, greatest);
  }

  lemma Divide(sum: real, total: real, least: real, greatest: real)
    requires total > 0.0 && least * total <= sum <= greatest * total
    ensures least <= sum / total <= greatest
  {
    var q := sum / total;
    assert q * total == sum;
    Scale(q, least, total);
    Scale(greatest, q, total);
  }

  // The order of the updates.

  function Remove(updates: seq<Update>, i: nat): seq<Update>
    requires i < |updates|
  {
    updates[..i] + updates[i + 1..]
  }

  lemma {:induction false} RemoveOne(updates: seq<Update>, i: nat, c: Coordinate)
    requires i < |updates|
    ensures TotalSamples(updates) == TotalSamples(Remove(updates, i)) + Samples(updates[i])
    ensures WeightedSum(updates, c) == WeightedSum(Remove(updates, i), c) + Term(updates[i], c)
  {
    hide Term, Samples;
    var n := |updates| - 1;
    if i == n {
      assert Remove(updates, i) == updates[..n];
    } else {
      RemoveOne(updates[..n], i, c);
      RemoveEarlier(updates, i);
      hide Remove;
    }
  }

  lemma RemoveEarlier(updates: seq<Update>, i: nat)
    requires i < |updates| - 1
    ensures var n, r := |updates| - 1, Remove(updates, i);
            |r| == n && r[..n - 1] == Remove(updates[..n], i) && r[n - 1] == updates[n]
  {
  }

  lemma RemovedOne(updates: seq<Update>, i: nat)
    requires i < |updates|
    ensures multiset(Remove(updates, i)) == multiset(updates) - multiset{updates[i]}
  {
    assert updates == updates[..i] + [updates[i]] + updates[i + 1..];
  }

  lemma {:induction false} OrderIrrelevant(a: seq<Update>, b: seq<Update>, c: Coordinate)
    requires multiset(a) == multiset(b)
    ensures TotalSamples(a) == TotalSamples(b) && WeightedSum(a, c) == WeightedSum(b, c)
  {
    hide Term, Samples;
    if a == [] {
      assert |multiset(b)| == 0;
    } else {
      var n := |a| - 1;
      assert a[n] in multiset(b);
      var j :| 0 <= j < |b| && b[j] == a[n];
      RemoveOne(a, n, c);
      RemoveOne(b, j, c);
      RemovedOne(a, n);
      RemovedOne(b, j);
      OrderIrrelevant(Remove(a, n), Remove(b, j), c);
    }
  }

  lemma CountableAnyOrder(a: seq<Update>, b: seq<Update>)
    requires multiset(a) == multiset(b)
    ensures Countable(a) <==> Countable(b)
  {
    OrderIrrelevant(a, b, Bias);
    forall i | 0 <= i < |b|
      ensures b[i] in a
    {
      assert b[i] in multiset(a);
    }
    forall i | 0 <= i < |a|
      ensures a[i] in b
    {
      assert a[i] in multiset(b);
    }
  }

  /** Two orders of the same updates give the same model exactly when their first updates have the same shape. */
  method AggregateInAnyOrder(a: seq<Update>, b: seq<Update>)
    returns (ra: Result<Model, Error>, rb: Result<Model, Error>)
    requires multiset(a) == multiset(b) && a != []
    ensures ra.Ok? <==> rb.Ok?
    ensures b != []
    ensures ra == rb <==> !Countable(a) || Shape(a) == Shape(b)
  {
    ra := Aggregate(a);
    rb := Aggregate(b);
    assert |multiset(a)| == |a| && |multiset(b)| == |b|;
    CountableAnyOrder(a, b);
    forall c
      ensures Mean(a, c) == Mean(b, c)
    {
      OrderIrrelevant(a, b, c);
    }
    OrderIrrelevant(a, b, Bias);
    if Countable(a) && ra.value.w.Some? && rb.value.w.Some? && Shape(a) == Shape(b) {
      assert ra.value.w.value == rb.value.w.value;
    }
  }

  /** One update with a weight and one without: the model has weights only if the former comes first. */
  method OrderDecidesShape() returns (ra: Result<Model, Error>, rb: Result<Model, Error>)
    ensures ra.Ok? && rb.Ok? && ra.value.w.Some? && rb.value.w.None?
  {
    var weighted := Update(1, Some(Payload(Some([Number(1.0)]), NotNumber)));
    var plain := Update(1, Some(Payload(None, NotNumber)));
    var a, b := [weighted, plain], [plain, weighted];
    PairCountable(weighted, plain);
    PairCountable(plain, weighted);
    ra := Aggregate(a);
    rb := Aggregate(b);
  }

  lemma PairCountable(u: Update, v: Update)
    requires Samples(u) == 1 && Samples(v) == 1
    ensures Countable([u, v])
  {
    var both := [u, v];
    assert both[..0] == [] && both[..2] == both;
    SumSnoc(both, 0);
    SumSnoc(both, 1);
  }
}
