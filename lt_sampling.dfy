/**
  `sample(weighted_objects, num_samples, seed)`: seeded random choice with
  replacement among weighted objects. The random generator is a parameter:
  after seeding with `seed`, its `k`-th uniform draw is `stream(seed, k)`,
  and a weighted choice is the inverse of the cumulative distribution, as
  in `numpy.random.choice`.
*/
module Sampling {
  import opened Wrappers

  /** A uniform draw in [0, 1). */
  type Unit = r: real | 0.0 <= r < 1.0 witness 0.0

  /** The random generator: the uniform draws that follow each seed. */
  type Stream = (int, nat) -> Unit

  /** A weight: a float, or a mapping holding the float under `"weight"`. */
  datatype Weight = FloatWeight(w: real) | MappedWeight(m: map<string, real>)

  /** What `sample` raises: the `KeyError` of a mapped weight without
      `"weight"`, and the `ValueError`s of seeding and of `choice`. */
  datatype SampleError =
    | MissingWeightKey
    | SeedOutOfRange(seed: int)
    | EmptyPopulation
    | NegativeProbability
    | NotNormalised
    | NegativeSampleCount

  const SeedBound: int := 0x1_0000_0000

  function Sum(p: seq<real>): real {
    if p == [] then 0.0 else p[0] + Sum(p[1..])
  }

  predicate NonNegative(p: seq<real>) {
    forall i :: 0 <= i < |p| ==> p[i] >= 0.0
  }

  /** The float of one weight. */
  function WeightValue(w: Weight): (r: Option<real>)
    ensures w.FloatWeight? ==> r == Some(w.w)
    ensures w.MappedWeight? ==> (r.Some? <==> "weight" in w.m)
    ensures w.MappedWeight? && r.Some? ==> r.value == w.m["weight"]
  {
    match w
    case FloatWeight(x) => Some(x)
    case MappedWeight(m) => if "weight" in m then Some(m["weight"]) else None
  }

  /** The floats of all weights, or `None` if one of them has none. */
  function Weights<T>(objs: seq<T>, weight: T -> Weight): (r: Option<seq<real>>)
    ensures r.Some? <==> forall i :: 0 <= i < |objs| ==> WeightValue(weight(objs[i])).Some?
    ensures r.Some? ==> |r.value| == |objs|
                        && forall i :: 0 <= i < |objs| ==> r.value[i] == WeightValue(weight(objs[i])).value
  {
    if objs == [] then Some([])
    else
      var w := WeightValue(weight(objs[|objs| - 1]));
      var front := Weights(objs[..|objs| - 1], weight);
      if front.None? || w.None? then None else Some(front.value + [w.value])
  }

  /** The index whose cumulative-weight interval holds `u`: the first `i`
      whose cumulative weight exceeds `u`, `|p|` when there is none. */
  function Pick(p: seq<real>, u: real): nat {
    if p == [] then 0
    else if u < p[0] then 0
    else 1 + Pick(p[1..], u - p[0])
  }

  /** `numpy.random.choice(len(p), n, p)` after `numpy.random.seed(seed)`. */
  function Choice(p: seq<real>, n: nat, seed: int, stream: Stream): seq<nat> {
    seq(n, k requires k >= 0 => Pick(p, stream(seed, k)))
  }

  /** The validation `sample` goes through before drawing, in its order. */
  function CheckChoice(p: seq<real>, n: int, seed: int): Option<SampleError> {
    if !(0 <= seed < SeedBound) then Some(SeedOutOfRange(seed))
    else if p == [] && n != 0 then Some(EmptyPopulation)
    else if !NonNegative(p) then Some(NegativeProbability)
    else if Sum(p) != 1.0 then Some(NotNormalised)
    else if n < 0 then Some(NegativeSampleCount)
    else None
  }

  /** What `sample` returns: the objects at the drawn indices. */
  function SampleSpec<T>(objs: seq<T>, weight: T -> Weight, n: int, seed: int, stream: Stream): Result<seq<T>, SampleError> {
    match Weights(objs, weight)
    case None => Err(MissingWeightKey)
    case Some(p) =>
      match CheckChoice(p, n, seed)
      case Some(e) => Err(e)
      case None =>
        PickInRangeAll(p, n, seed, stream);
        var idxs := Choice(p, n, seed, stream);
        Ok(seq(n, k requires 0 <= k < n => objs[idxs[k]]))
  }

  // ------------------------------------------------------------ the method

  method Sample<T>(objs: seq<T>, weight: T -> Weight, n: int, seed: int, stream: Stream)
    returns (r: Result<seq<T>, SampleError>)
    ensures r == SampleSpec(objs, weight, n, seed, stream)
  {
    var weights: seq<real> := [];
    for i := 0 to |objs|
      invariant Weights(objs[..i], weight) == Some(weights)
    {
      assert objs[..i + 1][..i] == objs[..i];
      var w := weight(objs[i]);
      if w.FloatWeight? {
        weights := weights + [w.w];
      } else if "weight" in w.m {
        weights := weights + [w.m["weight"]];
      } else {
        assert Weights(objs[..i + 1], weight).None?;
        Prefixes(objs, i + 1, weight);
        return Err(MissingWeightKey);
      }
    }
    assert objs[..|objs|] == objs;
    var problem := CheckChoice(weights, n, seed);
    if problem.Some? {
      return Err(problem.value);
    }
    PickInRangeAll(weights, n, seed, stream);
    var out: seq<T> := [];
    var k := 0;
    while k < n
      invariant 0 <= k <= n
      invariant |out| == k
      invariant forall j :: 0 <= j < k ==> out[j] == objs[Pick(weights, stream(seed, j))]
    {
      var idx := Pick(weights, stream(seed, k));
      out := out + [objs[idx]];
      k := k + 1;
    }
    ghost var idxs := Choice(weights, n, seed, stream);
    assert out == seq(n, j requires 0 <= j < n => objs[idxs[j]]);
    r := Ok(out);
  }

  /** A weight missing in a prefix is missing in the whole sequence. */
  lemma Prefixes<T>(objs: seq<T>, i: nat, weight: T -> Weight)
    requires i <= |objs|
    requires Weights(objs[..i], weight).None?
    ensures Weights(objs, weight).None?
  {
    var j :| 0 <= j < i && WeightValue(weight(objs[..i][j])).None?;
    assert objs[..i][j] == objs[j];
  }

  // ------------------------------------------------------------- properties

  lemma {:induction false} SumPrefixStep(p: seq<real>, j: nat)
    requires j < |p|
    ensures Sum(p[..j + 1]) == p[0] + Sum(p[1..][..j])
  {
    assert p[..j + 1][1..] == p[1..][..j];
  }

  /** The inverse-CDF choice lands on an index with positive weight, whose
      cumulative interval holds the draw. */
  lemma {:induction false} PickInterval(p: seq<real>, u: real)
    requires NonNegative(p)
    requires 0.0 <= u < Sum(p)
    ensures Pick(p, u) < |p|
    ensures Sum(p[..Pick(p, u)]) <= u < Sum(p[..Pick(p, u) + 1])
    ensures p[Pick(p, u)] > 0.0
  {
    if u < p[0] {
      assert p[..1] == [p[0]];
      assert Sum([p[0]]) == p[0] + Sum([]);
    } else {
      var q := p[1..];
      assert NonNegative(q) by {
        forall i | 0 <= i < |q| ensures q[i] >= 0.0 {
          assert q[i] == p[i + 1];
        }
      }
      PickInterval(q, u - p[0]);
      var j := Pick(q, u - p[0]);
      SumPrefixStep(p, j);
      SumPrefixStep(p, j + 1);
      assert p[j + 1] == q[j];
    }
  }

  /** Every index drawn from a valid weight vector is in range. */
  lemma PickInRangeAll(p: seq<real>, n: int, seed: int, stream: Stream)
    requires CheckChoice(p, n, seed).None?
    ensures forall k :: 0 <= k < n ==> Pick(p, stream(seed, k)) < |p|
  {
    forall k | 0 <= k < n
      ensures Pick(p, stream(seed, k)) < |p|
    {
      PickInterval(p, stream(seed, k));
    }
  }

  /** `sample` returns exactly `n` objects, each one of `objs` with a
      positive weight, and only fails for the reasons `CheckChoice` and
      `Weights` name. */
  lemma SampleShape<T>(objs: seq<T>, weight: T -> Weight, n: int, seed: int, stream: Stream)
    requires Weights(objs, weight).Some?
    ensures var r := SampleSpec(objs, weight, n, seed, stream);
            var p := Weights(objs, weight).value;
            && (r.Ok? <==> CheckChoice(p, n, seed).None?)
            && (r.Ok? ==> |r.value| == n
                          && forall k :: 0 <= k < n ==>
                               exists i :: 0 <= i < |objs| && r.value[k] == objs[i] && p[i] > 0.0)
  {
    var r := SampleSpec(objs, weight, n, seed, stream);
    var p := Weights(objs, weight).value;
    if r.Ok? {
      forall k | 0 <= k < n
        ensures exists i :: 0 <= i < |objs| && r.value[k] == objs[i] && p[i] > 0.0
      {
        PickInterval(p, stream(seed, k));
        var i := Pick(p, stream(seed, k));
        assert r.value[k] == objs[i];
      }
    }
  }

  /** The `k`-th sample depends on the seed and `k` only: fewer samples
      with the same seed are a prefix of more. */
  lemma SamplePrefix<T>(objs: seq<T>, weight: T -> Weight, m: nat, n: nat, seed: int, stream: Stream)
    requires m <= n
    requires SampleSpec(objs, weight, n, seed, stream).Ok?
    ensures SampleSpec(objs, weight, m, seed, stream).Ok?
    ensures SampleSpec(objs, weight, m, seed, stream).value == SampleSpec(objs, weight, n, seed, stream).value[..m]
  {
  }
}
