/**
  The paths of a logic tree: `enumerate_paths`, which lists every path from
  a branch-set down to a leaf with the product of its weights, and
  `BranchSet.sample`, which draws one path level by level with a seed.
*/
module Paths {
  import opened Wrappers
  import opened LogicTree
  import Sampling

  // ------------------------------------------------------------ enumeration

  /** How many branches enumeration goes through: one for a collapsed
      branch-set, all of them otherwise. */
  function Count(bs: BranchSet): nat {
    if bs.collapsed then 1 else |bs.branches|
  }

  /** The `i`-th branch enumeration goes through: for a collapsed
      branch-set, a copy of the first branch with weight 1. */
  function EffectiveBranch(bs: BranchSet, i: nat): Branch
    requires i < |bs.branches| && (bs.collapsed ==> i == 0)
  {
    if bs.collapsed then bs.branches[0].(weight := 1.0) else bs.branches[i]
  }

  /** All the branches enumeration goes through. */
  function EffectiveBranches(bs: BranchSet): seq<Branch> {
    if !bs.collapsed then bs.branches
    else if bs.branches == [] then []
    else [bs.branches[0].(weight := 1.0)]
  }

  /** The nested path of `_enumerate_paths`: `[prefix, branch]` pairs
      ending in the empty list. */
  datatype NestedPath = Root | Step(prefix: NestedPath, branch: Branch)

  /** `_enumerate_paths(prefix_path)`: the paths through every branch in
      order, descending into the branch's child when it has one. */
  function EnumPaths(bs: BranchSet, prefix: NestedPath): Result<seq<NestedPath>, TreeError>
    decreases bs, 1
  {
    EnumFrom(bs, 0, prefix)
  }

  /** The paths through the branches from the `i`-th on. */
  function EnumFrom(bs: BranchSet, i: nat, prefix: NestedPath): Result<seq<NestedPath>, TreeError>
    decreases bs, 0, |bs.branches| - i, 1
  {
    if bs.collapsed && bs.branches == [] then Err(NoBranches)
    else if i >= Count(bs) then Ok([])
    else
      var here :- Through(bs, i, prefix);
      var rest :- EnumFrom(bs, i + 1, prefix);
      Ok(here + rest)
  }

  /** The paths through the `i`-th branch: the branch itself when it has no
      child, else the paths of its child. */
  function Through(bs: BranchSet, i: nat, prefix: NestedPath): Result<seq<NestedPath>, TreeError>
    requires i < |bs.branches| && (bs.collapsed ==> i == 0)
    decreases bs, 0, |bs.branches| - i, 0
  {
    var b := EffectiveBranch(bs, i);
    var child := bs.branches[i].child;
    if child.None? then Ok([Step(prefix, b)]) else EnumPaths(child.value, Step(prefix, b))
  }

  /** The branches of a nested path, root first. */
  function Branches(p: NestedPath): seq<Branch> {
    match p
    case Root => []
    case Step(q, b) => Branches(q) + [b]
  }

  /** The product of the weights, multiplied from the last branch to the
      first as the unwinding of a nested path does. */
  function Product(bs: seq<Branch>): real {
    if bs == [] then 1.0 else Product(bs[1..]) * bs[0].weight
  }

  function Reverse<T>(s: seq<T>): seq<T> {
    if s == [] then [] else Reverse(s[1..]) + [s[0]]
  }

  lemma {:induction false} ReverseSnoc<T>(s: seq<T>, x: T)
    ensures Reverse(s + [x]) == [x] + Reverse(s)
  {
    if s != [] {
      assert (s + [x])[1..] == s[1..] + [x];
      ReverseSnoc(s[1..], x);
    } else {
      assert [x][1..] == [];
    }
  }

  /** The loop of `enumerate_paths` that unwinds one nested path: it
      multiplies the weights and collects the branches leaf first, then
      reverses them. */
  method Flatten(path: NestedPath) returns (weight: real, flat: seq<Branch>)
    ensures flat == Branches(path)
    ensures weight == Product(Branches(path))
  {
    var collected: seq<Branch> := [];
    weight := 1.0;
    var cur := path;
    while cur != Root
      invariant Branches(cur) + Reverse(collected) == Branches(path)
      invariant weight == Product(Reverse(collected))
      decreases cur
    {
      var b := cur.branch;
      UnwindStep(cur, collected, weight);
      cur := cur.prefix;
      weight := weight * b.weight;
      collected := collected + [b];
    }
    assert Branches(cur) == [];
    flat := Reverse(collected);
  }

  /** One turn of the unwinding loop keeps the branches and the weight in
      step with the nested path. */
  lemma UnwindStep(cur: NestedPath, collected: seq<Branch>, weight: real)
    requires cur.Step? && weight == Product(Reverse(collected))
    ensures Branches(cur.prefix) + Reverse(collected + [cur.branch]) == Branches(cur) + Reverse(collected)
    ensures weight * cur.branch.weight == Product(Reverse(collected + [cur.branch]))
  {
    var b := cur.branch;
    ReverseSnoc(collected, b);
    calc {
      Product(Reverse(collected + [b]));
    ==
      Product([b] + Reverse(collected));
    == { assert ([b] + Reverse(collected))[1..] == Reverse(collected); }
      Product(Reverse(collected)) * b.weight;
    }
  }

  /** `enumerate_paths`: each path with its weight and its branches, root
      first. */
  method EnumeratePaths(bs: BranchSet) returns (r: Result<seq<(real, seq<Branch>)>, TreeError>)
    ensures r.Ok? <==> EnumPaths(bs, Root).Ok?
    ensures r.Err? ==> r.error == EnumPaths(bs, Root).error
    ensures r.Ok? ==>
              var paths := EnumPaths(bs, Root).value;
              |r.value| == |paths|
              && forall k :: 0 <= k < |paths| ==>
                   r.value[k] == (Product(Branches(paths[k])), Branches(paths[k]))
  {
    var paths := EnumPaths(bs, Root);
    if paths.Err? {
      return Err(paths.error);
    }
    var out: seq<(real, seq<Branch>)> := [];
    for k := 0 to |paths.value|
      invariant |out| == k
      invariant forall j :: 0 <= j < k ==>
                  out[j] == (Product(Branches(paths.value[j])), Branches(paths.value[j]))
    {
      var weight, flat := Flatten(paths.value[k]);
      out := out + [(weight, flat)];
    }
    r := Ok(out);
  }

  // -------------------------------------------------- what a path looks like

  /** A path as enumeration builds it: a branch enumeration goes through at
      this level, then a path from its child, down to a branch with no
      child. */
  predicate EnumChain(bs: BranchSet, s: seq<Branch>)
    decreases |s|
  {
    && |s| > 0
    && s[0] in EffectiveBranches(bs)
    && (s[0].child.None? ==> |s| == 1)
    && (s[0].child.Some? ==> EnumChain(s[0].child.value, s[1..]))
  }

  /** Every enumerated path extends the prefix it was started with by a
      chain from this branch-set to a leaf. */
  lemma {:induction false} EnumPathsChains(bs: BranchSet, prefix: NestedPath)
    requires EnumPaths(bs, prefix).Ok?
    ensures forall p :: p in EnumPaths(bs, prefix).value ==> Extends(p, prefix, bs)
    decreases bs, 1
  {
    EnumFromChains(bs, 0, prefix);
  }

  predicate Extends(p: NestedPath, prefix: NestedPath, bs: BranchSet) {
    var n := |Branches(prefix)|;
    |Branches(p)| > n && Branches(p)[..n] == Branches(prefix) && EnumChain(bs, Branches(p)[n..])
  }

  lemma {:induction false} EnumFromChains(bs: BranchSet, i: nat, prefix: NestedPath)
    requires EnumFrom(bs, i, prefix).Ok?
    ensures forall p :: p in EnumFrom(bs, i, prefix).value ==> Extends(p, prefix, bs)
    decreases bs, 0, |bs.branches| - i, 1
  {
    if i < Count(bs) {
      var b := EffectiveBranch(bs, i);
      var child := bs.branches[i].child;
      var step := Step(prefix, b);
      var n := |Branches(prefix)|;
      assert b in EffectiveBranches(bs);
      assert Branches(step)[..n] == Branches(prefix) && Branches(step)[n] == b;
      var here := Through(bs, i, prefix).value;
      forall p | p in here
        ensures Extends(p, prefix, bs)
      {
        if child.None? {
          assert Branches(p)[n..] == [b];
        } else {
          EnumPathsChains(child.value, step);
          assert Extends(p, step, child.value);
          var s := Branches(p);
          assert s[..n] == s[..n + 1][..n];
          assert s[n..][1..] == s[n + 1..];
        }
      }
      EnumFromChains(bs, i + 1, prefix);
    }
  }


  /** A nested path is determined by its branches. */
  lemma {:induction false} BranchesInjective(p: NestedPath, q: NestedPath)
    requires Branches(p) == Branches(q)
    ensures p == q
  {
    if p.Step? {
      var n := |Branches(p)| - 1;
      assert Branches(p)[..n] == Branches(p.prefix);
      assert Branches(q)[..n] == Branches(q.prefix);
      BranchesInjective(p.prefix, q.prefix);
    }
  }

  /** Conversely, every chain from this branch-set to a leaf, after the
      prefix, is enumerated: `enumerate_paths` lists all the paths. */
  lemma {:induction false} EnumPathsComplete(bs: BranchSet, prefix: NestedPath, p: NestedPath)
    requires EnumPaths(bs, prefix).Ok? && Extends(p, prefix, bs)
    ensures p in EnumPaths(bs, prefix).value
    decreases bs, 1
  {
    var n := |Branches(prefix)|;
    var first := Branches(p)[n];
    assert first == Branches(p)[n..][0];
    var j: nat;
    if bs.collapsed {
      j := 0;
    } else {
      j :| 0 <= j < |bs.branches| && bs.branches[j] == first;
    }
    EnumFromComplete(bs, 0, prefix, p, j);
  }

  lemma {:induction false} EnumFromComplete(bs: BranchSet, i: nat, prefix: NestedPath, p: NestedPath, j: nat)
    requires EnumFrom(bs, i, prefix).Ok? && Extends(p, prefix, bs)
    requires i <= j < Count(bs) && j < |bs.branches|
    requires EffectiveBranch(bs, j) == Branches(p)[|Branches(prefix)|]
    ensures p in EnumFrom(bs, i, prefix).value
    decreases bs, 0, |bs.branches| - i, 2
  {
    var here := Through(bs, i, prefix).value;
    var rest := EnumFrom(bs, i + 1, prefix);
    assert EnumFrom(bs, i, prefix).value == here + rest.value;
    if j == i {
      ThroughComplete(bs, i, prefix, p);
    } else {
      EnumFromComplete(bs, i + 1, prefix, p, j);
    }
  }

  /** A chain whose first branch is the `i`-th effective branch is among
      the paths through that branch. */
  lemma {:induction false} ThroughComplete(bs: BranchSet, i: nat, prefix: NestedPath, p: NestedPath)
    requires i < |bs.branches| && (bs.collapsed ==> i == 0)
    requires Through(bs, i, prefix).Ok? && Extends(p, prefix, bs)
    requires EffectiveBranch(bs, i) == Branches(p)[|Branches(prefix)|]
    ensures p in Through(bs, i, prefix).value
    decreases bs, 0, |bs.branches| - i, 1
  {
    var n := |Branches(prefix)|;
    var b := EffectiveBranch(bs, i);
    var child := bs.branches[i].child;
    var step := Step(prefix, b);
    var s := Branches(p);
    var tail := s[n..];
    assert tail[0] == b && b.child == child;
    assert Branches(step) == Branches(prefix) + [b] && |Branches(step)| == n + 1;
    if child.None? {
      assert s == s[..n] + tail;
      BranchesInjective(p, step);
    } else {
      assert s[..n + 1] == Branches(prefix) + [b] by {
        assert s[..n + 1] == s[..n] + [s[n]];
      }
      assert s[n + 1..] == tail[1..];
      assert EnumChain(child.value, tail[1..]);
      assert Extends(p, step, child.value);
      EnumPathsComplete(child.value, step, p);
    }
  }

  // ------------------------------------------------ weights add up to one

  /** The weights of the branches, added up. */
  function SumWeights(bs: seq<Branch>): real {
    if bs == [] then 0.0 else bs[0].weight + SumWeights(bs[1..])
  }

  /** A tree enumeration can go through, whose weights form distributions:
      the weights of each branch-set that is not collapsed add up to one,
      and a collapsed one has a branch to copy. */
  predicate Conforming(bs: BranchSet)
    decreases bs
  {
    && (bs.collapsed ==> bs.branches != [])
    && (!bs.collapsed ==> SumWeights(bs.branches) == 1.0)
    && forall b :: b in bs.branches && b.child.Some? ==> Conforming(b.child.value)
  }

  /** The weights of a list of paths, added up. */
  function SumPathWeights(ps: seq<NestedPath>): real {
    if ps == [] then 0.0 else Product(Branches(ps[0])) + SumPathWeights(ps[1..])
  }

  /** The weights of a list of paths past their first `n` branches, added
      up. */
  function RelSum(ps: seq<NestedPath>, n: nat): real {
    if ps == [] then 0.0
    else
      var s := Branches(ps[0]);
      (if n <= |s| then Product(s[n..]) else 0.0) + RelSum(ps[1..], n)
  }

  lemma {:induction false} RelSumZero(ps: seq<NestedPath>)
    ensures RelSum(ps, 0) == SumPathWeights(ps)
  {
    if ps != [] {
      assert Branches(ps[0])[0..] == Branches(ps[0]);
      RelSumZero(ps[1..]);
    }
  }

  lemma {:induction false} RelSumAppend(a: seq<NestedPath>, b: seq<NestedPath>, n: nat)
    ensures RelSum(a + b, n) == RelSum(a, n) + RelSum(b, n)
  {
    if a != [] {
      assert (a + b)[1..] == a[1..] + b;
      assert (a + b)[0] == a[0];
      RelSumAppend(a[1..], b, n);
    } else {
      assert a + b == b;
    }
  }

  /** Paths that share their `n`-th branch weigh, past `n` branches, that
      branch's weight times what they weigh past `n + 1`. */
  lemma {:induction false} ScaleSum(ps: seq<NestedPath>, n: nat, c: Branch)
    requires forall k :: 0 <= k < |ps| ==> n < |Branches(ps[k])| && Branches(ps[k])[n] == c
    ensures RelSum(ps, n) == RelSum(ps, n + 1) * c.weight
  {
    if ps != [] {
      var s := Branches(ps[0]);
      var tail := ps[1..];
      assert forall k :: 0 <= k < |tail| ==> tail[k] == ps[k + 1];
      calc {
        RelSum(ps, n);
      == { RelSumHead(ps, n); }
        Product(s[n..]) + RelSum(tail, n);
      == { ProductFrom(s, n, c); ScaleSum(tail, n, c); }
        Product(s[n + 1..]) * c.weight + RelSum(tail, n + 1) * c.weight;
      == { Distribute(Product(s[n + 1..]), RelSum(tail, n + 1), c.weight); }
        (Product(s[n + 1..]) + RelSum(tail, n + 1)) * c.weight;
      == { RelSumHead(ps, n + 1); }
        RelSum(ps, n + 1) * c.weight;
      }
    }
  }

  lemma RelSumHead(ps: seq<NestedPath>, n: nat)
    requires ps != [] && n <= |Branches(ps[0])|
    ensures RelSum(ps, n) == Product(Branches(ps[0])[n..]) + RelSum(ps[1..], n)
  {
  }

  lemma ProductFrom(s: seq<Branch>, n: nat, c: Branch)
    requires n < |s| && s[n] == c
    ensures Product(s[n..]) == Product(s[n + 1..]) * c.weight
  {
    assert s[n..][1..] == s[n + 1..];
  }

  lemma Distribute(x: real, y: real, w: real)
    ensures x * w + y * w == (x + y) * w
  {
  }

  lemma One(w: real)
    ensures 1.0 * w == w
  {
  }

  /** The paths through the `i`-th branch weigh, past the prefix, the
      weight of that branch. */
  lemma {:induction false} HereWeights(bs: BranchSet, i: nat, prefix: NestedPath)
    requires Conforming(bs)
    requires i < Count(bs) == |EffectiveBranches(bs)| <= |bs.branches|
    ensures Through(bs, i, prefix).Ok?
    ensures RelSum(Through(bs, i, prefix).value, |Branches(prefix)|) == EffectiveBranches(bs)[i].weight
    decreases bs, 0, |bs.branches| - i, 0
  {
    var b := EffectiveBranch(bs, i);
    assert EffectiveBranches(bs)[i] == b;
    var child := bs.branches[i].child;
    var step := Step(prefix, b);
    var n := |Branches(prefix)|;
    One(b.weight);
    if child.None? {
      var s := Branches(step);
      assert s[n..] == [b];
      assert Product([b]) == Product([]) * b.weight;
      assert RelSum([step], n) == Product(s[n..]) + RelSum([], n);
    } else {
      assert bs.branches[i] in bs.branches;
      EnumPathsWeights(child.value, step);
      EnumPathsChains(child.value, step);
      var ps := EnumPaths(child.value, step).value;
      forall k | 0 <= k < |ps|
        ensures n < |Branches(ps[k])| && Branches(ps[k])[n] == b
      {
        var p := ps[k];
        assert p in ps;
        assert Extends(p, step, child.value);
        assert Branches(p)[..n + 1][n] == Branches(step)[n];
      }
      ScaleSum(ps, n, b);
    }
  }

  /** In a conforming tree, enumeration from a prefix succeeds and its
      paths weigh 1 in total past the prefix. */
  lemma {:induction false} EnumPathsWeights(bs: BranchSet, prefix: NestedPath)
    requires Conforming(bs)
    ensures EnumPaths(bs, prefix).Ok?
    ensures RelSum(EnumPaths(bs, prefix).value, |Branches(prefix)|) == 1.0
    decreases bs, 1
  {
    EnumFromWeights(bs, 0, prefix);
    var eff := EffectiveBranches(bs);
    assert eff[0..] == eff;
    if bs.collapsed {
      assert SumWeights(eff) == 1.0 + SumWeights([]);
    }
  }

  lemma {:induction false} EnumFromWeights(bs: BranchSet, i: nat, prefix: NestedPath)
    requires Conforming(bs)
    requires i <= Count(bs)
    ensures EnumFrom(bs, i, prefix).Ok?
    ensures RelSum(EnumFrom(bs, i, prefix).value, |Branches(prefix)|) == SumWeights(EffectiveBranches(bs)[i..])
    decreases bs, 0, |bs.branches| - i, 1
  {
    EffectiveCount(bs);
    var eff := EffectiveBranches(bs);
    var n := |Branches(prefix)|;
    if i < Count(bs) {
      HereWeights(bs, i, prefix);
      EnumFromWeights(bs, i + 1, prefix);
      var here := Through(bs, i, prefix).value;
      var rest := EnumFrom(bs, i + 1, prefix).value;
      EnumFromStep(bs, i, prefix);
      RelSumAppend(here, rest, n);
      SumWeightsStep(eff, i);
    } else {
      EnumFromEnd(bs, i, prefix);
      assert eff[i..] == [];
    }
  }

  /** One step of enumeration: the paths through the `i`-th branch, then
      the rest. */
  lemma EnumFromStep(bs: BranchSet, i: nat, prefix: NestedPath)
    requires i < Count(bs) && i < |bs.branches|
    requires Through(bs, i, prefix).Ok? && EnumFrom(bs, i + 1, prefix).Ok?
    ensures EnumFrom(bs, i, prefix) == Ok(Through(bs, i, prefix).value + EnumFrom(bs, i + 1, prefix).value)
  {
  }

  /** Past the last branch nothing is left to enumerate. */
  lemma EnumFromEnd(bs: BranchSet, i: nat, prefix: NestedPath)
    requires bs.collapsed ==> bs.branches != []
    requires i >= Count(bs)
    ensures EnumFrom(bs, i, prefix) == Ok([])
  {
  }

  lemma EffectiveCount(bs: BranchSet)
    requires bs.collapsed ==> bs.branches != []
    ensures |EffectiveBranches(bs)| == Count(bs) <= |bs.branches|
  {
  }

  lemma SumWeightsStep(s: seq<Branch>, i: nat)
    requires i < |s|
    ensures SumWeights(s[i..]) == s[i].weight + SumWeights(s[i + 1..])
  {
    assert s[i..][1..] == s[i + 1..];
  }

  /** In a conforming tree the weights of all enumerated paths add up to 1. */
  lemma EnumeratedWeightsSumToOne(bs: BranchSet)
    requires Conforming(bs)
    ensures EnumPaths(bs, Root).Ok?
    ensures SumPathWeights(EnumPaths(bs, Root).value) == 1.0
  {
    EnumPathsWeights(bs, Root);
    RelSumZero(EnumPaths(bs, Root).value);
  }

  // ------------------------------------------------------------ sampling

  /** The weight `sample` reads from a branch: its float weight. */
  function BranchWeight(b: Branch): Sampling.Weight {
    Sampling.FloatWeight(b.weight)
  }

  /** The weights of the branches, as `sample` collects them. */
  function BranchWeights(branches: seq<Branch>): (p: seq<real>)
    ensures |p| == |branches| && forall i :: 0 <= i < |p| ==> p[i] == branches[i].weight
  {
    seq(|branches|, i requires 0 <= i < |branches| => branches[i].weight)
  }

  /** Branch weights are floats, so `sample` finds all of them. */
  lemma WeightsOfBranches(branches: seq<Branch>)
    ensures Sampling.Weights(branches, BranchWeight) == Some(BranchWeights(branches))
  {
    var w := Sampling.Weights(branches, BranchWeight);
    assert forall i :: 0 <= i < |branches| ==> Sampling.WeightValue(BranchWeight(branches[i])).Some?;
    assert w.value == BranchWeights(branches);
  }

  /** The branch `BranchSet.sample` takes at one level: the first branch of
      a collapsed branch-set, else the one `sample(branches, 1, seed)`
      draws. */
  function Choose(bs: BranchSet, seed: int, stream: Sampling.Stream): (r: Result<Branch, TreeError>)
    ensures r.Ok? ==> r.value in bs.branches
  {
    if bs.collapsed then
      if bs.branches == [] then Err(NoBranches) else Ok(bs.branches[0])
    else
      var drawn := Sampling.SampleSpec(bs.branches, BranchWeight, 1, seed, stream);
      if drawn.Err? then Err(SamplingFailed(drawn.error))
      else
        Sampling.SampleShape(bs.branches, BranchWeight, 1, seed, stream);
        Ok(drawn.value[0])
  }

  /** The branches `BranchSet.sample(seed)` returns: the chosen branch at
      each level, down to a branch with no child. */
  function SampledPath(bs: BranchSet, seed: int, stream: Sampling.Stream): Result<seq<Branch>, TreeError>
    decreases bs
  {
    var b :- Choose(bs, seed, stream);
    if b.child.None? then Ok([b])
    else
      var rest :- SampledPath(b.child.value, seed, stream);
      Ok([b] + rest)
  }

  /** `BranchSet.sample(seed)`: walks down the tree, choosing a branch at
      each level with the same seed. */
  method SampleBranches(bs: BranchSet, seed: int, stream: Sampling.Stream) returns (r: Result<seq<Branch>, TreeError>)
    ensures r == SampledPath(bs, seed, stream)
  {
    var branches: seq<Branch> := [];
    var bset := bs;
    var whole := SampledPath(bs, seed, stream);
    assert whole.Ok? ==> [] + whole.value == whole.value;
    while true
      invariant SampledPath(bs, seed, stream) == Prepend(branches, SampledPath(bset, seed, stream))
      decreases bset
    {
      var branch: Branch;
      if bset.collapsed {
        if bset.branches == [] {
          return Err(NoBranches);
        }
        branch := bset.branches[0];
      } else {
        var drawn := Sampling.Sample(bset.branches, BranchWeight, 1, seed, stream);
        if drawn.Err? {
          return Err(SamplingFailed(drawn.error));
        }
        Sampling.SampleShape(bset.branches, BranchWeight, 1, seed, stream);
        branch := drawn.value[0];
      }
      assert Choose(bset, seed, stream) == Ok(branch);
      if branch.child.None? {
        return Ok(branches + [branch]);
      }
      PrependTwice(branches, [branch], SampledPath(branch.child.value, seed, stream));
      branches := branches + [branch];
      bset := branch.child.value;
    }
  }

  /** A sampled path as the walk builds it: at each level a branch of the
      level's branch-set, the first one if the set is collapsed and else
      the one whose cumulative-weight interval holds the first draw after
      seeding, the same draw at every level; then the child's path, down
      to a branch with no child. */
  predicate SampledChain(bs: BranchSet, s: seq<Branch>, u: real)
    decreases |s|
  {
    && |s| > 0
    && s[0] in bs.branches
    && (bs.collapsed ==> s[0] == bs.branches[0])
    && (!bs.collapsed ==>
          var k := Sampling.Pick(BranchWeights(bs.branches), u);
          k < |bs.branches| && s[0] == bs.branches[k])
    && (s[0].child.None? ==> |s| == 1)
    && (s[0].child.Some? ==> SampledChain(s[0].child.value, s[1..], u))
  }

  /** The branch chosen at one level, when the choice succeeds. */
  lemma ChooseDraws(bs: BranchSet, seed: int, stream: Sampling.Stream)
    requires Choose(bs, seed, stream).Ok?
    ensures var b := Choose(bs, seed, stream).value;
            && (bs.collapsed ==> b == bs.branches[0])
            && (!bs.collapsed ==>
                  Sampling.Pick(BranchWeights(bs.branches), stream(seed, 0)) < |bs.branches|
                  && b == bs.branches[Sampling.Pick(BranchWeights(bs.branches), stream(seed, 0))])
  {
    if !bs.collapsed {
      WeightsOfBranches(bs.branches);
      Sampling.PickInRangeAll(BranchWeights(bs.branches), 1, seed, stream);
    }
  }

  /** A sampled path is a chain from the branch-set to a leaf that takes the
      first branch of each collapsed set and, at every other level, the
      branch picked by the first draw after seeding. */
  lemma {:induction false} SampledPathChain(bs: BranchSet, seed: int, stream: Sampling.Stream)
    requires SampledPath(bs, seed, stream).Ok?
    ensures SampledChain(bs, SampledPath(bs, seed, stream).value, stream(seed, 0))
    decreases bs
  {
    var b := Choose(bs, seed, stream).value;
    ChooseDraws(bs, seed, stream);
    if b.child.Some? {
      SampledPathChain(b.child.value, seed, stream);
      var s := SampledPath(bs, seed, stream).value;
      assert s[1..] == SampledPath(b.child.value, seed, stream).value;
    }
  }

  /** Sampling fails only for a collapsed branch-set without branches or a
      level whose weights `sample` refuses. */
  lemma {:induction false} SampledPathFails(bs: BranchSet, seed: int, stream: Sampling.Stream)
    requires SampledPath(bs, seed, stream).Err?
    ensures var e := SampledPath(bs, seed, stream).error;
            e == NoBranches || (e.SamplingFailed? && e.error != Sampling.MissingWeightKey)
    decreases bs
  {
    var c := Choose(bs, seed, stream);
    if c.Ok? {
      SampledPathFails(c.value.child.value, seed, stream);
    } else if !bs.collapsed {
      WeightsOfBranches(bs.branches);
    }
  }
}
