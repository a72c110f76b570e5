/**
  The logic tree: branch-sets owning ordered, weighted branches, each of
  which may own a child branch-set. Lookup of a branch by id and
  `get_bset_values`, the walk that follows a list of branch ids down the
  tree.
*/
module LogicTree {
  import opened Wrappers
  import opened Uncertainty
  import opened Sources
  import Sampling

  /** A `<logicTreeBranch />`: the id of its branch-set, its own id, its
      weight, its parsed value and the branch-set it leads to, if any. */
  datatype Branch = Branch(bsId: string, branchId: string, weight: real, value: Value, child: Option<BranchSet>)

  /** A `<logicTreeBranchSet />`. */
  datatype BranchSet = BranchSet(utype: UType, filters: seq<Filter>, collapsed: bool, branches: seq<Branch>)

  /** What walking the tree raises: the `KeyError` of an unknown branch id,
      the `IndexError` of a collapsed branch-set without branches, and the
      errors of sampling. */
  datatype TreeError =
    | UnknownBranch(branchId: string)
    | NoBranches
    | SamplingFailed(error: Sampling.SampleError)

  /** `Branch(bs_id, branch_id, weight, value)`: a new branch leads nowhere. */
  function NewBranch(bsId: string, branchId: string, weight: real, value: Value): (b: Branch)
    ensures b.child.None?
    ensures b.bsId == bsId && b.branchId == branchId && b.weight == weight && b.value == value
  {
    Branch(bsId, branchId, weight, value, None)
  }

  /** `BranchSet(uncertainty_type, filters, collapsed)`: no branches yet, and
      no filters when none are given. */
  function NewBranchSet(utype: UType, filters: Option<seq<Filter>>, collapsed: bool): (bs: BranchSet)
    ensures bs.branches == [] && bs.utype == utype && bs.collapsed == collapsed
    ensures filters.None? ==> bs.filters == []
    ensures filters.Some? ==> bs.filters == filters.value
  {
    BranchSet(utype, if filters.None? then [] else filters.value, collapsed, [])
  }

  /** `filter_source` of a branch-set. */
  function BranchSetFilter(bs: BranchSet, src: Option<Source>): Result<bool, FilterError> {
    FilterSource(bs.filters, src)
  }

  // ---------------------------------------------------------------- lookup

  /** The position of the first branch with the given id, `|branches|` if
      there is none. */
  function FirstWithId(branches: seq<Branch>, id: string): (k: nat)
    ensures k <= |branches|
    ensures k < |branches| ==> branches[k].branchId == id
    ensures forall j :: 0 <= j < k ==> branches[j].branchId != id
  {
    if branches == [] || branches[0].branchId == id then 0
    else 1 + FirstWithId(branches[1..], id)
  }

  /** `bset[branch_id]`: the first branch with that id. */
  function Lookup(bs: BranchSet, id: string): (r: Result<Branch, TreeError>)
    ensures r.Ok? <==> exists i :: 0 <= i < |bs.branches| && bs.branches[i].branchId == id
    ensures r.Ok? ==> r.value.branchId == id
    ensures r.Err? ==> r.error == UnknownBranch(id)
  {
    var k := FirstWithId(bs.branches, id);
    if k < |bs.branches| then Ok(bs.branches[k]) else Err(UnknownBranch(id))
  }

  /** The branch found is one of the set's branches, and no branch before
      it has the same id. */
  lemma LookupFirst(bs: BranchSet, id: string)
    requires Lookup(bs, id).Ok?
    ensures Lookup(bs, id).value in bs.branches
    ensures exists i :: 0 <= i < |bs.branches| && bs.branches[i] == Lookup(bs, id).value
                        && forall j :: 0 <= j < i ==> bs.branches[j].branchId != id
  {
    var k := FirstWithId(bs.branches, id);
    assert bs.branches[k] == Lookup(bs, id).value;
  }

  // -------------------------------------------------------- get_bset_values

  /** The pairs `get_bset_values` returns: at each level the branch-set and
      the value of the branch the next id names, until the ids run out or
      the named branch leads nowhere. */
  function BsetValues(bs: BranchSet, path: seq<string>): Result<seq<(BranchSet, Value)>, TreeError>
    decreases |path|
  {
    if path == [] then Ok([])
    else
      var b :- Lookup(bs, path[0]);
      if b.child.None? then Ok([(bs, b.value)])
      else
        var rest :- BsetValues(b.child.value, path[1..]);
        Ok([(bs, b.value)] + rest)
  }

  /** `pairs` followed by the outcome of the rest of the walk. */
  function Prepend<T>(pairs: seq<T>, r: Result<seq<T>, TreeError>): Result<seq<T>, TreeError> {
    if r.Ok? then Ok(pairs + r.value) else r
  }

  lemma PrependTwice<T>(a: seq<T>, b: seq<T>, r: Result<seq<T>, TreeError>)
    ensures Prepend(a, Prepend(b, r)) == Prepend(a + b, r)
  {
    if r.Ok? {
      assert a + (b + r.value) == (a + b) + r.value;
    }
  }

  /** `get_bset_values`. */
  method GetBsetValues(bs: BranchSet, ltpath: seq<string>) returns (r: Result<seq<(BranchSet, Value)>, TreeError>)
    ensures r == BsetValues(bs, ltpath)
  {
    var pairs: seq<(BranchSet, Value)> := [];
    var bset := bs;
    var rest := ltpath;
    var whole := BsetValues(bs, ltpath);
    assert whole.Ok? ==> [] + whole.value == whole.value;
    while rest != []
      invariant BsetValues(bs, ltpath) == Prepend(pairs, BsetValues(bset, rest))
      decreases |rest|
    {
      var found := Lookup(bset, rest[0]);
      if found.Err? {
        return Err(found.error);
      }
      var pair := (bset, found.value.value);
      if found.value.child.None? {
        return Ok(pairs + [pair]);
      }
      PrependTwice(pairs, [pair], BsetValues(found.value.child.value, rest[1..]));
      pairs := pairs + [pair];
      bset := found.value.child.value;
      rest := rest[1..];
    }
    assert pairs + [] == pairs;
    r := Ok(pairs);
  }

  /** Level `i` of the walk, on its own. */
  lemma {:induction false} BsetValuesLevel(bs: BranchSet, path: seq<string>, i: nat)
    requires BsetValues(bs, path).Ok? && i < |BsetValues(bs, path).value|
    ensures var pairs := BsetValues(bs, path).value;
            && i < |path|
            && (i == 0 ==> pairs[0].0 == bs)
            && Lookup(pairs[i].0, path[i]).Ok?
            && pairs[i].1 == Lookup(pairs[i].0, path[i]).value.value
            && (i + 1 < |pairs| ==> Lookup(pairs[i].0, path[i]).value.child == Some(pairs[i + 1].0))
            && (i + 1 == |pairs| < |path| ==> Lookup(pairs[i].0, path[i]).value.child.None?)
    decreases |path|
  {
    var b := Lookup(bs, path[0]).value;
    if b.child.Some? {
      var rest := BsetValues(b.child.value, path[1..]).value;
      var pairs := BsetValues(bs, path).value;
      assert pairs == [(bs, b.value)] + rest;
      if i > 0 {
        BsetValuesLevel(b.child.value, path[1..], i - 1);
        assert pairs[i] == rest[i - 1] && path[i] == path[1..][i - 1];
        assert i + 1 < |pairs| ==> pairs[i + 1] == rest[i];
      } else if rest != [] {
        BsetValuesLevel(b.child.value, path[1..], 0);
      }
    }
  }

  /** The walk takes at most one pair per id. Each pair holds the branch-set
      of its level and the value of the branch named by the id of that
      level; the next level is that branch's child. The walk stops early
      only at a branch with no child. */
  lemma BsetValuesChain(bs: BranchSet, path: seq<string>)
    requires BsetValues(bs, path).Ok?
    ensures var pairs := BsetValues(bs, path).value;
            && |pairs| <= |path|
            && (path != [] ==> pairs != [] && pairs[0].0 == bs)
            && (forall i :: 0 <= i < |pairs| ==>
                  Lookup(pairs[i].0, path[i]).Ok? && pairs[i].1 == Lookup(pairs[i].0, path[i]).value.value)
            && (forall i :: 0 <= i < |pairs| - 1 ==>
                  Lookup(pairs[i].0, path[i]).value.child == Some(pairs[i + 1].0))
            && (0 < |pairs| < |path| ==> Lookup(pairs[|pairs| - 1].0, path[|pairs| - 1]).value.child.None?)
  {
    var pairs := BsetValues(bs, path).value;
    if pairs != [] {
      BsetValuesLevel(bs, path, |pairs| - 1);
      BsetValuesLevel(bs, path, 0);
    }
    forall i | 0 <= i < |pairs|
      ensures Lookup(pairs[i].0, path[i]).Ok? && pairs[i].1 == Lookup(pairs[i].0, path[i]).value.value
      ensures i < |pairs| - 1 ==> Lookup(pairs[i].0, path[i]).value.child == Some(pairs[i + 1].0)
    {
      BsetValuesLevel(bs, path, i);
    }
  }

  /** The level the walk reaches after following `ids` from `bs`: `None`
      when an id is missing or a branch on the way has no child. */
  function LevelAfter(bs: BranchSet, ids: seq<string>): Option<BranchSet>
    decreases |ids|
  {
    if ids == [] then Some(bs)
    else
      match Lookup(bs, ids[0])
      case Err(_) => None
      case Ok(b) => if b.child.None? then None else LevelAfter(b.child.value, ids[1..])
  }

  /** A failed walk is the `KeyError` of an id that is missing at the level
      the ids before it lead to. */
  lemma {:induction false} BsetValuesFails(bs: BranchSet, path: seq<string>)
    requires BsetValues(bs, path).Err?
    ensures exists i :: 0 <= i < |path| && LevelAfter(bs, path[..i]).Some?
                        && Lookup(LevelAfter(bs, path[..i]).value, path[i]).Err?
                        && BsetValues(bs, path).error == UnknownBranch(path[i])
    decreases |path|
  {
    var b := Lookup(bs, path[0]);
    if b.Err? {
      assert path[..0] == [];
    } else {
      var child := b.value.child.value;
      BsetValuesFails(child, path[1..]);
      var k :| 0 <= k < |path[1..]| && LevelAfter(child, path[1..][..k]).Some?
               && Lookup(LevelAfter(child, path[1..][..k]).value, path[1..][k]).Err?
               && BsetValues(child, path[1..]).error == UnknownBranch(path[1..][k]);
      assert path[..k + 1][0] == path[0] && path[..k + 1][1..] == path[1..][..k];
      assert LevelAfter(bs, path[..k + 1]) == LevelAfter(child, path[1..][..k]);
      assert path[k + 1] == path[1..][k];
    }
  }

  /** Conversely, an id missing at the level the ids before it lead to makes
      the walk fail with the `KeyError` of that id. */
  lemma {:induction false} BsetValuesFailsAt(bs: BranchSet, path: seq<string>, i: nat)
    requires i < |path| && LevelAfter(bs, path[..i]).Some?
    requires Lookup(LevelAfter(bs, path[..i]).value, path[i]).Err?
    ensures BsetValues(bs, path) == Err(UnknownBranch(path[i]))
    decreases i
  {
    if i > 0 {
      assert path[..i][0] == path[0] && path[..i][1..] == path[1..][..i - 1];
      var child := Lookup(bs, path[0]).value.child.value;
      assert path[i] == path[1..][i - 1];
      BsetValuesFailsAt(child, path[1..], i - 1);
    } else {
      assert path[..0] == [];
    }
  }
}
