/**
  `apply_uncertainties(bset_values, src_group)`: a copy of a source group
  whose sources went through the uncertainties of a logic-tree path. A
  source that no branch-set lets through is copied as it is; otherwise the
  uncertainties of the branch-sets that let it through are applied in
  order, a collapsed branch-set turning the source into one copy per
  branch, each scaled by the branch's weight.
*/
module Apply {
  import opened Wrappers
  import opened Uncertainty
  import opened Sources
  import opened LogicTree

  /** A group of sources and the number of changes made to it. */
  class SourceGroup {
    var name: string
    var trt: string
    var sources: seq<Source>
    var changes: int

    constructor (name: string, trt: string, sources: seq<Source>, changes: int)
      ensures this.name == name && this.trt == trt && this.sources == sources && this.changes == changes
    {
      this.name := name;
      this.trt := trt;
      this.sources := sources;
      this.changes := changes;
    }
  }

  /** What `apply_uncertainties` raises: the errors of a filter or of
      applying an uncertainty. */
  datatype GroupError = FilterFailed(filterError: FilterError) | ApplyFailed(applyError: ApplyError)

  // ------------------------------------------------------------ the filters

  /** `oks`: whether each branch-set lets the source through, in order; the
      first filter that raises aborts. */
  function Oks(pairs: seq<(BranchSet, Value)>, src: Source): (r: Result<seq<bool>, FilterError>)
    ensures r.Ok? ==> |r.value| == |pairs|
  {
    if pairs == [] then Ok([])
    else
      var n := |pairs| - 1;
      var front := Oks(pairs[..n], src);
      if front.Err? then Err(front.error)
      else
        var last := BranchSetFilter(pairs[n].0, Some(src));
        if last.Err? then Err(last.error) else Ok(front.value + [last.value])
  }

  /** `sum(oks)`: the number of branch-sets that let the source through. */
  function CountTrue(oks: seq<bool>): nat {
    if oks == [] then 0 else (if oks[0] then 1 else 0) + CountTrue(oks[1..])
  }

  /** The sum of the filters is zero exactly when none lets the source
      through. */
  lemma {:induction false} CountTrueZero(oks: seq<bool>)
    ensures CountTrue(oks) == 0 <==> true !in oks
  {
    if oks != [] {
      CountTrueZero(oks[1..]);
      assert oks == [oks[0]] + oks[1..];
    }
  }

  // ------------------------------------------------ one source, one pair

  /** What the inner loop has built so far for one source: the working copy
      the plain uncertainties modify, whether that copy is in the output
      list, the copies collapsed branch-sets added after it, and the
      changes counted. The output list holds the working copy by
      reference, so it shows every later modification. */
  datatype Expansion = Expansion(work: Source, listed: bool, copies: seq<Source>, changes: int)

  /** The list of sources an expansion stands for. */
  function Output(e: Expansion): seq<Source> {
    (if e.listed then [e.work] else []) + e.copies
  }

  /** The copies a collapsed branch-set makes of a source: one per branch,
      scaled by the branch's weight, with the branch's value applied. */
  function CollapsedCopies(utype: UType, src: Source, branches: seq<Branch>): (r: Result<seq<Source>, ApplyError>)
    ensures r.Ok? ==> |r.value| == |branches|
  {
    if branches == [] then Ok([])
    else
      var n := |branches| - 1;
      var front := CollapsedCopies(utype, src, branches[..n]);
      if front.Err? then Err(front.error)
      else
        var last := ApplyUncertainty(utype, src.(scalingRate := branches[n].weight), branches[n].value);
        if last.Err? then Err(last.error) else Ok(front.value + [last.value])
  }

  /** One pass of the inner loop, for a branch-set that lets the source
      through. A collapsed set adds its copies and counts the whole output
      list so far; any other set lists the working copy if the list is
      still empty, applies its value to it and counts one change. */
  function ExpandStep(e: Expansion, bs: BranchSet, value: Value): Result<Expansion, ApplyError> {
    if bs.collapsed then
      if e.work.code == 'N' then Err(CollapseNotImplemented(e.work.sourceId))
      else
        var added :- CollapsedCopies(bs.utype, e.work, bs.branches);
        var e' := e.(copies := e.copies + added);
        Ok(e'.(changes := e.changes + |Output(e')|))
    else
      var work :- ApplyUncertainty(bs.utype, e.work, value);
      Ok(Expansion(work, e.listed || Output(e) == [], e.copies, e.changes + 1))
  }

  /** The inner loop from a given state, over the pairs and their `oks`. */
  function Expand(pairs: seq<(BranchSet, Value)>, oks: seq<bool>, e: Expansion): Result<Expansion, ApplyError>
    requires |oks| == |pairs|
    decreases |pairs|
  {
    if pairs == [] then Ok(e)
    else
      var e' :- if oks[0] then ExpandStep(e, pairs[0].0, pairs[0].1) else Ok(e);
      Expand(pairs[1..], oks[1..], e')
  }

  /** The sources one source turns into, and the changes counted for it. */
  function SourceSpec(pairs: seq<(BranchSet, Value)>, src: Source): Result<(seq<Source>, int), GroupError> {
    match Oks(pairs, src)
    case Err(fe) => Err(FilterFailed(fe))
    case Ok(oks) =>
      if CountTrue(oks) == 0 then Ok(([src], 0))
      else
        match Expand(pairs, oks, Expansion(src, false, [], 0))
        case Err(ae) => Err(ApplyFailed(ae))
        case Ok(e) => Ok((Output(e), e.changes))
  }

  /** The sources of a group, each expanded in order, and the changes
      counted for all of them; the first error aborts. */
  function GroupSpec(pairs: seq<(BranchSet, Value)>, sources: seq<Source>): Result<(seq<Source>, int), GroupError> {
    if sources == [] then Ok(([], 0))
    else
      var n := |sources| - 1;
      var front :- GroupSpec(pairs, sources[..n]);
      var last :- SourceSpec(pairs, sources[n]);
      Ok((front.0 + last.0, front.1 + last.1))
  }

  // ------------------------------------------------------------ the methods

  /** The copies of the inner loop for a collapsed branch-set. */
  method CopyBranches(utype: UType, src: Source, branches: seq<Branch>) returns (r: Result<seq<Source>, ApplyError>)
    ensures r == CollapsedCopies(utype, src, branches)
  {
    var added: seq<Source> := [];
    for j := 0 to |branches|
      invariant CollapsedCopies(utype, src, branches[..j]) == Ok(added)
    {
      CopiesStep(utype, src, branches, j);
      var newsrc := src.(scalingRate := branches[j].weight);
      var applied := ApplyUncertainty(utype, newsrc, branches[j].value);
      if applied.Err? {
        CopiesPrefix(utype, src, branches, j + 1);
        return Err(applied.error);
      }
      added := added + [applied.value];
    }
    assert branches[..|branches|] == branches;
    r := Ok(added);
  }

  /** The first loop of `apply_uncertainties` for one source: the filter
      of every branch-set. */
  method FilterAll(pairs: seq<(BranchSet, Value)>, source: Source) returns (r: Result<seq<bool>, FilterError>)
    ensures r == Oks(pairs, source)
  {
    var oks: seq<bool> := [];
    for i := 0 to |pairs|
      invariant Oks(pairs[..i], source) == Ok(oks)
    {
      assert pairs[..i + 1][..i] == pairs[..i];
      var ok := BranchSetFilter(pairs[i].0, Some(source));
      if ok.Err? {
        OksPrefix(pairs, source, i + 1);
        return Err(ok.error);
      }
      oks := oks + [ok.value];
    }
    assert pairs[..|pairs|] == pairs;
    r := Ok(oks);
  }

  /** One pass of the second loop, for a branch-set that lets the source
      through. */
  method ApplyPair(e: Expansion, bset: BranchSet, value: Value) returns (r: Result<Expansion, ApplyError>)
    ensures r == ExpandStep(e, bset, value)
  {
    if bset.collapsed {
      if e.work.code == 'N' {
        return Err(CollapseNotImplemented(e.work.sourceId));
      }
      var added := CopyBranches(bset.utype, e.work, bset.branches);
      if added.Err? {
        return Err(added.error);
      }
      var copies := e.copies + added.value;
      var count := |Output(e.(copies := copies))|;
      r := Ok(e.(copies := copies, changes := e.changes + count));
    } else {
      var listed := e.listed;
      if !listed && e.copies == [] {
        listed := true;
      }
      var applied := ApplyUncertainty(bset.utype, e.work, value);
      if applied.Err? {
        return Err(applied.error);
      }
      r := Ok(Expansion(applied.value, listed, e.copies, e.changes + 1));
    }
  }

  /** The loops of `apply_uncertainties` for one source. */
  method ExpandSource(pairs: seq<(BranchSet, Value)>, source: Source) returns (r: Result<(seq<Source>, int), GroupError>)
    ensures r == SourceSpec(pairs, source)
  {
    var filtered := FilterAll(pairs, source);
    if filtered.Err? {
      return Err(FilterFailed(filtered.error));
    }
    var oks := filtered.value;
    if CountTrue(oks) == 0 {
      return Ok(([source], 0));
    }
    var e := Expansion(source, false, [], 0);
    for i := 0 to |pairs|
      invariant Expand(pairs, oks, Expansion(source, false, [], 0)) == Expand(pairs[i..], oks[i..], e)
    {
      assert pairs[i..][1..] == pairs[i + 1..] && oks[i..][1..] == oks[i + 1..];
      if oks[i] {
        var next := ApplyPair(e, pairs[i].0, pairs[i].1);
        if next.Err? {
          return Err(ApplyFailed(next.error));
        }
        e := next.value;
      }
    }
    assert pairs[|pairs|..] == [];
    r := Ok((Output(e), e.changes));
  }

  /** `apply_uncertainties`: a new group with the other attributes of the
      given one, its sources expanded one by one and its changes counted
      from zero. The given group is left as it is. */
  method ApplyUncertainties(pairs: seq<(BranchSet, Value)>, group: SourceGroup) returns (r: Result<SourceGroup, GroupError>)
    ensures r.Ok? <==> GroupSpec(pairs, group.sources).Ok?
    ensures r.Err? ==> r.error == GroupSpec(pairs, group.sources).error
    ensures r.Ok? ==>
              && fresh(r.value)
              && r.value.name == group.name && r.value.trt == group.trt
              && r.value.sources == GroupSpec(pairs, group.sources).value.0
              && r.value.changes == GroupSpec(pairs, group.sources).value.1
  {
    var sg := new SourceGroup(group.name, group.trt, [], 0);
    var input := group.sources;
    for i := 0 to |input|
      invariant GroupSpec(pairs, input[..i]) == Ok((sg.sources, sg.changes))
      invariant sg.name == group.name && sg.trt == group.trt && input == group.sources
    {
      GroupStep(pairs, input, i);
      var expanded := ExpandSource(pairs, input[i]);
      if expanded.Err? {
        GroupPrefix(pairs, input, i + 1);
        return Err(expanded.error);
      }
      sg.sources := sg.sources + expanded.value.0;
      sg.changes := sg.changes + expanded.value.1;
    }
    assert input[..|input|] == input;
    r := Ok(sg);
  }

  // ------------------------------------------------ errors in a prefix

  lemma {:induction false} OksPrefix(pairs: seq<(BranchSet, Value)>, src: Source, i: nat)
    requires i <= |pairs| && Oks(pairs[..i], src).Err?
    ensures Oks(pairs, src) == Err(Oks(pairs[..i], src).error)
  {
    if i < |pairs| {
      var n := |pairs| - 1;
      assert pairs[..n][..i] == pairs[..i];
      OksPrefix(pairs[..n], src, i);
    } else {
      assert pairs[..i] == pairs;
    }
  }

  /** One more branch: its copy is appended, or its error ends the copies. */
  lemma CopiesStep(utype: UType, src: Source, branches: seq<Branch>, j: nat)
    requires j < |branches| && CollapsedCopies(utype, src, branches[..j]).Ok?
    ensures var last := ApplyUncertainty(utype, src.(scalingRate := branches[j].weight), branches[j].value);
            CollapsedCopies(utype, src, branches[..j + 1])
            == if last.Err? then Err(last.error) else Ok(CollapsedCopies(utype, src, branches[..j]).value + [last.value])
  {
    assert branches[..j + 1][..j] == branches[..j];
  }

  /** One more source: its expansion is appended, or its error ends the
      group. */
  lemma GroupStep(pairs: seq<(BranchSet, Value)>, sources: seq<Source>, i: nat)
    requires i < |sources| && GroupSpec(pairs, sources[..i]).Ok?
    ensures var front := GroupSpec(pairs, sources[..i]).value;
            var last := SourceSpec(pairs, sources[i]);
            GroupSpec(pairs, sources[..i + 1])
            == if last.Err? then Err(last.error) else Ok((front.0 + last.value.0, front.1 + last.value.1))
  {
    assert sources[..i + 1][..i] == sources[..i];
  }

  lemma CopiesPrefix(utype: UType, src: Source, branches: seq<Branch>, j: nat)
    requires j <= |branches| && CollapsedCopies(utype, src, branches[..j]).Err?
    ensures CollapsedCopies(utype, src, branches) == Err(CollapsedCopies(utype, src, branches[..j]).error)
  {
    for k := j to |branches|
      invariant CollapsedCopies(utype, src, branches[..k]) == CollapsedCopies(utype, src, branches[..j])
    {
      CopiesErrStep(utype, src, branches, k);
    }
    assert branches[..|branches|] == branches;
  }

  /** An error of a prefix is the error of the prefix one longer. */
  lemma CopiesErrStep(utype: UType, src: Source, branches: seq<Branch>, k: nat)
    requires k < |branches| && CollapsedCopies(utype, src, branches[..k]).Err?
    ensures CollapsedCopies(utype, src, branches[..k + 1]) == CollapsedCopies(utype, src, branches[..k])
  {
    assert branches[..k + 1][..k] == branches[..k];
  }

  lemma GroupPrefix(pairs: seq<(BranchSet, Value)>, sources: seq<Source>, i: nat)
    requires i <= |sources| && GroupSpec(pairs, sources[..i]).Err?
    ensures GroupSpec(pairs, sources) == Err(GroupSpec(pairs, sources[..i]).error)
  {
    for k := i to |sources|
      invariant GroupSpec(pairs, sources[..k]) == GroupSpec(pairs, sources[..i])
    {
      GroupErrStep(pairs, sources, k);
    }
    assert sources[..|sources|] == sources;
  }

  /** An error of a prefix is the error of the prefix one longer. */
  lemma GroupErrStep(pairs: seq<(BranchSet, Value)>, sources: seq<Source>, k: nat)
    requires k < |sources| && GroupSpec(pairs, sources[..k]).Err?
    ensures GroupSpec(pairs, sources[..k + 1]) == GroupSpec(pairs, sources[..k])
  {
    assert sources[..k + 1][..k] == sources[..k];
  }

  // ------------------------------------------------------------- properties

  /** The filters succeed exactly when every branch-set's filter does; a
      failure is the error of one of them. */
  lemma {:induction false} OksOutcome(pairs: seq<(BranchSet, Value)>, src: Source)
    ensures Oks(pairs, src).Ok? <==> forall i :: 0 <= i < |pairs| ==> BranchSetFilter(pairs[i].0, Some(src)).Ok?
    ensures Oks(pairs, src).Err? ==>
              exists k :: 0 <= k < |pairs| && BranchSetFilter(pairs[k].0, Some(src)) == Err(Oks(pairs, src).error)
    ensures Oks(pairs, src).Ok? ==>
              forall i :: 0 <= i < |pairs| ==> BranchSetFilter(pairs[i].0, Some(src)) == Ok(Oks(pairs, src).value[i])
  {
    if pairs != [] {
      var n := |pairs| - 1;
      OksOutcome(pairs[..n], src);
      assert forall i :: 0 <= i < n ==> pairs[..n][i] == pairs[i];
    }
  }

  /** The copies of a collapsed branch-set are made exactly when the value
      of every branch applies. */
  lemma {:induction false} CopiesSucceed(utype: UType, src: Source, branches: seq<Branch>)
    ensures CollapsedCopies(utype, src, branches).Ok? <==>
              forall i :: 0 <= i < |branches| ==>
                ApplyUncertainty(utype, src.(scalingRate := branches[i].weight), branches[i].value).Ok?
  {
    if branches != [] {
      var n := |branches| - 1;
      CopiesSucceed(utype, src, branches[..n]);
      assert forall i :: 0 <= i < n ==> branches[..n][i] == branches[i];
    }
  }

  /** There is one copy per branch, in order, scaled by the branch's weight
      and carrying the branch's value. */
  lemma {:induction false} CopiesValues(utype: UType, src: Source, branches: seq<Branch>)
    requires CollapsedCopies(utype, src, branches).Ok?
    ensures forall i :: 0 <= i < |branches| ==>
              ApplyUncertainty(utype, src.(scalingRate := branches[i].weight), branches[i].value)
              == Ok(CollapsedCopies(utype, src, branches).value[i])
  {
    if branches != [] {
      var n := |branches| - 1;
      CopiesValues(utype, src, branches[..n]);
      var front := CollapsedCopies(utype, src, branches[..n]).value;
      var last := ApplyUncertainty(utype, src.(scalingRate := branches[n].weight), branches[n].value);
      assert CollapsedCopies(utype, src, branches).value == front + [last.value];
      forall i | 0 <= i < n
        ensures ApplyUncertainty(utype, src.(scalingRate := branches[i].weight), branches[i].value)
                == Ok(CollapsedCopies(utype, src, branches).value[i])
      {
        assert branches[..n][i] == branches[i];
      }
    }
  }

  /** A source no branch-set lets through comes out as it went in, with no
      change counted. */
  lemma UnfilteredKept(pairs: seq<(BranchSet, Value)>, src: Source)
    requires forall i :: 0 <= i < |pairs| ==> BranchSetFilter(pairs[i].0, Some(src)) == Ok(false)
    ensures SourceSpec(pairs, src) == Ok(([src], 0))
  {
    OksOutcome(pairs, src);
    var oks := Oks(pairs, src).value;
    CountTrueZero(oks);
    assert forall i :: 0 <= i < |oks| ==> !oks[i];
  }

  /** With no uncertainties to apply, the group keeps its sources and counts
      no change. */
  lemma {:induction false} EmptyPathKeepsGroup(sources: seq<Source>)
    ensures GroupSpec([], sources) == Ok((sources, 0))
  {
    if sources != [] {
      var n := |sources| - 1;
      EmptyPathKeepsGroup(sources[..n]);
      assert Oks([], sources[n]) == Ok([]);
      assert SourceSpec([], sources[n]) == Ok(([sources[n]], 0));
      assert sources[..n] + [sources[n]] == sources;
    }
  }

  /** The uncertainties of the branch-sets that let the source through,
      applied one after the other. */
  function ApplyAll(pairs: seq<(BranchSet, Value)>, oks: seq<bool>, src: Source): Result<Source, ApplyError>
    requires |oks| == |pairs|
    decreases |pairs|
  {
    if pairs == [] then Ok(src)
    else
      var next :- if oks[0] then ApplyUncertainty(pairs[0].0.utype, src, pairs[0].1) else Ok(src);
      ApplyAll(pairs[1..], oks[1..], next)
  }

  /** Without collapsed branch-sets, the inner loop applies every uncertainty
      to the one working copy, lists it once, and counts one change per
      branch-set that lets the source through. */
  lemma {:induction false} PlainExpand(pairs: seq<(BranchSet, Value)>, oks: seq<bool>, e: Expansion)
    requires |oks| == |pairs|
    requires forall i :: 0 <= i < |pairs| && oks[i] ==> !pairs[i].0.collapsed
    requires e.copies == []
    ensures ApplyAll(pairs, oks, e.work).Err? ==> Expand(pairs, oks, e) == Err(ApplyAll(pairs, oks, e.work).error)
    ensures ApplyAll(pairs, oks, e.work).Ok? ==>
              Expand(pairs, oks, e)
              == Ok(Expansion(ApplyAll(pairs, oks, e.work).value, e.listed || true in oks, [], e.changes + CountTrue(oks)))
    decreases |pairs|
  {
    if pairs != [] {
      var step := if oks[0] then ExpandStep(e, pairs[0].0, pairs[0].1) else Ok(e);
      if step.Ok? {
        assert oks == [oks[0]] + oks[1..];
        PlainExpand(pairs[1..], oks[1..], step.value);
      }
    }
  }

  /** A source that only plain branch-sets let through becomes one source
      carrying all their uncertainties, with one change each. */
  lemma PlainSource(pairs: seq<(BranchSet, Value)>, src: Source)
    requires Oks(pairs, src).Ok?
    requires var oks := Oks(pairs, src).value;
             true in oks && forall i :: 0 <= i < |pairs| && oks[i] ==> !pairs[i].0.collapsed
    ensures var oks := Oks(pairs, src).value;
            var applied := ApplyAll(pairs, oks, src);
            && (applied.Err? ==> SourceSpec(pairs, src) == Err(ApplyFailed(applied.error)))
            && (applied.Ok? ==> SourceSpec(pairs, src) == Ok(([applied.value], CountTrue(oks))))
  {
    var oks := Oks(pairs, src).value;
    CountTrueZero(oks);
    PlainExpand(pairs, oks, Expansion(src, false, [], 0));
    var applied := ApplyAll(pairs, oks, src);
    if applied.Ok? {
      assert Output(Expansion(applied.value, true, [], CountTrue(oks))) == [applied.value];
    }
  }

  /** Branch-sets that do not let the source through leave the inner loop's
      state as it is. */
  lemma {:induction false} SkipAll(pairs: seq<(BranchSet, Value)>, oks: seq<bool>, e: Expansion)
    requires |oks| == |pairs| && true !in oks
    ensures Expand(pairs, oks, e) == Ok(e)
    decreases |pairs|
  {
    if pairs != [] {
      assert oks[1..] == oks[1..] && true !in oks[1..];
      SkipAll(pairs[1..], oks[1..], e);
    }
  }

  /** Branch-sets at the front that do not let the source through are
      skipped. */
  lemma {:induction false} SkipPrefix(pairs: seq<(BranchSet, Value)>, oks: seq<bool>, e: Expansion, k: nat)
    requires |oks| == |pairs| && k <= |pairs|
    requires forall i :: 0 <= i < k ==> !oks[i]
    ensures Expand(pairs, oks, e) == Expand(pairs[k..], oks[k..], e)
    decreases k
  {
    if k == 0 {
      assert pairs[k..] == pairs && oks[k..] == oks;
    } else {
      assert pairs[1..][k - 1..] == pairs[k..] && oks[1..][k - 1..] == oks[k..];
      SkipPrefix(pairs[1..], oks[1..], e, k - 1);
    }
  }

  /** A collapsed branch-set appends its copies and counts the output list
      it leaves. */
  lemma CollapsedStep(e: Expansion, bs: BranchSet, value: Value)
    requires bs.collapsed && e.work.code != 'N'
    requires CollapsedCopies(bs.utype, e.work, bs.branches).Ok?
    ensures var added := CollapsedCopies(bs.utype, e.work, bs.branches).value;
            ExpandStep(e, bs, value)
            == Ok(Expansion(e.work, e.listed, e.copies + added, e.changes + |Output(e)| + |added|))
  {
  }

  /** A branch-set that lets the source through takes one step. */
  lemma TakeStep(pairs: seq<(BranchSet, Value)>, oks: seq<bool>, e: Expansion)
    requires |oks| == |pairs| && pairs != [] && oks[0]
    requires ExpandStep(e, pairs[0].0, pairs[0].1).Ok?
    ensures Expand(pairs, oks, e) == Expand(pairs[1..], oks[1..], ExpandStep(e, pairs[0].0, pairs[0].1).value)
  {
  }

  /** A source that only the `k`-th branch-set lets through, a collapsed one,
      becomes one copy per branch of that set, each scaled by its branch's
      weight and carrying its branch's value, and counts one change per
      branch. */
  lemma SingleCollapsed(pairs: seq<(BranchSet, Value)>, src: Source, k: nat)
    requires k < |pairs| && Oks(pairs, src).Ok?
    requires forall i :: 0 <= i < |pairs| ==> Oks(pairs, src).value[i] == (i == k)
    requires pairs[k].0.collapsed && src.code != 'N'
    requires CollapsedCopies(pairs[k].0.utype, src, pairs[k].0.branches).Ok?
    ensures var copies := CollapsedCopies(pairs[k].0.utype, src, pairs[k].0.branches).value;
            SourceSpec(pairs, src) == Ok((copies, |pairs[k].0.branches|))
  {
    var oks := Oks(pairs, src).value;
    CountTrueZero(oks);
    var copies := CollapsedCopies(pairs[k].0.utype, src, pairs[k].0.branches).value;
    var e := Expansion(src, false, [], 0);
    var mid := Expansion(src, false, copies, |copies|);
    CollapsedStep(e, pairs[k].0, pairs[k].1);
    assert [] + copies == copies;
    SkipPrefix(pairs, oks, e, k);
    TakeStep(pairs[k..], oks[k..], e);
    assert pairs[k..][1..] == pairs[k + 1..] && oks[k..][1..] == oks[k + 1..];
    SkipPrefix(pairs[k + 1..], oks[k + 1..], mid, |pairs| - k - 1);
    assert pairs[k + 1..][|pairs| - k - 1..] == [];
    assert Expand(pairs, oks, e) == Ok(mid);
    assert oks[k];
    assert Output(mid) == copies;
  }

  /** The inner loop from a working copy whose code is `N` fails once it
      reaches an applicable collapsed branch-set, if not before; it fails
      there, naming the source, when every applicable plain branch-set
      before it applies its value. */
  lemma {:induction false} ExpandRefuses(pairs: seq<(BranchSet, Value)>, oks: seq<bool>, e: Expansion, k: nat)
    requires |oks| == |pairs| && k < |pairs| && oks[k] && pairs[k].0.collapsed && e.work.code == 'N'
    ensures Expand(pairs, oks, e).Err?
    ensures (forall j :: 0 <= j < k && oks[j] && !pairs[j].0.collapsed ==>
               ApplyUncertainty(pairs[j].0.utype, e.work, pairs[j].1).Ok?)
            ==> Expand(pairs, oks, e) == Err(CollapseNotImplemented(e.work.sourceId))
    decreases k
  {
    var step := if oks[0] then ExpandStep(e, pairs[0].0, pairs[0].1) else Ok(e);
    if k > 0 && step.Ok? {
      var e' := step.value;
      assert e'.work.code == e.work.code && e'.work.sourceId == e.work.sourceId;
      ExpandRefuses(pairs[1..], oks[1..], e', k - 1);
      if forall j :: 0 <= j < k && oks[j] && !pairs[j].0.collapsed ==>
           ApplyUncertainty(pairs[j].0.utype, e.work, pairs[j].1).Ok? {
        forall j | 0 <= j < k - 1 && oks[1..][j] && !pairs[1..][j].0.collapsed
          ensures ApplyUncertainty(pairs[1..][j].0.utype, e'.work, pairs[1..][j].1).Ok?
        {
          assert oks[1..][j] == oks[j + 1] && pairs[1..][j] == pairs[j + 1];
          assert ApplyUncertainty(pairs[j + 1].0.utype, e.work, pairs[j + 1].1).Ok?;
        }
      }
    }
  }

  /** A non-parametric source cannot be collapsed: a source with code `N`
      that some collapsed branch-set lets through fails, and it fails with
      the error naming it unless an earlier plain branch-set's value fails
      to apply first. */
  lemma CollapseRefused(pairs: seq<(BranchSet, Value)>, src: Source, k: nat)
    requires k < |pairs| && Oks(pairs, src).Ok? && Oks(pairs, src).value[k]
    requires pairs[k].0.collapsed && src.code == 'N'
    ensures SourceSpec(pairs, src).Err?
    ensures (forall j :: 0 <= j < k && Oks(pairs, src).value[j] && !pairs[j].0.collapsed ==>
               ApplyUncertainty(pairs[j].0.utype, src, pairs[j].1).Ok?)
            ==> SourceSpec(pairs, src) == Err(ApplyFailed(CollapseNotImplemented(src.sourceId)))
  {
    var oks := Oks(pairs, src).value;
    CountTrueZero(oks);
    assert true in oks by {
      assert oks[k];
    }
    ExpandRefuses(pairs, oks, Expansion(src, false, [], 0), k);
  }

  /** The filters of two branch-sets that both let the source through. */
  lemma OksOfTwo(bs1: BranchSet, v1: Value, bs2: BranchSet, v2: Value, src: Source)
    requires BranchSetFilter(bs1, Some(src)) == Ok(true) && BranchSetFilter(bs2, Some(src)) == Ok(true)
    ensures Oks([(bs1, v1), (bs2, v2)], src) == Ok([true, true])
  {
    var pairs := [(bs1, v1), (bs2, v2)];
    assert pairs[..1] == [(bs1, v1)] && pairs[..1][..0] == [];
    assert Oks(pairs[..1], src) == Ok([] + [true]);
    assert [] + [true] + [true] == [true, true];
  }

  /** The count of a collapsed branch-set is the whole output list of the
      source so far: after a plain branch-set and a collapsed one with `m`
      branches, the source has counted `m + 2` changes, not `m + 1`. */
  lemma PlainThenCollapsed(bs1: BranchSet, v1: Value, bs2: BranchSet, v2: Value, src: Source)
    requires !bs1.collapsed && bs2.collapsed && src.code != 'N'
    requires BranchSetFilter(bs1, Some(src)) == Ok(true) && BranchSetFilter(bs2, Some(src)) == Ok(true)
    requires ApplyUncertainty(bs1.utype, src, v1).Ok?
    requires CollapsedCopies(bs2.utype, ApplyUncertainty(bs1.utype, src, v1).value, bs2.branches).Ok?
    ensures var work := ApplyUncertainty(bs1.utype, src, v1).value;
            var copies := CollapsedCopies(bs2.utype, work, bs2.branches).value;
            SourceSpec([(bs1, v1), (bs2, v2)], src) == Ok(([work] + copies, |bs2.branches| + 2))
  {
    var pairs := [(bs1, v1), (bs2, v2)];
    var oks := [true, true];
    OksOfTwo(bs1, v1, bs2, v2, src);
    var work := ApplyUncertainty(bs1.utype, src, v1).value;
    var copies := CollapsedCopies(bs2.utype, work, bs2.branches).value;
    var e0 := Expansion(src, false, [], 0);
    var e1 := Expansion(work, true, [], 1);
    var e2 := Expansion(work, true, copies, |copies| + 2);
    assert ExpandStep(e0, bs1, v1) == Ok(e1);
    CollapsedStep(e1, bs2, v2);
    assert [] + copies == copies;
    TakeStep(pairs, oks, e0);
    TakeStep(pairs[1..], oks[1..], e1);
    assert pairs[1..][1..] == [] && oks[1..][1..] == [];
    assert Expand(pairs, oks, e0) == Ok(e2);
  }

  /** Two collapsed branch-sets with `m` and `n` branches count `2m + n`
      changes: the second counts the copies of the first again. */
  lemma TwoCollapsed(bs1: BranchSet, v1: Value, bs2: BranchSet, v2: Value, src: Source)
    requires bs1.collapsed && bs2.collapsed && src.code != 'N'
    requires BranchSetFilter(bs1, Some(src)) == Ok(true) && BranchSetFilter(bs2, Some(src)) == Ok(true)
    requires CollapsedCopies(bs1.utype, src, bs1.branches).Ok?
    requires CollapsedCopies(bs2.utype, src, bs2.branches).Ok?
    ensures var copies1 := CollapsedCopies(bs1.utype, src, bs1.branches).value;
            var copies2 := CollapsedCopies(bs2.utype, src, bs2.branches).value;
            SourceSpec([(bs1, v1), (bs2, v2)], src)
            == Ok((copies1 + copies2, 2 * |bs1.branches| + |bs2.branches|))
  {
    var pairs := [(bs1, v1), (bs2, v2)];
    var oks := [true, true];
    OksOfTwo(bs1, v1, bs2, v2, src);
    var copies1 := CollapsedCopies(bs1.utype, src, bs1.branches).value;
    var copies2 := CollapsedCopies(bs2.utype, src, bs2.branches).value;
    var e0 := Expansion(src, false, [], 0);
    var e1 := Expansion(src, false, copies1, |copies1|);
    var e2 := Expansion(src, false, copies1 + copies2, 2 * |copies1| + |copies2|);
    CollapsedStep(e0, bs1, v1);
    CollapsedStep(e1, bs2, v2);
    assert [] + copies1 == copies1;
    TakeStep(pairs, oks, e0);
    TakeStep(pairs[1..], oks[1..], e1);
    assert pairs[1..][1..] == [] && oks[1..][1..] == [];
    assert Expand(pairs, oks, e0) == Ok(e2);
  }
}
