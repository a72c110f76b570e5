/**
  Uncertainty types, uncertainty values and `parse_uncertainty`: the table
  that turns the text of an `uncertaintyModel` node into the value a branch
  carries, chosen by the branch-set's uncertainty type.
*/
module Uncertainty {
  import opened Wrappers
  import opened Text
  import opened LtErrors

  /** The `uncertaintyType` of a branch-set. */
  datatype UType =
    | SourceModel
    | ExtendModel
    | GmpeModel
    | MaxMagGRRelative
    | BGRRelative
    | MaxMagGRAbsolute
    | AbGRAbsolute
    | IncrementalMFDAbsolute
    | SimpleFaultDipRelative
    | SimpleFaultDipAbsolute
    | SimpleFaultGeometryAbsolute
    | ComplexFaultGeometryAbsolute
    | CharacteristicFaultGeometryAbsolute
    | OtherUncertainty(name: string)

  datatype Point = Point(lon: real, lat: real, depth: real)

  /** A rupture surface, kept as the data it is built from (building the
      mesh belongs to the geometry library). */
  datatype Surface =
    | SimpleFaultSurface(trace: seq<Point>, usd: real, lsd: real, dip: real, spacing: real)
    | ComplexFaultSurface(edges: seq<seq<Point>>, spacing: real)
    | PlanarSurface(topLeft: Point, topRight: Point, bottomRight: Point, bottomLeft: Point)
    | MultiSurface(surfaces: seq<Surface>)

  /** The parsed value of a branch. */
  datatype Value =
    | Number(x: real)
    | ModelRef(path: string)
    | AbPair(a: real, b: real)
    | IncMfd(minMag: real, binWidth: real, occurRates: seq<real>)
    | SimpleFaultGeom(trace: seq<Point>, usd: real, lsd: real, dip: real, spacing: real)
    | ComplexFaultGeom(edges: seq<seq<Point>>, spacing: real)
    | SurfaceGeom(surface: Surface)

  // ------------------------------------------------------ the input nodes

  /** A `simpleFaultGeometry` node; `trace` is `None` when its position list
      does not make a line. */
  datatype SimpleFaultNode =
    SimpleFaultNode(node: NodeRef, trace: Option<seq<Point>>, usd: real, lsd: real, dip: real, spacing: real)

  /** A `complexFaultGeometry` node: one entry per edge, `None` for an edge
      whose position list does not make a line. */
  datatype ComplexFaultNode =
    ComplexFaultNode(node: NodeRef, edges: seq<Option<seq<Point>>>, spacing: real)

  /** A `planarSurface` node with its four corners. */
  datatype PlanarNode =
    PlanarNode(node: NodeRef, spacing: real, topLeft: Point, topRight: Point, bottomLeft: Point, bottomRight: Point)

  /** A child of the `surface` node of a characteristic-fault geometry,
      classified by its tag. */
  datatype SurfaceNode =
    | SimpleSurfaceNode(simple: SimpleFaultNode)
    | ComplexSurfaceNode(complex: ComplexFaultNode)
    | PlanarSurfaceNode(planar: PlanarNode)
    | OtherSurfaceNode(node: NodeRef, tag: string)

  datatype IncMfdNode = IncMfdNode(minMag: real, binWidth: real, occurRates: seq<real>)

  /** An `uncertaintyModel` node: its text and the children the parsers read.
      `ownSimpleFault` and `ownComplexFault` are the node itself read as a
      fault geometry, for a node that carries the geometry without a
      `simpleFaultGeometry` or `complexFaultGeometry` child; they are `None`
      when the node has no `LineString`, respectively no edges. */
  datatype ValueNode = ValueNode(
    node: NodeRef,
    text: Option<string>,
    incrementalMFD: Option<IncMfdNode>,
    simpleFault: Option<SimpleFaultNode>,
    complexFault: Option<ComplexFaultNode>,
    ownSimpleFault: Option<SimpleFaultNode>,
    ownComplexFault: Option<ComplexFaultNode>,
    surfaces: Option<seq<SurfaceNode>>)

  /** What a parser raises: a `LogicTreeError`, an `AttributeError` on a
      missing text or child, or the `IndexError` of an empty `surface`. */
  datatype ParseError =
    | Malformed(error: LogicTreeError)
    | MissingAttribute(name: string)
    | NoSurfaces

  const FloatMessage := "expected single float value"
  const PairMessage := "expected a pair of floats separated by space"
  const SimpleFaultMessage := "'simpleFaultGeometry' node is not valid"
  const ComplexFaultMessage := "'complexFaultGeometry' node is not valid"
  const PlanarMessage := "'planarFaultGeometry' node is not valid"
  const SurfaceTypeMessage := "Surface geometry type not recognised"

  // ------------------------------------------------------------- parsers

  /** `unknown`: the fallback parser, a single float. A missing text
      (`TypeError`) and a malformed one (`ValueError`) both become a
      `LogicTreeError` on the node. */
  function ParseFloatValue(n: ValueNode, filename: string): (r: Result<Value, ParseError>)
    ensures r.Ok? <==> n.text.Some? && ParseFloat(n.text.value).Some?
    ensures r.Ok? ==> r.value == Number(ParseFloat(n.text.value).value)
    ensures r.Err? ==> r.error == Malformed(NewError(n.node, filename, FloatMessage))
  {
    match n.text
    case None => Err(Malformed(NewError(n.node, filename, FloatMessage)))
    case Some(t) =>
      match ParseFloat(t)
      case None => Err(Malformed(NewError(n.node, filename, FloatMessage)))
      case Some(x) => Ok(Number(x))
  }

  /** `smodel`: the stripped text. */
  function ParseModelRef(n: ValueNode): (r: Result<Value, ParseError>)
    ensures r.Err? <==> n.text.None?
    ensures r.Ok? ==> r.value == ModelRef(Strip(n.text.value))
    ensures r.Ok? && r.value.path != [] ==> !IsSpace(r.value.path[0]) && !IsSpace(r.value.path[|r.value.path| - 1])
  {
    match n.text
    case None => Err(MissingAttribute("strip"))
    case Some(t) => Ok(ModelRef(Strip(t)))
  }

  /** `smodel` is stable: a node whose text is the reference already parses
      to the same reference. */
  lemma ParseModelRefStable(n: ValueNode)
    requires ParseModelRef(n).Ok?
    ensures ParseModelRef(n.(text := Some(ParseModelRef(n).value.path))) == ParseModelRef(n)
  {
    StripIdempotent(n.text.value);
  }

  /** `abGR`: exactly two white-space separated floats. */
  function ParseAbPair(n: ValueNode, filename: string): (r: Result<Value, ParseError>)
    ensures n.text.None? ==> r == Err(MissingAttribute("split"))
    ensures n.text.Some? ==>
              (r.Ok? <==> var ws := Split(n.text.value);
                          |ws| == 2 && ParseFloat(ws[0]).Some? && ParseFloat(ws[1]).Some?)
    ensures r.Ok? ==> var ws := Split(n.text.value);
                      r.value == AbPair(ParseFloat(ws[0]).value, ParseFloat(ws[1]).value)
    ensures n.text.Some? && r.Err? ==> r.error == Malformed(NewError(n.node, filename, PairMessage))
  {
    match n.text
    case None => Err(MissingAttribute("split"))
    case Some(t) =>
      var ws := Split(t);
      if |ws| != 2 then Err(Malformed(NewError(n.node, filename, PairMessage)))
      else
        match (ParseFloat(ws[0]), ParseFloat(ws[1]))
        case (Some(a), Some(b)) => Ok(AbPair(a, b))
        case _ => Err(Malformed(NewError(n.node, filename, PairMessage)))
  }

  /** `incMFD`: minimum magnitude, bin width and rates of the child node. */
  function ParseIncMfd(n: ValueNode): (r: Result<Value, ParseError>)
    ensures r.Ok? <==> n.incrementalMFD.Some?
    ensures r.Ok? ==> var m := n.incrementalMFD.value;
                      && r.value.IncMfd? && r.value.minMag == m.minMag
                      && r.value.binWidth == m.binWidth && r.value.occurRates == m.occurRates
    ensures r.Err? ==> r.error == MissingAttribute("incrementalMFD")
  {
    match n.incrementalMFD
    case None => Err(MissingAttribute("incrementalMFD"))
    case Some(m) => Ok(IncMfd(m.minMag, m.binWidth, m.occurRates))
  }

  /** `_validate_simple_fault_geometry` then `simpleGeom`: the trace must be
      a line with at least one point. */
  function ParseSimpleGeom(g: SimpleFaultNode, filename: string): (r: Result<Value, ParseError>)
    ensures r.Ok? <==> g.trace.Some? && |g.trace.value| > 0
    ensures r.Ok? ==> r.value == SimpleFaultGeom(g.trace.value, g.usd, g.lsd, g.dip, g.spacing)
    ensures r.Err? ==> r.error == Malformed(NewError(g.node, filename, SimpleFaultMessage))
  {
    if g.trace.Some? && |g.trace.value| > 0 then
      Ok(SimpleFaultGeom(g.trace.value, g.usd, g.lsd, g.dip, g.spacing))
    else Err(Malformed(NewError(g.node, filename, SimpleFaultMessage)))
  }

  predicate ValidEdge(e: Option<seq<Point>>) {
    e.Some? && |e.value| > 0
  }

  /** `_validate_complex_fault_geometry` then `complexGeom`: a non-zero
      spacing and every edge a line with at least one point. */
  function ParseComplexGeom(g: ComplexFaultNode, filename: string): (r: Result<Value, ParseError>)
    ensures r.Ok? <==> g.spacing != 0.0 && forall i :: 0 <= i < |g.edges| ==> ValidEdge(g.edges[i])
    ensures r.Ok? ==> r.value.ComplexFaultGeom? && r.value.spacing == g.spacing
                      && |r.value.edges| == |g.edges|
                      && forall i :: 0 <= i < |g.edges| ==> r.value.edges[i] == g.edges[i].value
    ensures r.Err? ==> r.error == Malformed(NewError(g.node, filename, ComplexFaultMessage))
  {
    if g.spacing != 0.0 && forall i :: 0 <= i < |g.edges| ==> ValidEdge(g.edges[i]) then
      Ok(ComplexFaultGeom(seq(|g.edges|, i requires 0 <= i < |g.edges| => g.edges[i].value), g.spacing))
    else Err(Malformed(NewError(g.node, filename, ComplexFaultMessage)))
  }

  predicate ValidCorner(p: Point) {
    -180.0 <= p.lon <= 180.0 && -90.0 <= p.lat <= 90.0 && p.depth >= 0.0
  }

  /** The corners of a planar surface in the order the validation visits them. */
  function Corners(p: PlanarNode): seq<Point> {
    [p.topLeft, p.topRight, p.bottomLeft, p.bottomRight]
  }

  /** The corner loop of `_validate_planar_fault_geometry`: the first corner
      that is out of range, or any corner at all when the spacing is zero,
      raises. */
  function CheckCorners(corners: seq<Point>, spacing: real, node: NodeRef, filename: string): (r: Option<LogicTreeError>)
    ensures r.None? <==> corners == [] || (spacing != 0.0 && forall i :: 0 <= i < |corners| ==> ValidCorner(corners[i]))
    ensures r.Some? ==> r.value == NewError(node, filename, PlanarMessage)
  {
    if corners == [] then None
    else if !ValidCorner(corners[0]) || spacing == 0.0 then Some(NewError(node, filename, PlanarMessage))
    else CheckCorners(corners[1..], spacing, node, filename)
  }

  /** `_validate_planar_fault_geometry`: `None` when the node is valid. */
  function ValidatePlanar(p: PlanarNode, filename: string): (r: Option<LogicTreeError>)
    ensures r.None? <==> p.spacing != 0.0 && ValidCorner(p.topLeft) && ValidCorner(p.topRight)
                                          && ValidCorner(p.bottomLeft) && ValidCorner(p.bottomRight)
    ensures r.Some? ==> r.value == NewError(p.node, filename, PlanarMessage)
  {
    var cs := Corners(p);
    var r := CheckCorners(cs, p.spacing, p.node, filename);
    assert cs[0] == p.topLeft && cs[1] == p.topRight && cs[2] == p.bottomLeft && cs[3] == p.bottomRight;
    r
  }

  /** One pass of the loop of `charGeom`: the surface one child describes. */
  function SubSurface(s: SurfaceNode, filename: string): (r: Result<Surface, ParseError>)
    ensures r.Ok? ==> !r.value.MultiSurface?
    ensures s.OtherSurfaceNode? ==> r == Err(Malformed(NewError(s.node, filename, SurfaceTypeMessage)))
  {
    match s
    case SimpleSurfaceNode(g) =>
      var v :- ParseSimpleGeom(g, filename);
      Ok(SimpleFaultSurface(v.trace, v.usd, v.lsd, v.dip, v.spacing))
    case ComplexSurfaceNode(g) =>
      var v :- ParseComplexGeom(g, filename);
      Ok(ComplexFaultSurface(v.edges, v.spacing))
    case PlanarSurfaceNode(p) =>
      var problem := ValidatePlanar(p, filename);
      if problem.Some? then Err(Malformed(problem.value))
      else Ok(PlanarSurface(p.topLeft, p.topRight, p.bottomRight, p.bottomLeft))
    case OtherSurfaceNode(node, _) =>
      Err(Malformed(NewError(node, filename, SurfaceTypeMessage)))
  }

  /** The surfaces of the children, in order; the first child that fails
      aborts. */
  function Surfaces(nodes: seq<SurfaceNode>, filename: string): Result<seq<Surface>, ParseError> {
    if nodes == [] then Ok([])
    else
      var n := |nodes| - 1;
      var front :- Surfaces(nodes[..n], filename);
      var last :- SubSurface(nodes[n], filename);
      Ok(front + [last])
  }

  /** `charGeom`: more than one surface makes a `MultiSurface`, a single one
      is returned as it is, and no child at all is the `IndexError` of
      `surfaces[0]`. */
  function CharGeomSpec(nodes: seq<SurfaceNode>, filename: string): Result<Surface, ParseError> {
    var surfaces :- Surfaces(nodes, filename);
    if |surfaces| > 1 then Ok(MultiSurface(surfaces))
    else if surfaces == [] then Err(NoSurfaces)
    else Ok(surfaces[0])
  }

  /** The loop of `charGeom`, one surface per child. */
  method CharGeom(nodes: seq<SurfaceNode>, filename: string) returns (r: Result<Surface, ParseError>)
    ensures r == CharGeomSpec(nodes, filename)
  {
    var surfaces: seq<Surface> := [];
    for i := 0 to |nodes|
      invariant Surfaces(nodes[..i], filename) == Ok(surfaces)
    {
      assert nodes[..i + 1][..i] == nodes[..i];
      var s := SubSurface(nodes[i], filename);
      if s.Err? {
        SurfacesPrefix(nodes, filename, i + 1);
        return Err(s.error);
      }
      surfaces := surfaces + [s.value];
    }
    assert nodes[..|nodes|] == nodes;
    if |surfaces| > 1 {
      r := Ok(MultiSurface(surfaces));
    } else if |surfaces| == 0 {
      r := Err(NoSurfaces);
    } else {
      r := Ok(surfaces[0]);
    }
  }

  /** An error of a prefix of the children is the error of all of them. */
  lemma {:induction false} SurfacesPrefix(nodes: seq<SurfaceNode>, filename: string, i: nat)
    requires i <= |nodes| && Surfaces(nodes[..i], filename).Err?
    ensures Surfaces(nodes, filename) == Err(Surfaces(nodes[..i], filename).error)
  {
    if i < |nodes| {
      var n := |nodes| - 1;
      assert nodes[..n][..i] == nodes[..i];
      SurfacesPrefix(nodes[..n], filename, i);
    } else {
      assert nodes[..i] == nodes;
    }
  }

  /** The surfaces exist exactly when every child gives one; there is one
      per child, in order, and a failure is that of the first failing
      child. */
  lemma {:induction false} SurfacesOutcome(nodes: seq<SurfaceNode>, filename: string)
    ensures Surfaces(nodes, filename).Ok? <==> forall i :: 0 <= i < |nodes| ==> SubSurface(nodes[i], filename).Ok?
    ensures Surfaces(nodes, filename).Ok? ==>
              |Surfaces(nodes, filename).value| == |nodes|
              && forall i :: 0 <= i < |nodes| ==> SubSurface(nodes[i], filename) == Ok(Surfaces(nodes, filename).value[i])
    ensures Surfaces(nodes, filename).Err? ==>
              exists k :: 0 <= k < |nodes| && SubSurface(nodes[k], filename) == Err(Surfaces(nodes, filename).error)
                          && forall j :: 0 <= j < k ==> SubSurface(nodes[j], filename).Ok?
  {
    if nodes != [] {
      var n := |nodes| - 1;
      SurfacesOutcome(nodes[..n], filename);
      assert forall i :: 0 <= i < n ==> nodes[..n][i] == nodes[i];
      var front := Surfaces(nodes[..n], filename);
      if front.Err? {
        var k :| 0 <= k < n && SubSurface(nodes[..n][k], filename) == Err(front.error)
                 && forall j :: 0 <= j < k ==> SubSurface(nodes[..n][j], filename).Ok?;
        assert SubSurface(nodes[k], filename) == Err(Surfaces(nodes, filename).error);
      }
    }
  }

  /** `charGeom` succeeds exactly when there are children and each gives a
      surface: one child gives its surface, more give a `MultiSurface` of
      all of them in order, none gives the `IndexError`; a failure is the
      first failing child's. */
  lemma CharGeomOutcome(nodes: seq<SurfaceNode>, filename: string)
    ensures var r := CharGeomSpec(nodes, filename);
            && (r.Ok? <==> |nodes| > 0 && forall i :: 0 <= i < |nodes| ==> SubSurface(nodes[i], filename).Ok?)
            && (r.Ok? && |nodes| == 1 ==> r.value == SubSurface(nodes[0], filename).value)
            && (r.Ok? && |nodes| > 1 ==>
                  r.value.MultiSurface? && |r.value.surfaces| == |nodes|
                  && forall i :: 0 <= i < |nodes| ==> r.value.surfaces[i] == SubSurface(nodes[i], filename).value)
            && (nodes == [] ==> r == Err(NoSurfaces))
            && (r.Err? && nodes != [] ==>
                  exists k :: 0 <= k < |nodes| && SubSurface(nodes[k], filename) == Err(r.error)
                              && forall j :: 0 <= j < k ==> SubSurface(nodes[j], filename).Ok?)
  {
    SurfacesOutcome(nodes, filename);
  }

  /** `parse_uncertainty`: the parser registered for the type, and the float
      parser for every type without one. The fault-geometry parsers read the
      geometry child when there is one and the node itself otherwise. */
  method ParseUncertainty(utype: UType, n: ValueNode, filename: string) returns (r: Result<Value, ParseError>)
    ensures utype == SourceModel || utype == ExtendModel ==> r == ParseModelRef(n)
    ensures utype == AbGRAbsolute ==> r == ParseAbPair(n, filename)
    ensures utype == IncrementalMFDAbsolute ==> r == ParseIncMfd(n)
    ensures utype == SimpleFaultGeometryAbsolute && n.simpleFault.Some? ==>
              r == ParseSimpleGeom(n.simpleFault.value, filename)
    ensures utype == SimpleFaultGeometryAbsolute && n.simpleFault.None? ==>
              r == if n.ownSimpleFault.Some? then ParseSimpleGeom(n.ownSimpleFault.value, filename)
                   else Err(MissingAttribute("LineString"))
    ensures utype == ComplexFaultGeometryAbsolute && n.complexFault.Some? ==>
              r == ParseComplexGeom(n.complexFault.value, filename)
    ensures utype == ComplexFaultGeometryAbsolute && n.complexFault.None? ==>
              r == if n.ownComplexFault.Some? then ParseComplexGeom(n.ownComplexFault.value, filename)
                   else Err(MissingAttribute("nodes"))
    ensures utype == CharacteristicFaultGeometryAbsolute && n.surfaces.None? ==> r == Err(MissingAttribute("surface"))
    ensures utype == CharacteristicFaultGeometryAbsolute && n.surfaces.Some? ==>
              var g := CharGeomSpec(n.surfaces.value, filename);
              r == if g.Ok? then Ok(SurfaceGeom(g.value)) else Err(g.error)
    ensures !HasParser(utype) ==> r == ParseFloatValue(n, filename)
    ensures r.Ok? ==> Fits(utype, r.value)
  {
    match utype {
      case SourceModel => r := ParseModelRef(n);
      case ExtendModel => r := ParseModelRef(n);
      case AbGRAbsolute => r := ParseAbPair(n, filename);
      case IncrementalMFDAbsolute => r := ParseIncMfd(n);
      case SimpleFaultGeometryAbsolute =>
        var g := if n.simpleFault.Some? then n.simpleFault else n.ownSimpleFault;
        r := if g.Some? then ParseSimpleGeom(g.value, filename) else Err(MissingAttribute("LineString"));
      case ComplexFaultGeometryAbsolute =>
        var g := if n.complexFault.Some? then n.complexFault else n.ownComplexFault;
        r := if g.Some? then ParseComplexGeom(g.value, filename) else Err(MissingAttribute("nodes"));
      case CharacteristicFaultGeometryAbsolute =>
        if n.surfaces.None? {
          r := Err(MissingAttribute("surface"));
        } else {
          var s := CharGeom(n.surfaces.value, filename);
          r := if s.Ok? then Ok(SurfaceGeom(s.value)) else Err(s.error);
        }
      case _ => r := ParseFloatValue(n, filename);
    }
  }

  /** The types registered in the parser table. */
  predicate HasParser(utype: UType) {
    utype in {SourceModel, ExtendModel, AbGRAbsolute, IncrementalMFDAbsolute,
              SimpleFaultGeometryAbsolute, ComplexFaultGeometryAbsolute,
              CharacteristicFaultGeometryAbsolute}
  }

  /** The shape of value the parser of each type produces. */
  predicate Fits(utype: UType, v: Value) {
    match utype
    case SourceModel => v.ModelRef?
    case ExtendModel => v.ModelRef?
    case AbGRAbsolute => v.AbPair?
    case IncrementalMFDAbsolute => v.IncMfd?
    case SimpleFaultGeometryAbsolute => v.SimpleFaultGeom?
    case ComplexFaultGeometryAbsolute => v.ComplexFaultGeom?
    case CharacteristicFaultGeometryAbsolute => v.SurfaceGeom?
    case _ => v.Number?
  }

  // ------------------------------------------------------------ round trips

  /** A node whose text is an integer, with any white space before and
      after it, parses as that number with the fallback parser. */
  lemma ParseFloatValueOfInt(n: ValueNode, filename: string, k: int, pre: string, post: string)
    requires forall i :: 0 <= i < |pre| ==> IsSpace(pre[i])
    requires forall i :: 0 <= i < |post| ==> IsSpace(post[i])
    requires n.text == Some(pre + IntToString(k) + post)
    ensures ParseFloatValue(n, filename) == Ok(Number(k as real))
  {
    StripPadded(pre, IntToString(k), post);
    ParseFloatIntToString(k);
  }

  lemma StripPadded(pre: string, s: string, post: string)
    requires forall i :: 0 <= i < |pre| ==> IsSpace(pre[i])
    requires forall i :: 0 <= i < |post| ==> IsSpace(post[i])
    requires s != [] && !IsSpace(s[0]) && !IsSpace(s[|s| - 1])
    ensures Strip(pre + s + post) == s
  {
    assert pre + s + post == pre + (s + post);
    LStripSpaces(pre, s + post);
    RStripSpaces(s, post);
  }

  /** `abGR` reads back two integers written with a space between them. */
  lemma ParseAbPairOfInts(n: ValueNode, filename: string, a: int, b: int)
    requires n.text == Some(IntToString(a) + " " + IntToString(b))
    ensures ParseAbPair(n, filename) == Ok(AbPair(a as real, b as real))
  {
    var sa, sb := IntToString(a), IntToString(b);
    assert Split(n.text.value) == [sa, sb] by {
      assert IsWord(sa) && IsWord(sb);
      SplitJoin([sa, sb]);
      assert [sa, sb][1..] == [sb];
      assert JoinSpaced([sa, sb]) == sa + " " + sb;
    }
    ParseFloatIntToString(a);
    ParseFloatIntToString(b);
  }

  /** `abGR` refuses a text with one, three or more numbers. */
  lemma ParseAbPairArity(n: ValueNode, filename: string, ws: seq<string>)
    requires forall k :: 0 <= k < |ws| ==> IsWord(ws[k])
    requires |ws| != 2
    requires n.text == Some(JoinSpaced(ws))
    ensures ParseAbPair(n, filename) == Err(Malformed(NewError(n.node, filename, PairMessage)))
  {
    SplitJoin(ws);
  }
}
