/**
  Seismic sources as the logic-tree engine sees them, the `apply_uncertainty`
  table that turns an uncertainty value into a modification of a source, and
  the branch-set filters that decide which sources an uncertainty applies to.
*/
module Sources {
  import opened Wrappers
  import opened Uncertainty

  /** The concrete class of a source. */
  datatype SourceKind =
    | AreaKind
    | PointKind
    | SimpleFaultKind
    | ComplexFaultKind
    | CharacteristicFaultKind
    | OtherKind

  /** The source classes a filter tests with `isinstance`. */
  datatype SourceClass =
    | PointSourceClass
    | AreaSourceClass
    | SimpleFaultSourceClass
    | ComplexFaultSourceClass
    | CharacteristicFaultSourceClass

  /** `isinstance`: an area source is also a point source. */
  predicate IsInstance(kind: SourceKind, cls: SourceClass) {
    match cls
    case PointSourceClass => kind == PointKind || kind == AreaKind
    case AreaSourceClass => kind == AreaKind
    case SimpleFaultSourceClass => kind == SimpleFaultKind
    case ComplexFaultSourceClass => kind == ComplexFaultKind
    case CharacteristicFaultSourceClass => kind == CharacteristicFaultKind
  }

  /** Whether a modification goes to the source itself or to its magnitude
      frequency distribution. */
  datatype Target = OnSource | OnMfd

  /** A parameter of a modification. */
  datatype Arg =
    | ValueArg(value: Value)
    | RealArg(x: real)
    | PointsArg(points: seq<Point>)
    | EdgesArg(edges: seq<seq<Point>>)
    | RatesArg(rates: seq<real>)

  /** One call of `source.modify` or `source.mfd.modify`: the operation name
      and its keyword arguments. */
  datatype Modification = Modification(target: Target, op: string, args: map<string, Arg>)

  /** A source: its id, tectonic region type, class, one-letter code,
      scaling rate, and the modifications applied to it so far, oldest
      first. */
  datatype Source = Source(
    sourceId: string,
    trt: string,
    kind: SourceKind,
    code: char,
    scalingRate: real,
    mods: seq<Modification>)

  /** What applying an uncertainty raises: the `KeyError` of a type with no
      operation, the error of unpacking a value of the wrong shape, and the
      `NotImplementedError` of collapsing a non-parametric source. */
  datatype ApplyError =
    | NoOperation(utype: UType)
    | CannotUnpack(utype: UType, value: Value)
    | CollapseNotImplemented(sourceId: string)

  // ------------------------------------------------------ apply_uncertainty

  /** The operation each type performs, and on what: the table written out
      on its own, as the reference for `ApplyUncertainty`. */
  function Operation(utype: UType): Option<(Target, string)> {
    match utype
    case SimpleFaultDipRelative => Some((OnSource, "adjust_dip"))
    case SimpleFaultDipAbsolute => Some((OnSource, "set_dip"))
    case SimpleFaultGeometryAbsolute => Some((OnSource, "set_geometry"))
    case ComplexFaultGeometryAbsolute => Some((OnSource, "set_geometry"))
    case CharacteristicFaultGeometryAbsolute => Some((OnSource, "set_geometry"))
    case AbGRAbsolute => Some((OnMfd, "set_ab"))
    case BGRRelative => Some((OnMfd, "increment_b"))
    case MaxMagGRRelative => Some((OnMfd, "increment_max_mag"))
    case MaxMagGRAbsolute => Some((OnMfd, "set_max_mag"))
    case IncrementalMFDAbsolute => Some((OnMfd, "set_mfd"))
    case _ => None
  }

  /** The keyword arguments each operation receives. */
  function ArgNames(utype: UType): set<string> {
    match utype
    case SimpleFaultDipRelative => {"increment"}
    case SimpleFaultDipAbsolute => {"dip"}
    case SimpleFaultGeometryAbsolute =>
      {"fault_trace", "upper_seismogenic_depth", "lower_seismogenic_depth", "dip", "spacing"}
    case ComplexFaultGeometryAbsolute => {"edges", "spacing"}
    case CharacteristicFaultGeometryAbsolute => {"surface"}
    case AbGRAbsolute => {"a_val", "b_val"}
    case IncrementalMFDAbsolute => {"min_mag", "bin_width", "occurrence_rates"}
    case _ => {"value"}
  }

  function Modify(src: Source, target: Target, op: string, args: map<string, Arg>): Source {
    src.(mods := src.mods + [Modification(target, op, args)])
  }

  /** `apply_uncertainty(utype, source, value)`: one modification appended to
      the source's log, nothing else of the source changed. */
  function ApplyUncertainty(utype: UType, src: Source, value: Value): (r: Result<Source, ApplyError>)
    ensures r.Ok? <==> Operation(utype).Some? && (Unpacks(utype) ==> Fits(utype, value))
    ensures Operation(utype).None? ==> r == Err(NoOperation(utype))
    ensures r.Ok? ==>
              && r.value.sourceId == src.sourceId && r.value.trt == src.trt
              && r.value.kind == src.kind && r.value.code == src.code
              && r.value.scalingRate == src.scalingRate
              && |r.value.mods| == |src.mods| + 1 && r.value.mods[..|src.mods|] == src.mods
              && var m := r.value.mods[|src.mods|];
                 && (m.target, m.op) == Operation(utype).value && m.args.Keys == ArgNames(utype)
  {
    match utype
    case SimpleFaultDipRelative =>
      Ok(Modify(src, OnSource, "adjust_dip", map["increment" := ValueArg(value)]))
    case SimpleFaultDipAbsolute =>
      Ok(Modify(src, OnSource, "set_dip", map["dip" := ValueArg(value)]))
    case SimpleFaultGeometryAbsolute =>
      if !value.SimpleFaultGeom? then Err(CannotUnpack(utype, value))
      else Ok(Modify(src, OnSource, "set_geometry",
                     map["fault_trace" := PointsArg(value.trace),
                         "upper_seismogenic_depth" := RealArg(value.usd),
                         "lower_seismogenic_depth" := RealArg(value.lsd),
                         "dip" := RealArg(value.dip),
                         "spacing" := RealArg(value.spacing)]))
    case ComplexFaultGeometryAbsolute =>
      if !value.ComplexFaultGeom? then Err(CannotUnpack(utype, value))
      else Ok(Modify(src, OnSource, "set_geometry",
                     map["edges" := EdgesArg(value.edges), "spacing" := RealArg(value.spacing)]))
    case CharacteristicFaultGeometryAbsolute =>
      Ok(Modify(src, OnSource, "set_geometry", map["surface" := ValueArg(value)]))
    case AbGRAbsolute =>
      if !value.AbPair? then Err(CannotUnpack(utype, value))
      else Ok(Modify(src, OnMfd, "set_ab", map["a_val" := RealArg(value.a), "b_val" := RealArg(value.b)]))
    case BGRRelative =>
      Ok(Modify(src, OnMfd, "increment_b", map["value" := ValueArg(value)]))
    case MaxMagGRRelative =>
      Ok(Modify(src, OnMfd, "increment_max_mag", map["value" := ValueArg(value)]))
    case MaxMagGRAbsolute =>
      Ok(Modify(src, OnMfd, "set_max_mag", map["value" := ValueArg(value)]))
    case IncrementalMFDAbsolute =>
      if !value.IncMfd? then Err(CannotUnpack(utype, value))
      else Ok(Modify(src, OnMfd, "set_mfd",
                     map["min_mag" := RealArg(value.minMag),
                         "bin_width" := RealArg(value.binWidth),
                         "occurrence_rates" := RatesArg(value.occurRates)]))
    case _ => Err(NoOperation(utype))
  }

  /** The keyword arguments carry the value: a value that is not unpacked is
      passed whole, and an unpacked tuple passes each component under its
      own name. */
  lemma ApplyArguments(utype: UType, src: Source, value: Value)
    requires ApplyUncertainty(utype, src, value).Ok?
    ensures var m := ApplyUncertainty(utype, src, value).value.mods[|src.mods|];
            && (!Unpacks(utype) ==> forall k :: k in m.args ==> m.args[k] == ValueArg(value))
            && (utype == SimpleFaultGeometryAbsolute ==>
                  m.args == map["fault_trace" := PointsArg(value.trace),
                                "upper_seismogenic_depth" := RealArg(value.usd),
                                "lower_seismogenic_depth" := RealArg(value.lsd),
                                "dip" := RealArg(value.dip),
                                "spacing" := RealArg(value.spacing)])
            && (utype == ComplexFaultGeometryAbsolute ==>
                  m.args == map["edges" := EdgesArg(value.edges), "spacing" := RealArg(value.spacing)])
            && (utype == AbGRAbsolute ==>
                  m.args == map["a_val" := RealArg(value.a), "b_val" := RealArg(value.b)])
            && (utype == IncrementalMFDAbsolute ==>
                  m.args == map["min_mag" := RealArg(value.minMag),
                                "bin_width" := RealArg(value.binWidth),
                                "occurrence_rates" := RatesArg(value.occurRates)])
  {
  }

  /** The types whose operation unpacks the value into several arguments. */
  predicate Unpacks(utype: UType) {
    utype in {SimpleFaultGeometryAbsolute, ComplexFaultGeometryAbsolute, AbGRAbsolute, IncrementalMFDAbsolute}
  }

  /** A value parsed for a type with an operation can always be applied to
      any source with that type. */
  lemma ParsedValuesApply(utype: UType, src: Source, value: Value)
    requires Fits(utype, value) && Operation(utype).Some?
    ensures ApplyUncertainty(utype, src, value).Ok?
  {
  }

  /** Applying one uncertainty after another logs both, in order. */
  lemma ApplyTwice(u1: UType, u2: UType, src: Source, v1: Value, v2: Value)
    requires ApplyUncertainty(u1, src, v1).Ok?
    requires ApplyUncertainty(u2, ApplyUncertainty(u1, src, v1).value, v2).Ok?
    ensures var s2 := ApplyUncertainty(u2, ApplyUncertainty(u1, src, v1).value, v2).value;
            |s2.mods| == |src.mods| + 2 && s2.mods[..|src.mods|] == src.mods
            && s2.mods[|src.mods|].op == Operation(u1).value.1
            && s2.mods[|src.mods| + 1].op == Operation(u2).value.1
            && s2.scalingRate == src.scalingRate
  {
    var s1 := ApplyUncertainty(u1, src, v1).value;
    var s2 := ApplyUncertainty(u2, s1, v2).value;
    assert s2.mods[..|src.mods|] == s1.mods[..|s1.mods| - 1][..|src.mods|];
  }

  // ---------------------------------------------------------- filter_source

  /** One entry of a branch-set's filter map. */
  datatype Filter =
    | TrtFilter(trt: string)
    | SourceTypeFilter(typeName: string)
    | SourcesFilter(ids: seq<string>)
    | UnknownFilter(key: string)

  /** What a filter raises: the `AssertionError` of an unknown key or source
      type, and the `AttributeError` of reading the region of no source. */
  datatype FilterError =
    | UnknownFilterKey(key: string)
    | UnknownSourceType(typeName: string)
    | NoSourceAttribute

  /** The class a source-type name stands for. */
  function NamedClass(name: string): Option<SourceClass> {
    if name == "area" then Some(AreaSourceClass)
    else if name == "point" then Some(PointSourceClass)
    else if name == "simpleFault" then Some(SimpleFaultSourceClass)
    else if name == "complexFault" then Some(ComplexFaultSourceClass)
    else if name == "characteristicFault" then Some(CharacteristicFaultSourceClass)
    else None
  }

  /** The kind a source must have to pass a source-type filter. */
  function KindNamed(name: string): Option<SourceKind> {
    if name == "area" then Some(AreaKind)
    else if name == "point" then Some(PointKind)
    else if name == "simpleFault" then Some(SimpleFaultKind)
    else if name == "complexFault" then Some(ComplexFaultKind)
    else if name == "characteristicFault" then Some(CharacteristicFaultKind)
    else None
  }

  /** One pass of the loop of `filter_source`: `Ok(true)` lets the source
      through this filter. `src` is `None` for a source that is false as a
      condition. */
  function FilterStep(f: Filter, src: Option<Source>): (r: Result<bool, FilterError>)
    ensures f.TrtFilter? ==> r == if src.Some? then Ok(src.value.trt == f.trt) else Err(NoSourceAttribute)
    ensures f.SourceTypeFilter? ==>
              if KindNamed(f.typeName).None? then r == Err(UnknownSourceType(f.typeName))
              else r == Ok(src.Some? && src.value.kind == KindNamed(f.typeName).value)
    ensures f.SourcesFilter? ==> r == Ok(src.None? || src.value.sourceId in f.ids)
    ensures f.UnknownFilter? ==> r == Err(UnknownFilterKey(f.key))
  {
    match f
    case TrtFilter(trt) =>
      if src.None? then Err(NoSourceAttribute) else Ok(trt == src.value.trt)
    case SourceTypeFilter(name) =>
      var cls := NamedClass(name);
      if cls.None? then Err(UnknownSourceType(name))
      else if src.None? then Ok(false)
      else if cls.value == PointSourceClass then
        Ok(IsInstance(src.value.kind, PointSourceClass) && !IsInstance(src.value.kind, AreaSourceClass))
      else Ok(IsInstance(src.value.kind, cls.value))
    case SourcesFilter(ids) =>
      Ok(!(src.Some? && src.value.sourceId !in ids))
    case UnknownFilter(key) =>
      Err(UnknownFilterKey(key))
  }

  /** `filter_source`: the filters in order, stopping at the first that
      rejects the source or raises. */
  function FilterSource(filters: seq<Filter>, src: Option<Source>): (r: Result<bool, FilterError>)
    ensures r == Ok(true) <==> forall i :: 0 <= i < |filters| ==> FilterStep(filters[i], src) == Ok(true)
    ensures r != Ok(true) ==>
              exists k :: 0 <= k < |filters| && FilterStep(filters[k], src) == r
                          && forall j :: 0 <= j < k ==> FilterStep(filters[j], src) == Ok(true)
  {
    if filters == [] then Ok(true)
    else
      var first := FilterStep(filters[0], src);
      if first != Ok(true) then first
      else
        var rest := FilterSource(filters[1..], src);
        assert forall i :: 1 <= i < |filters| ==> filters[i] == filters[1..][i - 1];
        rest
  }
}
