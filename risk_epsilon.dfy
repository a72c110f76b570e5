/**
  `EpsilonProvider.epsilon`: a sample of the standard normal distribution
  per asset. Without asset correlation every call draws afresh; under
  perfect correlation the sample is drawn once per structure category and
  kept in the provider's `samples` dictionary. The normal draw is a
  parameter: `draw` is what `norm.rvs` would return on this call.
*/
module RiskEpsilon {
  import opened Wrappers

  /** The fields of an asset `epsilon` reads: the asset id and the
      structure category, either of which may be absent. */
  datatype Asset = Asset(assetId: Option<string>, structureCategory: Option<string>)

  /** What `epsilon` raises: the `ValueError` of a correlation other than
      `"perfect"`, the `ValueError` of an asset without a structure
      category and, when building that message, the `KeyError` of an asset
      without an id. */
  datatype EpsilonError =
    | InvalidCorrelation(correlation: string)
    | NoStructureCategory(assetId: string)
    | MissingAssetId

  const Perfect: string := "perfect"

  /** The outcome of one call and the sample cache after it, from the
      configured correlation and the cache before it. */
  function EpsilonSpec(correlation: Option<string>, samples: Option<map<string, real>>, asset: Asset, draw: real)
    : (Result<real, EpsilonError>, Option<map<string, real>>)
  {
    if correlation.None? || correlation.value == [] then (Ok(draw), samples)
    else if correlation.value != Perfect then (Err(InvalidCorrelation(correlation.value)), samples)
    else
      var cache := if samples.None? then map[] else samples.value;
      match asset.structureCategory
      case None =>
        (Err(if asset.assetId.None? then MissingAssetId else NoStructureCategory(asset.assetId.value)), Some(cache))
      case Some(category) =>
        var cache' := if category in cache then cache else cache[category := draw];
        (Ok(cache'[category]), Some(cache'))
  }

  class EpsilonProvider {
    /** The `ASSET_CORRELATION` parameter, `None` when not configured. */
    var correlation: Option<string>
    /** The samples per structure category, `None` until first needed. */
    var samples: Option<map<string, real>>

    /** `EpsilonProvider(params)`: the correlation from the parameters and
        no samples. */
    constructor(correlation: Option<string>)
      ensures this.correlation == correlation && samples.None?
    {
      this.correlation := correlation;
      samples := None;
    }

    /** `epsilon(asset)`. */
    method Epsilon(asset: Asset, draw: real) returns (r: Result<real, EpsilonError>)
      modifies this
      ensures correlation == old(correlation)
      ensures (r, samples) == EpsilonSpec(correlation, old(samples), asset, draw)
    {
      if correlation.None? || correlation.value == [] {
        return Ok(draw);
      } else if correlation.value != Perfect {
        return Err(InvalidCorrelation(correlation.value));
      }
      var cache: map<string, real>;
      if samples.None? {
        cache := map[];
        samples := Some(cache);
      } else {
        cache := samples.value;
      }
      if asset.structureCategory.None? {
        if asset.assetId.None? {
          return Err(MissingAssetId);
        }
        return Err(NoStructureCategory(asset.assetId.value));
      }
      var category := asset.structureCategory.value;
      if category !in cache {
        cache := cache[category := draw];
        samples := Some(cache);
      }
      r := Ok(cache[category]);
    }
  }

  // -------------------------------------------------------------- properties

  /** Without a correlation every call returns its own draw and leaves the
      cache alone; any other correlation but `"perfect"` is refused, also
      leaving the cache alone. */
  lemma Uncorrelated(correlation: Option<string>, samples: Option<map<string, real>>, asset: Asset, draw: real)
    requires correlation.None? || correlation.value != Perfect
    ensures var (r, after) := EpsilonSpec(correlation, samples, asset, draw);
            && after == samples
            && (correlation.None? || correlation.value == [] <==> r == Ok(draw))
            && (r.Err? <==> correlation.Some? && correlation.value != [])
            && (r.Err? ==> r.error == InvalidCorrelation(correlation.value))
  {
  }

  /** Under perfect correlation the cache exists after every call, even one
      that fails, and it only gains entries: every category cached before
      keeps its sample, and the only new category is the asset's. */
  lemma CacheOnlyGrows(samples: Option<map<string, real>>, asset: Asset, draw: real)
    ensures var (r, after) := EpsilonSpec(Some(Perfect), samples, asset, draw);
            && after.Some?
            && (samples.Some? ==> forall c :: c in samples.value ==> c in after.value && after.value[c] == samples.value[c])
            && (forall c :: c in after.value ==> (samples.Some? && c in samples.value) || asset.structureCategory == Some(c))
  {
  }

  /** Under perfect correlation a call fails exactly when the asset has no
      structure category; it then reports the asset's id, or the missing
      id. A call that succeeds returns the cached sample of the asset's
      category, which is the new draw exactly when none was cached. */
  lemma PerfectOutcome(samples: Option<map<string, real>>, asset: Asset, draw: real)
    ensures var (r, after) := EpsilonSpec(Some(Perfect), samples, asset, draw);
            && (r.Err? <==> asset.structureCategory.None?)
            && (r.Err? && asset.assetId.None? ==> r.error == MissingAssetId)
            && (r.Err? && asset.assetId.Some? ==> r.error == NoStructureCategory(asset.assetId.value))
            && (r.Ok? ==> var c := asset.structureCategory.value;
                          && c in after.value && r.value == after.value[c]
                          && (samples.Some? && c in samples.value ==> r.value == samples.value[c])
                          && (samples.None? || c !in samples.value ==> r.value == draw))
  {
  }

  /** Assets of the same structure category share their sample: after a
      call for one, a call for the other returns the same value whatever
      its draw, and changes nothing. */
  lemma SameCategorySameSample(samples: Option<map<string, real>>, a: Asset, b: Asset, draw1: real, draw2: real)
    requires a.structureCategory.Some? && a.structureCategory == b.structureCategory
    ensures var (r1, mid) := EpsilonSpec(Some(Perfect), samples, a, draw1);
            var (r2, after) := EpsilonSpec(Some(Perfect), mid, b, draw2);
            r1.Ok? && r2 == r1 && after == mid
  {
  }

  /** A sequence of calls under perfect correlation, each with its own
      draw: the results in order and the final cache. */
  function Calls(samples: Option<map<string, real>>, assets: seq<Asset>, draws: seq<real>)
    : (Result<seq<real>, EpsilonError>, Option<map<string, real>>)
    requires |draws| == |assets|
    decreases |assets|
  {
    if assets == [] then (Ok([]), samples)
    else
      var (r, mid) := EpsilonSpec(Some(Perfect), samples, assets[0], draws[0]);
      if r.Err? then (Err(r.error), mid)
      else
        var (rest, after) := Calls(mid, assets[1..], draws[1..]);
        (if rest.Ok? then Ok([r.value] + rest.value) else rest, after)
  }

  /** Over any sequence of calls, an entry of the cache is never changed
      once made. */
  lemma {:induction false} CallsKeepEntries(samples: Option<map<string, real>>, assets: seq<Asset>, draws: seq<real>)
    requires |draws| == |assets|
    ensures var after := Calls(samples, assets, draws).1;
            samples.Some? ==> after.Some? && forall c :: c in samples.value ==> c in after.value && after.value[c] == samples.value[c]
    decreases |assets|
  {
    if assets != [] {
      CacheOnlyGrows(samples, assets[0], draws[0]);
      var mid := EpsilonSpec(Some(Perfect), samples, assets[0], draws[0]);
      if mid.0.Ok? {
        CallsKeepEntries(mid.1, assets[1..], draws[1..]);
      }
    }
  }

  /** Over any sequence of successful calls, two assets of the same
      category get the same sample, wherever they are in the sequence. */
  lemma {:induction false} CallsShareSamples(samples: Option<map<string, real>>, assets: seq<Asset>, draws: seq<real>)
    requires |draws| == |assets|
    requires Calls(samples, assets, draws).0.Ok?
    ensures var (r, after) := Calls(samples, assets, draws);
            && |r.value| == |assets|
            && forall i :: 0 <= i < |assets| ==>
                 after.Some? && assets[i].structureCategory.Some?
                 && assets[i].structureCategory.value in after.value
                 && r.value[i] == after.value[assets[i].structureCategory.value]
    decreases |assets|
  {
    if assets != [] {
      var (r0, mid) := EpsilonSpec(Some(Perfect), samples, assets[0], draws[0]);
      PerfectOutcome(samples, assets[0], draws[0]);
      CallsShareSamples(mid, assets[1..], draws[1..]);
      CallsKeepEntries(mid, assets[1..], draws[1..]);
      var (r, after) := Calls(samples, assets, draws);
      var rest := Calls(mid, assets[1..], draws[1..]).0.value;
      assert r.value == [r0.value] + rest;
      forall i | 0 <= i < |assets|
        ensures after.Some? && assets[i].structureCategory.Some?
                && assets[i].structureCategory.value in after.value
                && r.value[i] == after.value[assets[i].structureCategory.value]
      {
        if i > 0 {
          assert assets[i] == assets[1..][i - 1];
          assert r.value[i] == rest[i - 1];
        }
      }
    }
  }
}
