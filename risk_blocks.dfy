/**
  Blocks of sites for the risk calculators: a block is the tuple of sites
  one worker computes, `split_into_blocks` chunks a site list into blocks
  of at most `sites_per_block` sites, keeping only the sites a region
  constraint matches, and `Block.grid` gives the distinct grid points of a
  block's sites in order of first occurrence.
*/
module RiskBlocks {
  import opened Wrappers

  /** `shapes.Site`: a longitude and a latitude, equal when both are. */
  datatype Site = Site(longitude: real, latitude: real)

  /** A point of the region's grid. */
  datatype GridPoint = GridPoint(row: int, column: int)

  /** The default `sites_per_block`. */
  const SitesPerBlock: int := 100

  /** A block: its sites, in order, and its id. */
  datatype Block = Block(sites: seq<Site>, blockId: string)

  /** `Block(sites, block_id)`: the sites are kept in order, and a missing
      or empty id is replaced by `generated`, the id the key-value store
      hands out. */
  function NewBlock(sites: seq<Site>, blockId: Option<string>, generated: string): (b: Block)
    ensures b.sites == sites
    ensures blockId.Some? && blockId.value != [] ==> b.blockId == blockId.value
    ensures blockId.None? || blockId.value == [] ==> b.blockId == generated
  {
    var id := if blockId.Some? && blockId.value != [] then blockId.value else generated;
    Block(sites, id)
  }

  /** `Block.__eq__`: two blocks are equal when their sites are. */
  predicate Equal(a: Block, b: Block) {
    a.sites == b.sites
  }

  /** Block equality is an equivalence that ignores ids: a block is equal
      to any block made from the same sites, whatever their ids. */
  lemma EqualIgnoresIds(sites: seq<Site>, id1: Option<string>, g1: string, id2: Option<string>, g2: string)
    ensures Equal(NewBlock(sites, id1, g1), NewBlock(sites, id2, g2))
    ensures forall a, b, c: Block :: Equal(a, a) && (Equal(a, b) ==> Equal(b, a))
                                   && (Equal(a, b) && Equal(b, c) ==> Equal(a, c))
  {
  }

  // ------------------------------------------------------ split_into_blocks

  /** Whether the site goes into a block: every site without a constraint,
      otherwise the sites the constraint matches. */
  predicate Keeps(constraint: Option<Site -> bool>, site: Site) {
    constraint.None? || constraint.value(site)
  }

  /** The sites kept, in order. */
  function Kept(sites: seq<Site>, constraint: Option<Site -> bool>): (r: seq<Site>)
    ensures |r| <= |sites|
  {
    if sites == [] then []
    else (if Keeps(constraint, sites[0]) then [sites[0]] else []) + Kept(sites[1..], constraint)
  }

  /** The chunks the loop of `split_into_blocks` emits, from `sites` on,
      when its buffer holds `buffer`: the buffer is emitted whenever its
      length reaches `spb` after a site, and once more at the end when it
      is not empty. */
  function Chunks(sites: seq<Site>, constraint: Option<Site -> bool>, spb: int, buffer: seq<Site>): seq<seq<Site>> {
    if sites == [] then
      if buffer == [] then [] else [buffer]
    else
      var next := if Keeps(constraint, sites[0]) then buffer + [sites[0]] else buffer;
      if |next| == spb then [next] + Chunks(sites[1..], constraint, spb, [])
      else Chunks(sites[1..], constraint, spb, next)
  }

  /** The chunks laid end to end. */
  function Concat(chunks: seq<seq<Site>>): seq<Site> {
    if chunks == [] then [] else chunks[0] + Concat(chunks[1..])
  }

  /** The blocks made from the chunks, the `j`-th with `ids(j)`, the `j`-th
      id generated for it. */
  function Blocks(chunks: seq<seq<Site>>, ids: nat -> string): (r: seq<Block>)
    ensures |r| == |chunks|
    ensures forall j :: 0 <= j < |r| ==> r[j] == NewBlock(chunks[j], None, ids(j))
  {
    if chunks == [] then [] else Blocks(chunks[..|chunks| - 1], ids) + [NewBlock(chunks[|chunks| - 1], None, ids(|chunks| - 1))]
  }

  lemma BlocksSnoc(chunks: seq<seq<Site>>, chunk: seq<Site>, ids: nat -> string)
    ensures Blocks(chunks + [chunk], ids) == Blocks(chunks, ids) + [NewBlock(chunk, None, ids(|chunks|))]
  {
    assert (chunks + [chunk])[..|chunks|] == chunks;
  }

  lemma AppendAssoc<T>(a: seq<T>, b: seq<T>, c: seq<T>)
    ensures a + (b + c) == (a + b) + c
  {
  }

  /** `split_into_blocks(sites, constraint, sites_per_block)`; `ids(j)` is
      the id generated for the `j`-th block. */
  method SplitIntoBlocks(sites: seq<Site>, constraint: Option<Site -> bool>, ids: nat -> string, spb: int := SitesPerBlock)
    returns (blocks: seq<Block>)
    ensures blocks == Blocks(Chunks(sites, constraint, spb, []), ids)
  {
    blocks := [];
    ghost var emitted: seq<seq<Site>> := [];
    var filtered: seq<Site> := [];
    for i := 0 to |sites|
      invariant Chunks(sites, constraint, spb, []) == emitted + Chunks(sites[i..], constraint, spb, filtered)
      invariant blocks == Blocks(emitted, ids)
    {
      var site := sites[i];
      assert sites[i..][0] == site && sites[i..][1..] == sites[i + 1..];
      ChunksStep(sites[i..], constraint, spb, filtered);
      ghost var next := if Keeps(constraint, site) then filtered + [site] else filtered;
      if constraint.Some? {
        if constraint.value(site) {
          filtered := filtered + [site];
        }
      } else {
        filtered := filtered + [site];
      }
      assert filtered == next;
      if |filtered| == spb {
        AppendAssoc(emitted, [filtered], Chunks(sites[i + 1..], constraint, spb, []));
        BlocksSnoc(emitted, filtered, ids);
        blocks := blocks + [NewBlock(filtered, None, ids(|blocks|))];
        emitted := emitted + [filtered];
        filtered := [];
      }
    }
    assert sites[|sites|..] == [];
    if filtered == [] {
      assert emitted + [] == emitted;
      return;
    }
    BlocksSnoc(emitted, filtered, ids);
    blocks := blocks + [NewBlock(filtered, None, ids(|blocks|))];
    emitted := emitted + [filtered];
  }

  // ---------------------------------------------- what the blocks look like

  /** One step of the loop: the site is added to the buffer when kept, and
      the buffer is emitted when it reaches `spb`. */
  lemma ChunksStep(sites: seq<Site>, constraint: Option<Site -> bool>, spb: int, buffer: seq<Site>)
    requires sites != []
    ensures var next := if Keeps(constraint, sites[0]) then buffer + [sites[0]] else buffer;
            Chunks(sites, constraint, spb, buffer)
              == if |next| == spb then [next] + Chunks(sites[1..], constraint, spb, [])
                 else Chunks(sites[1..], constraint, spb, next)
  {
  }

  /** Laid end to end, the chunks are the buffer followed by the kept
      sites. */
  lemma {:induction false} ChunksConcat(sites: seq<Site>, constraint: Option<Site -> bool>, spb: int, buffer: seq<Site>)
    ensures Concat(Chunks(sites, constraint, spb, buffer)) == buffer + Kept(sites, constraint)
    decreases |sites|
  {
    if sites == [] {
      if buffer != [] {
        assert Concat([buffer]) == buffer + Concat([]);
      }
    } else {
      var next := if Keeps(constraint, sites[0]) then buffer + [sites[0]] else buffer;
      var kept := Kept(sites[1..], constraint);
      assert buffer + Kept(sites, constraint) == next + kept by {
        if Keeps(constraint, sites[0]) {
          assert buffer + ([sites[0]] + kept) == (buffer + [sites[0]]) + kept;
        } else {
          assert [] + kept == kept;
        }
      }
      ChunksStep(sites, constraint, spb, buffer);
      if |next| == spb {
        ChunksConcat(sites[1..], constraint, spb, []);
        ConcatCons(next, Chunks(sites[1..], constraint, spb, []));
        assert [] + kept == kept;
      } else {
        ChunksConcat(sites[1..], constraint, spb, next);
      }
    }
  }

  lemma ConcatCons(chunk: seq<Site>, rest: seq<seq<Site>>)
    ensures Concat([chunk] + rest) == chunk + Concat(rest)
  {
    assert ([chunk] + rest)[1..] == rest;
  }

  /** With a positive size every chunk is non-empty and holds at most `spb`
      sites, all but the last exactly `spb`. */
  lemma {:induction false} ChunksSizes(sites: seq<Site>, constraint: Option<Site -> bool>, spb: int, buffer: seq<Site>)
    requires spb > 0 && |buffer| < spb
    ensures var chunks := Chunks(sites, constraint, spb, buffer);
            && (forall j :: 0 <= j < |chunks| ==> 0 < |chunks[j]| <= spb)
            && (forall j :: 0 <= j < |chunks| - 1 ==> |chunks[j]| == spb)
    decreases |sites|
  {
    if sites != [] {
      var next := if Keeps(constraint, sites[0]) then buffer + [sites[0]] else buffer;
      ChunksStep(sites, constraint, spb, buffer);
      if |next| == spb {
        ChunksSizes(sites[1..], constraint, spb, []);
      } else {
        ChunksSizes(sites[1..], constraint, spb, next);
      }
    }
  }

  lemma MulAtLeast(d: int, t: int)
    requires d > 0 && t >= 1
    ensures d * t >= d
  {
    if t > 1 {
      MulAtLeast(d, t - 1);
      assert d * t == d * (t - 1) + d;
    }
  }

  /** Euclidean division has one quotient and remainder. */
  lemma DivUnique(x: int, d: int, q: int, r: int)
    requires d > 0 && 0 <= r < d && x == q * d + r
    ensures x / d == q
  {
    var t := x / d - q;
    assert d * t == d * (x / d) - d * q;
    assert d * t == r - x % d;
    if t >= 1 {
      MulAtLeast(d, t);
    } else if t <= -1 {
      MulAtLeast(d, -t);
    }
  }

  lemma DivisionStep(x: int, d: int)
    requires d > 0 && x >= 0
    ensures (x + d) / d == x / d + 1
  {
    DivUnique(x + d, d, x / d + 1, x % d);
  }

  lemma DivisionSmall(x: int, d: int)
    requires 0 <= x < d
    ensures x / d == 0 && (x + d) / d == 1
  {
    DivUnique(x, d, 0, x);
    DivUnique(x + d, d, 1, x);
  }

  /** The number of chunks is the buffer plus the kept sites divided by
      `spb`, rounded up. */
  lemma {:induction false} ChunksCount(sites: seq<Site>, constraint: Option<Site -> bool>, spb: int, buffer: seq<Site>)
    requires spb > 0 && |buffer| < spb
    ensures |Chunks(sites, constraint, spb, buffer)| == (|buffer| + |Kept(sites, constraint)| + spb - 1) / spb
    decreases |sites|
  {
    if sites == [] {
      if buffer == [] {
        DivisionSmall(spb - 1, spb);
      } else {
        DivisionSmall(|buffer| - 1, spb);
      }
    } else {
      var next := if Keeps(constraint, sites[0]) then buffer + [sites[0]] else buffer;
      var k := |Kept(sites[1..], constraint)|;
      assert |buffer| + |Kept(sites, constraint)| == |next| + k;
      if |next| == spb {
        ChunksCount(sites[1..], constraint, spb, []);
        DivisionStep(k + spb - 1, spb);
      } else {
        ChunksCount(sites[1..], constraint, spb, next);
      }
    }
  }

  /** What `split_into_blocks` promises for a positive block size: laid end
      to end the blocks are the sites the constraint keeps, in order (all
      sites without a constraint); every block is non-empty and has at most
      `spb` sites, all but the last exactly `spb`; there are `n / spb`
      blocks rounded up for `n` kept sites, so none for no sites. */
  lemma SplitIntoBlocksShape(sites: seq<Site>, constraint: Option<Site -> bool>, spb: int)
    requires spb > 0
    ensures var chunks := Chunks(sites, constraint, spb, []);
            && Concat(chunks) == Kept(sites, constraint)
            && (constraint.None? ==> Concat(chunks) == sites)
            && (forall j :: 0 <= j < |chunks| ==> 0 < |chunks[j]| <= spb)
            && (forall j :: 0 <= j < |chunks| - 1 ==> |chunks[j]| == spb)
            && |chunks| == (|Kept(sites, constraint)| + spb - 1) / spb
            && (Kept(sites, constraint) == [] <==> chunks == [])
  {
    ChunksConcat(sites, constraint, spb, []);
    ChunksSizes(sites, constraint, spb, []);
    ChunksCount(sites, constraint, spb, []);
    assert [] + Kept(sites, constraint) == Kept(sites, constraint);
    if constraint.None? {
      KeptAll(sites, constraint);
    }
    DivisionSmall(spb - 1, spb);
    if Kept(sites, constraint) != [] {
      DivisionStep(|Kept(sites, constraint)| - 1, spb);
    }
  }

  /** Without a constraint every site is kept. */
  lemma {:induction false} KeptAll(sites: seq<Site>, constraint: Option<Site -> bool>)
    requires constraint.None?
    ensures Kept(sites, constraint) == sites
  {
    if sites != [] {
      KeptAll(sites[1..], constraint);
      assert [sites[0]] + sites[1..] == sites;
    }
  }

  /** A site is kept exactly when it is one of the input sites and the
      constraint matches it. */
  lemma {:induction false} KeptMembers(sites: seq<Site>, constraint: Option<Site -> bool>)
    ensures forall s :: s in Kept(sites, constraint) <==> s in sites && Keeps(constraint, s)
  {
    if sites != [] {
      KeptMembers(sites[1..], constraint);
      assert sites == [sites[0]] + sites[1..];
    }
  }

  /** A block size that is never reached: without a constraint, a size of
      zero or less gives all sites as one block. */
  lemma {:induction false} UnreachedSize(sites: seq<Site>, spb: int, buffer: seq<Site>)
    requires spb <= 0
    ensures var kept := buffer + sites;
            Chunks(sites, None, spb, buffer) == if kept == [] then [] else [kept]
    decreases |sites|
  {
    if sites != [] {
      UnreachedSize(sites[1..], spb, buffer + [sites[0]]);
      assert buffer + [sites[0]] + sites[1..] == buffer + sites;
    } else {
      assert buffer + sites == buffer;
    }
  }

  // ------------------------------------------------------------------- grid

  /** The grid point of each site. */
  function Points(sites: seq<Site>, pointAt: Site -> GridPoint): (r: seq<GridPoint>)
    ensures |r| == |sites| && forall i :: 0 <= i < |sites| ==> r[i] == pointAt(sites[i])
  {
    seq(|sites|, i requires 0 <= i < |sites| => pointAt(sites[i]))
  }

  /** The points in order, each kept at its first occurrence only. */
  function FirstOccurrences(points: seq<GridPoint>): seq<GridPoint> {
    if points == [] then []
    else
      var seen := FirstOccurrences(points[..|points| - 1]);
      var p := points[|points| - 1];
      if p in seen then seen else seen + [p]
  }

  /** `Block.grid(region)`, with `region.grid.point_at` as `pointAt`. */
  method Grid(block: Block, pointAt: Site -> GridPoint) returns (used: seq<GridPoint>)
    ensures used == FirstOccurrences(Points(block.sites, pointAt))
  {
    ghost var points := Points(block.sites, pointAt);
    used := [];
    for i := 0 to |block.sites|
      invariant used == FirstOccurrences(points[..i])
    {
      assert points[..i + 1][..i] == points[..i];
      var point := pointAt(block.sites[i]);
      if point !in used {
        used := used + [point];
      }
    }
    assert points[..|block.sites|] == points;
  }

  /** The grid points yielded are distinct, they are exactly the points of
      the block's sites, and they come in the order in which they first
      occur: every occurrence of a later point comes after some occurrence
      of each earlier one. */
  lemma {:induction false} FirstOccurrencesProperties(points: seq<GridPoint>)
    ensures var r := FirstOccurrences(points);
            && (forall k, l :: 0 <= k < l < |r| ==> r[k] != r[l])
            && (forall p :: p in r <==> p in points)
            && (forall k, l, j :: 0 <= k < l < |r| && 0 <= j < |points| && points[j] == r[l] ==> r[k] in points[..j])
  {
    if points != [] {
      var front := points[..|points| - 1];
      var p := points[|points| - 1];
      FirstOccurrencesProperties(front);
      var seen := FirstOccurrences(front);
      var r := FirstOccurrences(points);
      assert points == front + [p];
      forall k, l, j | 0 <= k < l < |r| && 0 <= j < |points| && points[j] == r[l]
        ensures r[k] in points[..j]
      {
        assert r[k] in front;
        if j < |points| - 1 {
          assert front[j] == points[j];
          assert front[..j] == points[..j];
        } else {
          assert points[..j] == front;
        }
      }
    }
  }

  /** The grid of a block depends on its sites only: equal blocks have
      the same grid. */
  lemma EqualBlocksSameGrid(a: Block, b: Block, pointAt: Site -> GridPoint)
    requires Equal(a, b)
    ensures FirstOccurrences(Points(a.sites, pointAt)) == FirstOccurrences(Points(b.sites, pointAt))
  {
  }
}
