/**
 Which windows of a block device the cache of a stream goes through
 (blockdevice/src/blockdevice_stream.c), when the device refuses no transfer
 inside its bounds. cache is the size of the cache and size that of the device,
 in bytes.
 */
module CacheWindow {
  import opened Common

  const SECTOR_SIZE := 512

  /** The first sector of the cached window, if any, and the offset. */
  datatype Spot = Spot(window: Option<nat>, offset: nat)

  function SectorOf(offset: nat): nat {
    offset / SECTOR_SIZE
  }

  function WindowEnd(sector: nat, cache: nat): nat {
    sector * SECTOR_SIZE + cache
  }

  /** sector_is_cached, for the sector of the offset. */
  predicate Cached(p: Spot, cache: nat) {
    p.window.Some? && p.window.value <= SectorOf(p.offset) < p.window.value + cache / SECTOR_SIZE
  }

  /** The window that a turn of a loop works on, if the device has it. */
  function Loaded(p: Spot, cache: nat, size: nat): Option<nat> {
    if Cached(p, cache) then p.window
    else if WindowEnd(SectorOf(p.offset), cache) <= size then Some(SectorOf(p.offset))
    else None
  }

  lemma LoadedHasOffset(p: Spot, cache: nat, size: nat)
    requires cache >= SECTOR_SIZE && Loaded(p, cache, size).Some?
    ensures var w := Loaded(p, cache, size).value; w * SECTOR_SIZE <= p.offset < WindowEnd(w, cache)
  {
  }

  /** Where a loop to the offset end stops, and whether it gets there. */
  function Walk(p: Spot, end: nat, cache: nat, size: nat): (Spot, bool)
    requires cache >= SECTOR_SIZE
    decreases end - p.offset
  {
    if p.offset >= end then (p, true)
    else
      match Loaded(p, cache, size)
      case None => (p.(window := None), false)
      case Some(w) =>
        LoadedHasOffset(p, cache, size);
        Walk(Spot(Some(w), Min(end, WindowEnd(w, cache))), end, cache, size)
  }

  // ------------------------------------------------------ when a loop gets there

  /** All windows from an offset that is not cached on are on the device. */
  predicate Covered(offset: nat, end: nat, cache: nat, size: nat)
    requires cache >= SECTOR_SIZE
    decreases end - offset
  {
    offset >= end
    || (WindowEnd(SectorOf(offset), cache) <= size && Covered(WindowEnd(SectorOf(offset), cache), end, cache, size))
  }

  lemma NextIsNotCached(w: nat, cache: nat)
    requires cache >= SECTOR_SIZE
    ensures !Cached(Spot(Some(w), WindowEnd(w, cache)), cache)
  {
  }

  /** A loop gets to its end if and only if the windows that are not cached are
      on the device. */
  lemma {:induction false} WalkSucceedsIff(p: Spot, end: nat, cache: nat, size: nat)
    requires cache >= SECTOR_SIZE
    ensures Walk(p, end, cache, size).1 <==>
            if Cached(p, cache) then Covered(WindowEnd(p.window.value, cache), end, cache, size) || p.offset >= end
            else Covered(p.offset, end, cache, size)
    decreases end - p.offset
  {
    if p.offset < end && Loaded(p, cache, size).Some? {
      LoadedHasOffset(p, cache, size);
      var w := Loaded(p, cache, size).value;
      NextIsNotCached(w, cache);
      WalkSucceedsIff(Spot(Some(w), Min(end, WindowEnd(w, cache))), end, cache, size);
    }
  }

  /** d bytes rounded up to whole windows. */
  function RoundUp(d: nat, cache: nat): nat
    requires cache > 0
  {
    if d <= cache then cache else cache + RoundUp(d - cache, cache)
  }

  lemma {:induction false} RoundUpIsWhole(d: nat, cache: nat) returns (windows: nat)
    requires cache > 0 && d > 0
    ensures RoundUp(d, cache) == windows * cache && d <= windows * cache < d + cache
  {
    if d <= cache {
      windows := 1;
    } else {
      var rest := RoundUpIsWhole(d - cache, cache);
      windows := rest + 1;
      assert windows * cache == rest * cache + cache;
    }
  }

  lemma NextStart(offset: nat, cache: nat)
    requires cache % SECTOR_SIZE == 0
    ensures WindowEnd(SectorOf(offset), cache) == SectorOf(WindowEnd(SectorOf(offset), cache)) * SECTOR_SIZE
  {
  }

  /** When the cache holds whole sectors: the request, counted from the start of
      its first sector and rounded up to whole windows, is on the device. */
  lemma {:induction false} CoveredIff(offset: nat, end: nat, cache: nat, size: nat)
    requires cache >= SECTOR_SIZE && cache % SECTOR_SIZE == 0 && offset < end
    ensures var start := SectorOf(offset) * SECTOR_SIZE;
            Covered(offset, end, cache, size) <==> start + RoundUp(end - start, cache) <= size
    decreases end - offset
  {
    var next := WindowEnd(SectorOf(offset), cache);
    if next < end {
      NextStart(offset, cache);
      CoveredIff(next, end, cache, size);
    }
  }

  /** A stream serves every request inside the device, wherever the last calls
      have left the cache, if and only if it caches a single sector. */
  lemma OneSectorServesAll(cache: nat, size: nat)
    requires cache >= SECTOR_SIZE && size % SECTOR_SIZE == 0 && size > 0
    ensures (forall p: Spot, end: nat | end <= size :: Walk(p, end, cache, size).1) <==> cache == SECTOR_SIZE
  {
    if cache == SECTOR_SIZE {
      forall p: Spot, end: nat | end <= size
        ensures Walk(p, end, cache, size).1
      {
        WalkSucceedsIff(p, end, cache, size);
        OneSectorCovers(p.offset, end, size);
        if Cached(p, cache) {
          OneSectorCovers(WindowEnd(p.window.value, cache), end, size);
        }
      }
    } else {
      var p := Spot(None, size - SECTOR_SIZE);
      assert Loaded(p, cache, size) == None;
      assert !Walk(p, size, cache, size).1;
    }
  }

  lemma {:induction false} OneSectorCovers(offset: nat, end: nat, size: nat)
    requires end <= size && size % SECTOR_SIZE == 0
    ensures Covered(offset, end, SECTOR_SIZE, size)
    decreases end - offset
  {
    if offset < end {
      SectorIsInside(offset, size);
      OneSectorCovers(WindowEnd(SectorOf(offset), SECTOR_SIZE), end, size);
    }
  }

  lemma SectorIsInside(offset: nat, size: nat)
    requires offset < size && size % SECTOR_SIZE == 0
    ensures WindowEnd(SectorOf(offset), SECTOR_SIZE) <= size
  {
  }

  /** The assertion of both loops, that the offset is inside the window placed at
      its sector, holds at every offset if and only if the cache holds a sector. */
  lemma CacheNeedsOneSector(cache: nat)
    ensures (forall offset: nat :: offset < WindowEnd(SectorOf(offset), cache)) <==> cache >= SECTOR_SIZE
  {
    if cache < SECTOR_SIZE {
      assert !(cache < WindowEnd(SectorOf(cache), cache));
    }
  }

  /** A device of three sectors and a cache of two: the last sector is out of
      reach of a fresh cache, and within reach of one that holds the window
      before. */
  lemma TailDependsOnCache()
    ensures !Walk(Spot(None, 1024), 1025, 1024, 1536).1
    ensures Walk(Spot(Some(1), 1024), 1025, 1024, 1536).1
  {
    assert Loaded(Spot(None, 1024), 1024, 1536) == None;
    assert Loaded(Spot(Some(1), 1024), 1024, 1536) == Some(1);
  }
}
