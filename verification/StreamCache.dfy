/**
 A stream over a block device with a write-back cache of consecutive sectors
 (blockdevice/src/blockdevice_stream.c), against a file that is a flat array of
 bytes with an offset.
 */
module StreamCache {
  import opened Common
  import opened CacheWindow

  // ------------------------------------------------------------ the flat file

  /** s with d put over it at position at. */
  function Overlay(s: seq<Byte>, at: nat, d: seq<Byte>): (r: seq<Byte>)
    requires at + |d| <= |s|
    ensures |r| == |s|
  {
    seq(|s|, i requires 0 <= i < |s| => if at <= i < at + |d| then d[i - at] else s[i])
  }

  datatype File = File(bytes: seq<Byte>, offset: nat)

  datatype Whence = FromBeginning | FromPosition | FromEnd

  datatype Op = Read(size: nat) | Write(data: seq<Byte>) | Seek(distance: int, whence: Whence) | Flush

  /** What a call gave: whether it succeeded, how many bytes it moved, and the
      bytes it read. A call that fails may have moved some of the bytes. */
  datatype Outcome = Outcome(ok: bool, moved: nat, read: seq<Byte>)

  function Readable(f: File, size: nat): nat
    requires f.offset <= |f.bytes|
  {
    if f.offset + size > |f.bytes| then |f.bytes| - f.offset else size
  }

  /** How a flat file answers, when a device below it may fail: a call that
      fails has moved the first bytes only, a write fails without effect when it
      does not fit, and a seek is accepted as 64-bit arithmetic has it. */
  ghost predicate FileStep(f: File, op: Op, out: Outcome, g: File) {
    && f.offset <= |f.bytes|
    && match op
       case Read(size) =>
         && g.bytes == f.bytes && g.offset == f.offset + out.moved
         && out.moved <= Readable(f, size)
         && (out.ok ==> out.moved == Readable(f, size))
         && out.read == f.bytes[f.offset..f.offset + out.moved]
       case Write(data) =>
         && out.moved <= |data| && f.offset + out.moved <= |f.bytes|
         && (f.offset + |data| > |f.bytes| ==> !out.ok && out.moved == 0)
         && (out.ok ==> out.moved == |data|)
         && g == File(Overlay(f.bytes, f.offset, data[..out.moved]), f.offset + out.moved)
       case Seek(distance, whence) =>
         var p := TargetOf(|f.bytes|, f.offset, distance, whence);
         && out.ok == SeekAccepted(|f.bytes|, p)
         && g == (if out.ok then f.(offset := Unsigned(p)) else f)
       case Flush =>
         g == f
  }

  // ---------------------------------------------------------- 64-bit integers

  const TWO_63 := 0x8000_0000_0000_0000
  const TWO_64 := 0x1_0000_0000_0000_0000

  function Unsigned(x: int): nat {
    x % TWO_64
  }

  function Signed(x: int): int {
    if x % TWO_64 < TWO_63 then x % TWO_64 else x % TWO_64 - TWO_64
  }

  /** The test of blockdev_stream_seek and the new offset, in 64-bit arithmetic. */
  function SeekTo(size: nat, offset: nat, distance: int, whence: Whence): (bool, nat) {
    match whence
    case FromBeginning =>
      (!(distance < 0 || Unsigned(distance) > size), Unsigned(distance))
    case FromPosition =>
      (!(Signed(Signed(offset) + distance) < 0 || Unsigned(offset + distance) > size), Unsigned(offset + distance))
    case FromEnd =>
      (!(Unsigned(size + distance) > size || Signed(Signed(size) + distance) < 0), Unsigned(size + distance))
  }

  /** Whether a seek to p is accepted on a device of the given size. */
  predicate SeekAccepted(size: nat, p: int) {
    (0 <= p <= size && p < TWO_63) || p >= TWO_64
  }

  function TargetOf(size: nat, offset: nat, distance: int, whence: Whence): int {
    match whence
    case FromBeginning => distance
    case FromPosition => offset + distance
    case FromEnd => size + distance
  }

  /** The tests in 64-bit arithmetic against integers, for every device size. */
  lemma SeekIsExact(size: nat, offset: nat, distance: int, whence: Whence)
    requires offset <= size < TWO_64 && -TWO_63 <= distance < TWO_63
    ensures var p := TargetOf(size, offset, distance, whence);
            && SeekTo(size, offset, distance, whence).0 == SeekAccepted(size, p)
            && SeekTo(size, offset, distance, whence).1 == Unsigned(p)
            && (SeekAccepted(size, p) ==> Unsigned(p) <= size)
  {
    var p := TargetOf(size, offset, distance, whence);
    SignedSum(size, distance);
    SignedSum(offset, distance);
    SignOf(p);
  }

  lemma SignedSum(x: nat, d: int)
    ensures Signed(Signed(x) + d) == Signed(x + d)
  {
  }

  lemma SignOf(p: int)
    requires -TWO_63 <= p < TWO_64 + TWO_63
    ensures Signed(p) >= 0 <==> 0 <= p < TWO_63 || p >= TWO_64
    ensures Unsigned(p) == if p < 0 then p + TWO_64 else if p < TWO_64 then p else p - TWO_64
  {
  }

  /** A seek is the one of a flat file if and only if its target is below 2^63,
      or past the end but below 2^64. On a device below 2^63 bytes all are. */
  lemma SeekIsFlatIff(size: nat, offset: nat, distance: int, whence: Whence)
    requires offset <= size < TWO_64 && -TWO_63 <= distance < TWO_63
    ensures var p := TargetOf(size, offset, distance, whence);
            && (SeekTo(size, offset, distance, whence).0 == (0 <= p <= size) <==> p < TWO_63 || size < p < TWO_64)
            && (size < TWO_63 ==> p < TWO_64)
  {
    SeekIsExact(size, offset, distance, whence);
  }

  // --------------------------------------------------------------- the stream

  class Stream {
    const device: array<Byte>
    const buffer: array<Byte>
    const healthy: bool
    var firstSector: nat
    var valid: bool
    var dirty: bool
    var offset: nat

    ghost predicate Valid()
      reads this, device, buffer
    {
      && device != buffer
      && SECTOR_SIZE <= buffer.Length
      && device.Length < TWO_64
      && offset <= device.Length
      && (valid ==> Start() + buffer.Length <= device.Length)
      && (!valid ==> !dirty)
      && (valid && !dirty ==> device[Start()..Start() + buffer.Length] == buffer[..])
    }

    /** Where the cached window begins on the device. */
    function Start(): nat
      reads this
    {
      firstSector * SECTOR_SIZE
    }

    /** Where the stream stands. */
    function Place(): Spot
      reads this
    {
      Spot(if valid then Some(firstSector) else None, offset)
    }

    /** What the stream shows: the device under the cache. */
    ghost function Contents(): (r: seq<Byte>)
      requires Valid()
      reads this, device, buffer
      ensures |r| == device.Length
      ensures !dirty ==> r == device[..]
    {
      if valid then Overlay(device[..], Start(), buffer[..]) else device[..]
    }

    ghost function Value(): File
      requires Valid()
      reads this, device, buffer
    {
      File(Contents(), offset)
    }

    /** blockdevice_stream_on, over a given device. A healthy device refuses no
        transfer inside its bounds. */
    constructor (bdev: array<Byte>, cacheSize: nat, isHealthy: bool)
      requires cacheSize >= SECTOR_SIZE && bdev.Length < TWO_64
      ensures Valid() && device == bdev && fresh(buffer) && buffer.Length == cacheSize && healthy == isHealthy
      ensures Value() == File(bdev[..], 0) && Place() == Spot(None, 0)
    {
      device, healthy := bdev, isHealthy;
      buffer := new Byte[cacheSize];
      firstSector, valid, dirty, offset := 0, false, false, 0;
    }

    /** blockdevice_read into the cache. The device may refuse, and does when
        the window passes its end; then the cache may hold anything. */
    method CacheRead(sector: nat) returns (ok: bool)
      requires device != buffer
      modifies buffer
      ensures ok ==> sector * SECTOR_SIZE + buffer.Length <= device.Length
      ensures healthy ==> ok == (sector * SECTOR_SIZE + buffer.Length <= device.Length)
      ensures ok ==> buffer[..] == device[sector * SECTOR_SIZE..sector * SECTOR_SIZE + buffer.Length]
    {
      var at := sector * SECTOR_SIZE;
      ok := *;
      if (ok || healthy) && at + buffer.Length <= device.Length {
        forall i | 0 <= i < buffer.Length {
          buffer[i] := device[at + i];
        }
        ok := true;
      } else {
        ok := false;
        modify buffer;
      }
    }

    /** blockdevice_write of the cache. When the device fails, the window on it
        may hold anything. */
    method CacheWrite() returns (ok: bool)
      requires device != buffer && Start() + buffer.Length <= device.Length
      modifies device
      ensures healthy ==> ok
      ensures ok ==> device[..] == Overlay(old(device[..]), Start(), buffer[..])
      ensures forall i | 0 <= i < device.Length && !(Start() <= i < Start() + buffer.Length) :: device[i] == old(device[i])
    {
      var at := Start();
      ok := *;
      ok := ok || healthy;
      if ok {
        forall i | 0 <= i < buffer.Length {
          device[at + i] := buffer[i];
        }
      } else {
        var junk := new Byte[buffer.Length];
        forall i | 0 <= i < buffer.Length {
          device[at + i] := junk[i];
        }
      }
    }

    predicate SectorIsCached(sector: nat)
      reads this
    {
      firstSector <= sector < firstSector + buffer.Length / SECTOR_SIZE
    }

    /** blockdev_stream_flush */
    method FlushCache() returns (ok: bool)
      requires Valid()
      modifies device, `dirty
      ensures Valid() && Value() == old(Value()) && Place() == old(Place())
      ensures ok ==> !dirty && device[..] == Contents()
      ensures !ok ==> dirty
      ensures healthy ==> ok
    {
      if !valid || !dirty {
        return true;
      }
      ghost var before := device[..];
      ok := CacheWrite();
      OverlayAgain(before, device[..], Start(), buffer[..]);
      if ok {
        dirty := false;
        assert device[..][Start()..Start() + buffer.Length] == buffer[..];
      }
    }

    /** Gives up a cached window, once it is on the device. */
    method Evict() returns (ok: bool)
      requires Valid()
      modifies device, `valid, `dirty
      ensures Valid() && Value() == old(Value())
      ensures ok ==> !valid
      ensures healthy ==> ok
    {
      if dirty {
        var flushed := FlushCache();
        if !flushed {
          return false;
        }
      }
      valid := false;
      ok := true;
    }

    /** Fills an empty cache from the given sector on. */
    method Fill(sector: nat) returns (ok: bool)
      requires Valid() && !valid
      modifies buffer, `firstSector, `valid, `dirty
      ensures Valid() && Value() == old(Value())
      ensures ok ==> valid && firstSector == sector
      ensures !ok ==> !valid
      ensures healthy ==> ok == (sector * SECTOR_SIZE + buffer.Length <= device.Length)
    {
      ok := CacheRead(sector);
      if ok {
        dirty, valid, firstSector := false, true, sector;
        OverlaySame(device[..], Start(), buffer[..]);
      }
    }

    /** The part of a turn of both loops that makes the cache hold the sector of
        the offset. */
    method Load() returns (ok: bool)
      requires Valid() && offset < device.Length
      modifies device, buffer, `firstSector, `valid, `dirty
      ensures Valid() && Value() == old(Value())
      ensures ok ==> valid && Start() <= offset < Start() + buffer.Length
      ensures ok ==> Loaded(old(Place()), buffer.Length, device.Length) == Some(firstSector)
      ensures healthy && !ok ==> Loaded(old(Place()), buffer.Length, device.Length) == None && !valid
    {
      var sector := offset / SECTOR_SIZE;
      ok := true;
      if valid && !SectorIsCached(sector) {
        ok := Evict();
      }
      if ok && !valid {
        ok := Fill(sector);
      }
    }

    /** From place p on, a loop to the offset end has come here, or has failed
        here if it is not ok. */
    ghost predicate WalksOn(p: Spot, ok: bool, end: nat)
      requires buffer.Length >= SECTOR_SIZE
      reads this
    {
      Walk(p, end, buffer.Length, device.Length) ==
      if ok then Walk(Place(), end, buffer.Length, device.Length) else (Place(), false)
    }

    /** memcpy out of the cache. */
    method CopyOut(buf: array<Byte>, at: nat, inside: nat, n: nat)
      requires buf != buffer && at + n <= buf.Length && inside + n <= buffer.Length
      modifies buf
      ensures forall i | at <= i < at + n :: buf[i] == buffer[inside + i - at]
      ensures forall i | 0 <= i < buf.Length && !(at <= i < at + n) :: buf[i] == old(buf[i])
    {
      forall i | 0 <= i < n {
        buf[at + i] := buffer[inside + i];
      }
    }

    /** memcpy into the cache. */
    method FillFrom(buf: array<Byte>, at: nat, inside: nat, n: nat)
      requires buf != buffer && at + n <= buf.Length && inside + n <= buffer.Length
      modifies buffer
      ensures buffer[..] == Overlay(old(buffer[..]), inside, buf[at..at + n])
    {
      forall i | 0 <= i < n {
        buffer[inside + i] := buf[at + i];
      }
    }

    /** The part of a turn that copies bytes into the cache. */
    method CopyIn(buf: array<Byte>, at: nat, n: nat)
      requires Valid() && buf != device && buf != buffer && at + n <= buf.Length
      requires valid && Start() <= offset && offset + n <= Start() + buffer.Length
      modifies buffer, `dirty
      ensures Valid() && valid
      ensures Contents() == Overlay(old(Contents()), offset, buf[at..at + n])
    {
      ghost var d := buffer[..];
      FillFrom(buf, at, offset - Start(), n);
      dirty := true;
      OverlayNested(device[..], Start(), d, offset - Start(), buf[at..at + n]);
    }

    /** The part of a turn that moves bytes from the caller to the cache. */
    method PutIn(buf: array<Byte>, at: nat) returns (n: nat)
      requires Valid() && buf != device && buf != buffer
      requires at < buf.Length && offset + buf.Length - at <= device.Length
      requires valid && Start() <= offset < Start() + buffer.Length
      modifies buffer, `dirty, `offset
      ensures Valid() && valid && offset == old(offset) + n && 0 < n && at + n <= buf.Length
      ensures offset == Min(old(offset) + buf.Length - at, Start() + buffer.Length)
      ensures Contents() == Overlay(old(Contents()), old(offset), buf[at..at + n])
    {
      var left := Start() + buffer.Length - offset;
      n := if buf.Length - at < left then buf.Length - at else left;
      CopyIn(buf, at, n);
      offset := offset + n;
    }

    /** Copies n bytes from the offset on out of the cache. */
    method CopyShown(buf: array<Byte>, at: nat, n: nat)
      requires Valid() && buf != device && buf != buffer && at + n <= buf.Length
      requires valid && Start() <= offset && offset + n <= Start() + buffer.Length
      modifies buf
      ensures forall i | at <= i < at + n :: buf[i] == Contents()[offset + i - at]
      ensures forall i | 0 <= i < buf.Length && !(at <= i < at + n) :: buf[i] == old(buf[i])
    {
      var inside := offset - Start();
      CopyOut(buf, at, inside, n);
      forall i | at <= i < at + n
        ensures buf[i] == Contents()[offset + i - at]
      {
        OverlayInside(device[..], Start(), buffer[..], inside + i - at);
      }
    }

    /** The part of a turn that moves bytes from the cache to the caller. */
    method TakeOut(buf: array<Byte>, at: nat, most: nat) returns (n: nat)
      requires Valid() && buf != device && buf != buffer
      requires 0 < most && at + most <= buf.Length && offset + most <= device.Length
      requires valid && Start() <= offset < Start() + buffer.Length
      modifies `offset, buf
      ensures Valid() && offset == old(offset) + n && 0 < n <= most && Contents() == old(Contents())
      ensures offset == Min(old(offset) + most, Start() + buffer.Length)
      ensures forall i | at <= i < at + n :: buf[i] == Contents()[old(offset) + i - at]
      ensures forall i | 0 <= i < buf.Length && !(at <= i < at + n) :: buf[i] == old(buf[i])
    {
      var inside := offset - Start();
      n := if most < buffer.Length - inside then most else buffer.Length - inside;
      CopyShown(buf, at, n);
      offset := offset + n;
    }

    /** One turn of the loop of blockdev_stream_read, with at most most bytes to
        read. */
    method ReadTurn(buf: array<Byte>, at: nat, most: nat) returns (ok: bool, n: nat)
      requires Valid() && buf != device && buf != buffer
      requires 0 < most && at + most <= buf.Length && offset + most <= device.Length
      modifies device, buffer, `firstSector, `valid, `dirty, `offset, buf
      ensures Valid() && Contents() == old(Contents()) && offset == old(offset) + n && n <= most
      ensures forall i | at <= i < at + n :: buf[i] == Contents()[old(offset) + i - at]
      ensures forall i | 0 <= i < buf.Length && !(at <= i < at + n) :: buf[i] == old(buf[i])
      ensures ok <==> n > 0
      ensures healthy ==> WalksOn(old(Place()), ok, old(offset) + most)
    {
      ok := Load();
      n := 0;
      if ok {
        n := TakeOut(buf, at, most);
      }
    }

    /** One turn of the loop of blockdev_stream_write. */
    method WriteTurn(buf: array<Byte>, at: nat) returns (ok: bool, n: nat)
      requires Valid() && buf != device && buf != buffer
      requires at < buf.Length && offset + buf.Length - at <= device.Length
      modifies device, buffer, `firstSector, `valid, `dirty, `offset
      ensures Valid() && offset == old(offset) + n && at + n <= buf.Length
      ensures Contents() == Overlay(old(Contents()), old(offset), buf[at..at + n])
      ensures ok <==> n > 0
      ensures healthy ==> WalksOn(old(Place()), ok, old(offset) + buf.Length - at)
    {
      ok := Load();
      n := 0;
      if ok {
        n := PutIn(buf, at);
      } else {
        OverlayNothing(Contents(), offset);
      }
    }

    /** The loop of blockdev_stream_read. */
    method ReadLoop(buf: array<Byte>, size: nat) returns (ok: bool, moved: nat)
      requires Valid() && buf != device && buf != buffer
      requires size <= buf.Length && offset + size <= device.Length
      modifies device, buffer, `firstSector, `valid, `dirty, `offset, buf
      ensures Valid() && Contents() == old(Contents()) && offset == old(offset) + moved
      ensures moved <= size && (ok ==> moved == size)
      ensures healthy ==> (Place(), ok) == Walk(old(Place()), old(offset) + size, buffer.Length, device.Length)
      ensures forall i | 0 <= i < moved :: buf[i] == Contents()[old(offset) + i]
      ensures forall i | moved <= i < buf.Length :: buf[i] == old(buf[i])
    {
      ghost var bytes, start, from := Contents(), offset, Place();
      moved, ok := 0, true;
      while ok && moved < size
        invariant Valid() && Contents() == bytes
        invariant moved <= size && offset == start + moved
        invariant forall i | 0 <= i < moved :: buf[i] == bytes[start + i]
        invariant forall i | moved <= i < buf.Length :: buf[i] == old(buf[i])
        invariant healthy ==> WalksOn(from, ok, start + size)
        decreases ok, size - moved
      {
        var n;
        ok, n := ReadTurn(buf, moved, size - moved);
        moved := moved + n;
      }
    }

    /** blockdev_stream_read. moved is the number of bytes read, which the
        program returns only on success. */
    method ReadStream(buf: array<Byte>) returns (ok: bool, moved: nat)
      requires Valid() && buf != device && buf != buffer
      modifies device, buffer, `firstSector, `valid, `dirty, `offset, buf
      ensures Valid()
      ensures moved <= buf.Length && buf[moved..] == old(buf[moved..])
      ensures FileStep(old(Value()), Read(buf.Length), Outcome(ok, moved, buf[..moved]), Value())
      ensures healthy ==>
                (Place(), ok) == Walk(old(Place()), Min(old(offset) + buf.Length, device.Length), buffer.Length, device.Length)
    {
      var size := if offset + buf.Length > device.Length then device.Length - offset else buf.Length;
      ok, moved := ReadLoop(buf, size);
      assert buf[..moved] == Contents()[old(offset)..offset];
    }

    /** The loop of blockdev_stream_write. */
    method WriteLoop(buf: array<Byte>) returns (ok: bool, moved: nat)
      requires Valid() && buf != device && buf != buffer && offset + buf.Length <= device.Length
      modifies device, buffer, `firstSector, `valid, `dirty, `offset
      ensures Valid() && offset == old(offset) + moved
      ensures moved <= buf.Length && (ok ==> moved == buf.Length)
      ensures Contents() == Overlay(old(Contents()), old(offset), buf[..][..moved])
      ensures healthy ==> (Place(), ok) == Walk(old(Place()), old(offset) + buf.Length, buffer.Length, device.Length)
    {
      ghost var bytes, start, data := Contents(), offset, buf[..];
      moved, ok := 0, true;
      OverlayNothing(bytes, start);
      while ok && moved < buf.Length
        invariant Valid()
        invariant moved <= buf.Length && offset == start + moved
        invariant Contents() == Overlay(bytes, start, data[..moved])
        invariant healthy ==> WalksOn(old(Place()), ok, start + buf.Length)
        decreases ok, buf.Length - moved
      {
        var n;
        ok, n := WriteTurn(buf, moved);
        OverlayLonger(bytes, start, data, moved, n);
        moved := moved + n;
      }
    }

    /** blockdev_stream_write. moved is the number of bytes written, which the
        program returns only on success. */
    method WriteStream(buf: array<Byte>) returns (ok: bool, moved: nat)
      requires Valid() && buf != device && buf != buffer
      modifies device, buffer, `firstSector, `valid, `dirty, `offset
      ensures Valid() && moved <= buf.Length
      ensures FileStep(old(Value()), Write(buf[..]), Outcome(ok, moved, []), Value())
      ensures healthy ==>
                (Place(), ok) == if old(offset) + buf.Length > device.Length then (old(Place()), false)
                                 else Walk(old(Place()), old(offset) + buf.Length, buffer.Length, device.Length)
    {
      if offset + buf.Length > device.Length {
        OverlayNothing(Contents(), offset);
        return false, 0;
      }
      ok, moved := WriteLoop(buf);
    }

    /** blockdev_stream_seek */
    method SeekStream(distance: int, whence: Whence) returns (ok: bool)
      requires Valid() && -TWO_63 <= distance < TWO_63
      modifies `offset
      ensures Valid()
      ensures FileStep(old(Value()), Seek(distance, whence), Outcome(ok, 0, []), Value())
      ensures Place() == Spot(old(Place()).window, offset)
    {
      SeekIsExact(device.Length, offset, distance, whence);
      var (inside, position) := SeekTo(device.Length, offset, distance, whence);
      ok := inside;
      if ok {
        offset := position;
      }
    }
  }

  lemma OverlayInside(s: seq<Byte>, at: nat, d: seq<Byte>, i: nat)
    requires at + |d| <= |s| && i < |d|
    ensures Overlay(s, at, d)[at + i] == d[i]
  {
  }

  lemma OverlayNothing(s: seq<Byte>, at: nat)
    requires at <= |s|
    ensures Overlay(s, at, []) == s
  {
  }

  lemma OverlayNested(s: seq<Byte>, at: nat, d: seq<Byte>, inside: nat, x: seq<Byte>)
    requires at + |d| <= |s| && inside + |x| <= |d|
    ensures Overlay(s, at, Overlay(d, inside, x)) == Overlay(Overlay(s, at, d), at + inside, x)
  {
  }

  lemma OverlayLonger(s: seq<Byte>, at: nat, x: seq<Byte>, k: nat, n: nat)
    requires k + n <= |x| && at + k + n <= |s|
    ensures Overlay(Overlay(s, at, x[..k]), at + k, x[k..k + n]) == Overlay(s, at, x[..k + n])
  {
  }

  /** A window that is put over twice hides what was there in between. */
  lemma OverlayAgain(s: seq<Byte>, t: seq<Byte>, at: nat, d: seq<Byte>)
    requires |s| == |t| && at + |d| <= |s|
    requires forall i | 0 <= i < |s| && !(at <= i < at + |d|) :: s[i] == t[i]
    ensures Overlay(t, at, d) == Overlay(s, at, d)
  {
  }

  lemma OverlaySame(s: seq<Byte>, at: nat, d: seq<Byte>)
    requires at + |d| <= |s| && s[at..at + |d|] == d
    ensures Overlay(s, at, d) == s
  {
    forall i | 0 <= i < |s|
      ensures Overlay(s, at, d)[i] == s[i]
    {
      if at <= i < at + |d| {
        assert s[at..at + |d|][i - at] == s[i];
      }
    }
  }

  // ------------------------------------------------------------ runs of calls

  predicate Representable(op: Op) {
    op.Seek? ==> -TWO_63 <= op.distance < TWO_63
  }

  ghost predicate FileRun(files: seq<File>, ops: seq<Op>, outs: seq<Outcome>) {
    && |files| == |ops| + 1 && |outs| == |ops|
    && (forall i | 0 <= i < |ops| :: FileStep(files[i], ops[i], outs[i], files[i + 1]))
  }

  /** Where a call leaves the stream and whether it succeeds, when the device
      refuses no transfer inside its bounds. */
  function Play(p: Spot, op: Op, cache: nat, size: nat): (Spot, bool)
    requires cache >= SECTOR_SIZE
  {
    match op
    case Read(n) => Walk(p, Min(p.offset + n, size), cache, size)
    case Write(data) =>
      if p.offset + |data| > size then (p, false) else Walk(p, p.offset + |data|, cache, size)
    case Seek(distance, whence) =>
      var q := TargetOf(size, p.offset, distance, whence);
      if SeekAccepted(size, q) then (p.(offset := Unsigned(q)), true) else (p, false)
    case Flush => (p, true)
  }

  /** The place after the first n calls. */
  function PlayAll(p: Spot, ops: seq<Op>, n: nat, cache: nat, size: nat): Spot
    requires cache >= SECTOR_SIZE && n <= |ops|
  {
    if n == 0 then p else Play(PlayAll(p, ops, n - 1, cache, size), ops[n - 1], cache, size).0
  }

  method CallRead(s: Stream, size: nat) returns (out: Outcome)
    requires s.Valid()
    modifies s, s.device, s.buffer
    ensures s.Valid() && FileStep(old(s.Value()), Read(size), out, s.Value())
    ensures s.healthy ==> (s.Place(), out.ok) == Play(old(s.Place()), Read(size), s.buffer.Length, s.device.Length)
  {
    ghost var f, p := s.Value(), s.Place();
    var buf := new Byte[size];
    assert s.Value() == f && s.Place() == p;
    var ok, moved := s.ReadStream(buf);
    out := Outcome(ok, moved, buf[..moved]);
    assert FileStep(f, Read(size), out, s.Value());
  }

  method CallWrite(s: Stream, data: seq<Byte>) returns (out: Outcome)
    requires s.Valid()
    modifies s, s.device, s.buffer
    ensures s.Valid() && FileStep(old(s.Value()), Write(data), out, s.Value())
    ensures s.healthy ==> (s.Place(), out.ok) == Play(old(s.Place()), Write(data), s.buffer.Length, s.device.Length)
  {
    var buf := new Byte[|data|](i requires 0 <= i < |data| => data[i]);
    assert buf[..] == data;
    var ok, moved := s.WriteStream(buf);
    out := Outcome(ok, moved, []);
  }

  method Call(s: Stream, op: Op) returns (out: Outcome)
    requires s.Valid() && Representable(op)
    modifies s, s.device, s.buffer
    ensures s.Valid() && FileStep(old(s.Value()), op, out, s.Value())
    ensures op.Flush? && out.ok ==> s.device[..] == s.Contents()
    ensures s.healthy ==> (s.Place(), out.ok) == Play(old(s.Place()), op, s.buffer.Length, s.device.Length)
  {
    match op {
      case Read(size) => out := CallRead(s, size);
      case Write(data) => out := CallWrite(s, data);
      case Seek(distance, whence) =>
        var ok := s.SeekStream(distance, whence);
        out := Outcome(ok, 0, []);
      case Flush =>
        var ok := s.FlushCache();
        out := Outcome(ok, 0, []);
    }
  }

  /** Every sequence of calls on a stream is a sequence of calls on a flat file,
      whatever the device refuses; a flush that succeeds at the end leaves the
      bytes of that file on the device; and if the device refuses nothing inside
      its bounds, which calls succeed is known beforehand. */
  method Calls(s: Stream, ops: seq<Op>) returns (outs: seq<Outcome>, ghost files: seq<File>)
    requires s.Valid() && (forall i | 0 <= i < |ops| :: Representable(ops[i]))
    modifies s, s.device, s.buffer
    ensures s.Valid() && FileRun(files, ops, outs)
    ensures files[0] == old(s.Value()) && files[|ops|] == s.Value()
    ensures ops != [] && ops[|ops| - 1] == Flush && outs[|ops| - 1].ok ==> s.device[..] == files[|ops|].bytes
    ensures s.healthy ==> Foreseen(old(s.Place()), ops, outs, |ops|, s.buffer.Length, s.device.Length)
  {
    outs, files := [], [s.Value()];
    ghost var p := s.Place();
    for n := 0 to |ops|
      invariant s.Valid() && FileRun(files, ops[..n], outs)
      invariant files[0] == old(s.Value()) && files[n] == s.Value()
      invariant n > 0 && ops[n - 1] == Flush && outs[n - 1].ok ==> s.device[..] == files[n].bytes
      invariant s.healthy ==> s.Place() == PlayAll(p, ops, n, s.buffer.Length, s.device.Length)
      invariant s.healthy ==> Foreseen(p, ops, outs, n, s.buffer.Length, s.device.Length)
    {
      var out := Call(s, ops[n]);
      RunGrows(files, ops, outs, n, out, s.Value());
      if s.healthy { ForeseenGrows(p, ops, outs, n, out, s.buffer.Length, s.device.Length); }
      outs := outs + [out];
      files := files + [s.Value()];
    }
    assert ops[..|ops|] == ops;
  }

  /** The first n calls succeed exactly when foreseen. */
  ghost predicate Foreseen(p: Spot, ops: seq<Op>, outs: seq<Outcome>, n: nat, cache: nat, size: nat)
    requires cache >= SECTOR_SIZE
  {
    n <= |ops| && n <= |outs|
    && forall i | 0 <= i < n :: outs[i].ok == Play(PlayAll(p, ops, i, cache, size), ops[i], cache, size).1
  }

  lemma ForeseenGrows(p: Spot, ops: seq<Op>, outs: seq<Outcome>, n: nat, out: Outcome, cache: nat, size: nat)
    requires cache >= SECTOR_SIZE && n < |ops| && n == |outs| && Foreseen(p, ops, outs, n, cache, size)
    requires out.ok == Play(PlayAll(p, ops, n, cache, size), ops[n], cache, size).1
    ensures Foreseen(p, ops, outs + [out], n + 1, cache, size)
  {
    forall i | 0 <= i < n + 1
      ensures (outs + [out])[i].ok == Play(PlayAll(p, ops, i, cache, size), ops[i], cache, size).1
    {
      assert i < n ==> (outs + [out])[i] == outs[i];
    }
  }

  /** On a device of three sectors that refuses nothing, a stream with a cache of
      two sectors cannot read the byte at 1024, which is in the file. */
  method TailIsOutOfReach() returns (s: Stream, ok: bool)
    ensures s.Valid() && s.healthy && s.buffer.Length == 1024 && s.device.Length == 1536
    ensures s.Value().offset == 1024 < |s.Value().bytes| && !ok
  {
    var device := new Byte[1536];
    s := new Stream(device, 1024, true);
    var sought := s.SeekStream(1024, FromBeginning);
    assert sought && s.Place() == Spot(None, 1024);
    var buf := new Byte[1];
    var moved;
    TailDependsOnCache();
    ok, moved := s.ReadStream(buf);
  }

  lemma RunGrows(files: seq<File>, ops: seq<Op>, outs: seq<Outcome>, n: nat, out: Outcome, f: File)
    requires n < |ops| && FileRun(files, ops[..n], outs) && FileStep(files[n], ops[n], out, f)
    ensures FileRun(files + [f], ops[..n + 1], outs + [out])
  {
    var fs, os, us := files + [f], ops[..n + 1], outs + [out];
    forall i | 0 <= i < n + 1
      ensures FileStep(fs[i], os[i], us[i], fs[i + 1])
    {
      if i < n {
        assert FileStep(files[i], ops[..n][i], outs[i], files[i + 1]);
      }
    }
  }

  /** The offset stays inside the file and the file keeps its size. */
  lemma {:induction false} OffsetStaysInside(files: seq<File>, ops: seq<Op>, outs: seq<Outcome>, n: nat)
    requires FileRun(files, ops, outs) && n <= |ops| && files[0].offset <= |files[0].bytes| < TWO_64
    requires forall i | 0 <= i < |ops| :: Representable(ops[i])
    ensures |files[n].bytes| == |files[0].bytes| && files[n].offset <= |files[n].bytes|
  {
    if n > 0 {
      OffsetStaysInside(files, ops, outs, n - 1);
      var f, op := files[n - 1], ops[n - 1];
      assert FileStep(f, op, outs[n - 1], files[n]);
      if op.Seek? {
        SeekIsExact(|f.bytes|, f.offset, op.distance, op.whence);
      }
    }
  }

  /** What is written is read back: after a write, any reads, seeks and flushes,
      and a seek to where the write began, a read of that size gives it. */
  lemma {:induction false} WrittenIsReadBack(files: seq<File>, ops: seq<Op>, outs: seq<Outcome>, n: nat)
    requires FileRun(files, ops, outs) && n + 1 < |ops|
    requires ops[0].Write? && outs[0].ok && (forall i | 0 < i <= n + 1 :: !ops[i].Write?)
    requires ops[n + 1] == Read(|ops[0].data|) && outs[n + 1].ok && files[n + 1].offset == files[0].offset
    ensures outs[n + 1].read == ops[0].data
  {
    var data := ops[0].data;
    assert FileStep(files[0], ops[0], outs[0], files[1]);
    assert data[..|data|] == data;
    BytesAreKept(files, ops, outs, n);
    assert FileStep(files[n + 1], ops[n + 1], outs[n + 1], files[n + 2]);
  }

  lemma {:induction false} BytesAreKept(files: seq<File>, ops: seq<Op>, outs: seq<Outcome>, n: nat)
    requires FileRun(files, ops, outs) && n < |ops|
    requires forall i | 0 < i <= n :: !ops[i].Write?
    ensures files[n + 1].bytes == files[1].bytes
  {
    if n > 0 {
      BytesAreKept(files, ops, outs, n - 1);
      assert FileStep(files[n], ops[n], outs[n], files[n + 1]);
    }
  }
}
