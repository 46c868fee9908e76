/**
 Copying one partition between block devices in 4 MiB chunks, with progress reports. The
 source may end early or fail part-way; the destination may be too short.
 */
module PartitionCopy {
  import opened Prelude
  import opened DiskLayout

  const CHUNK := 4 * 1024 * 1024
  const REPORT_EVERY := 16 * 1024 * 1024

  datatype Outcome = Copied | OpenFailed | ReadFailed | WriteFailed | SyncFailed

  /** One progress callback: bytes done, bytes in all. */
  datatype Report = Report(done: nat, total: nat)

  /** Bytes the source yields from `offset` on: up to its end, or to a read error at `limit`. */
  function Readable(src: Bytes, offset: nat, limit: Option<nat>): nat {
    var left := if offset <= |src| then |src| - offset else 0;
    if limit.Some? && limit.value < left then limit.value else left
  }

  predicate ReadsToError(src: Bytes, offset: nat, limit: Option<nat>) {
    limit.Some? && limit.value < (if offset <= |src| then |src| - offset else 0)
  }

  function Room(length: nat, offset: nat): nat {
    if offset <= length then length - offset else 0
  }

  function Min3(a: nat, b: nat, c: nat): nat {
    var m := if a <= b then a else b;
    if m <= c then m else c
  }

  /** Reports never go back and never pass the total. */
  predicate Rising(rs: seq<Report>, total: nat) {
    && (forall i :: 0 <= i < |rs| ==> rs[i].total == total && rs[i].done <= total)
    && (forall i, j :: 0 <= i < j < |rs| ==> rs[i].done <= rs[j].done)
  }

  /** The device with `n` source bytes over it at `to`; every other byte as before. */
  predicate Holds(dev: Bytes, before: Bytes, src: Bytes, from: nat, to: nat, n: nat)
    requires |dev| == |before| && (n > 0 ==> from + n <= |src| && to + n <= |dev|)
  {
    forall k :: 0 <= k < |dev| ==> dev[k] == if to <= k < to + n then src[from + (k - to)] else before[k]
  }

  /** Writes `n` more source bytes after the `copied` ones already on the device, as far as they fit. */
  method CopyChunk(src: Bytes, from: nat, dst: array<Byte>, to: nat, copied: nat, n: nat, ghost before: Bytes)
    returns (fits: nat)
    requires |before| == dst.Length && (n > 0 ==> from + copied + n <= |src|)
    requires copied > 0 ==> from + copied <= |src| && to + copied <= dst.Length
    requires Holds(dst[..], before, src, from, to, copied)
    modifies dst
    ensures fits == if Room(dst.Length, to + copied) < n then Room(dst.Length, to + copied) else n
    ensures Holds(dst[..], before, src, from, to, copied + fits)
  {
    fits := if Room(dst.Length, to + copied) < n then Room(dst.Length, to + copied) else n;
    forall k | to + copied <= k < to + copied + fits {
      dst[k] := src[from + (k - to)];
    }
  }

  lemma RisingSnoc(rs: seq<Report>, total: nat, done: nat)
    requires Rising(rs, total) && done <= total && (rs != [] ==> rs[|rs| - 1].done <= done)
    ensures Rising(rs + [Report(done, total)], total)
  {
  }

  function LastDone(rs: seq<Report>): nat {
    if rs == [] then 0 else rs[|rs| - 1].done
  }

  /** Reports come every 16 MiB or less than a 4 MiB chunk later, counted from the start. */
  predicate Paced(rs: seq<Report>) {
    forall i :: 0 <= i < |rs| ==> 0x100_0000 <= Gap(rs, i) < 0x140_0000
  }

  function Gap(rs: seq<Report>, i: nat): int
    requires i < |rs|
  {
    if i == 0 then rs[0].done else rs[i].done - rs[i - 1].done
  }

  lemma PacedSnoc(rs: seq<Report>, total: nat, done: nat)
    requires Paced(rs) && 0x100_0000 <= done - LastDone(rs) < 0x140_0000
    ensures Paced(rs + [Report(done, total)])
  {
    var all := rs + [Report(done, total)];
    forall i | 0 <= i < |all|
      ensures 0x100_0000 <= Gap(all, i) < 0x140_0000
    {
      if i < |rs| {
        assert Gap(all, i) == Gap(rs, i);
      }
    }
  }

  /** A report once 16 MiB have gone by since the last one. */
  method Tick(rs: seq<Report>, total: nat, copied: nat, tick: nat) returns (reports: seq<Report>, next: nat)
    requires Rising(rs, total) && Paced(rs) && tick == LastDone(rs) <= copied <= total
    requires copied - tick < 0x140_0000
    ensures Rising(reports, total) && Paced(reports) && next == LastDone(reports) <= copied
    ensures copied - next < 0x100_0000
    ensures (reports, next) == if copied - tick >= REPORT_EVERY then (rs + [Report(copied, total)], copied)
        else (rs, tick)
  {
    reports, next := rs, tick;
    if copied - tick >= REPORT_EVERY {
      RisingSnoc(rs, total, copied);
      PacedSnoc(rs, total, copied);
      reports, next := rs + [Report(copied, total)], copied;
    }
  }

  /** The reports made while copying; a finished copy adds one at its end. */
  function AllButLast(outcome: Outcome, rs: seq<Report>): seq<Report> {
    if outcome == Copied && rs != [] then rs[..|rs| - 1] else rs
  }

  /** How the bytes that can be read and the bytes that can be written decide the outcome. */
  predicate Outcomes(outcome: Outcome, total: nat, readable: nat, room: nat, errors: bool, syncOk: bool) {
    var offered := if total <= readable then total else readable;
    && outcome != OpenFailed
    && (outcome == WriteFailed <==> room < offered)
    && (outcome == ReadFailed <==> room >= offered && readable < total && errors)
    && (outcome == SyncFailed <==> room >= offered && !(readable < total && errors) && !syncOk)
  }

  /** What ended the loop. */
  datatype Stop = EndOfData | ReadError | ShortWrite

  /** The loop, on byte offsets. */
  method CopyLoop(src: Bytes, from: nat, dst: array<Byte>, to: nat, total: nat, readLimit: Option<nat>)
    returns (stop: Stop, copied: nat, reports: seq<Report>)
    modifies dst
    ensures var readable, room := Readable(src, from, readLimit), Room(dst.Length, to);
      var offered := if total <= readable then total else readable;
      && copied == Min3(total, readable, room)
      && Holds(dst[..], old(dst[..]), src, from, to, copied)
      && (stop == ShortWrite <==> room < offered)
      && (stop == ReadError <==> room >= offered && readable < total && ReadsToError(src, from, readLimit))
      && Rising(reports, total) && Paced(reports) && LastDone(reports) <= copied < LastDone(reports) + 0x140_0000
  {
    var readable := Readable(src, from, readLimit);
    ghost var room := Room(dst.Length, to);
    ghost var before := dst[..];
    var tick := 0;
    copied, reports := 0, [];
    while copied < total
      invariant 0 <= tick <= copied <= total && copied <= readable && copied <= room
      invariant Holds(dst[..], before, src, from, to, copied)
      invariant Rising(reports, total) && Paced(reports)
      invariant tick == LastDone(reports) && copied - tick < 0x100_0000
      decreases total - copied
    {
      var want := if total - copied < CHUNK then total - copied else CHUNK;
      var n := if readable - copied < want then readable - copied else want;
      var fits := CopyChunk(src, from, dst, to, copied, n, before);
      copied := copied + fits;
      if fits < n {
        return ShortWrite, copied, reports;
      }
      if n > 0 {
        reports, tick := Tick(reports, total, copied, tick);
      }
      if n < want {
        stop := if ReadsToError(src, from, readLimit) then ReadError else EndOfData;
        return stop, copied, reports;
      }
    }
    stop := EndOfData;
  }

  /** The loop, then the sync and the last report. */
  method CopyBytes(src: Bytes, from: nat, dst: array<Byte>, to: nat, total: nat, readLimit: Option<nat>, syncOk: bool)
    returns (outcome: Outcome, reports: seq<Report>)
    modifies dst
    ensures var readable, room := Readable(src, from, readLimit), Room(dst.Length, to);
      var moved := Min3(total, readable, room);
      && Holds(dst[..], old(dst[..]), src, from, to, moved)
      && Outcomes(outcome, total, readable, room, ReadsToError(src, from, readLimit), syncOk)
      && Rising(reports, total) && Paced(AllButLast(outcome, reports))
      && (outcome == Copied ==> reports != [] && reports[|reports| - 1] == Report(moved, total))
  {
    var stop, copied;
    stop, copied, reports := CopyLoop(src, from, dst, to, total, readLimit);
    if stop == ShortWrite {
      return WriteFailed, reports;
    }
    if stop == ReadError {
      return ReadFailed, reports;
    }
    if !syncOk {
      return SyncFailed, reports;
    }
    RisingSnoc(reports, total, copied);
    ghost var during := reports;
    reports := reports + [Report(copied, total)];
    assert AllButLast(Copied, reports) == during;
    return Copied, reports;
  }

  /**
   Opens and seeks both devices, then copies `count` sectors: exactly the bytes that can be read and that fit reach the
   destination offset, and no other destination byte changes.
   */
  method CopyPartition(src: Bytes, srcStart: Uint32, dst: array<Byte>, dstStart: Uint32, count: Uint32,
                       openOk: bool, readLimit: Option<nat>, syncOk: bool)
    returns (outcome: Outcome, reports: seq<Report>)
    modifies dst
    ensures !openOk ==> outcome == OpenFailed && reports == [] && dst[..] == old(dst[..])
    ensures openOk ==>
      var total, from, to := count * SECTOR, srcStart * SECTOR, dstStart * SECTOR;
      var readable, room := Readable(src, from, readLimit), Room(dst.Length, to);
      var moved := Min3(total, readable, room);
      && Holds(dst[..], old(dst[..]), src, from, to, moved)
      && Outcomes(outcome, total, readable, room, ReadsToError(src, from, readLimit), syncOk)
      && Rising(reports, total) && Paced(AllButLast(outcome, reports))
      && (outcome == Copied ==> reports != [] && reports[|reports| - 1] == Report(moved, total))
  {
    if !openOk {
      return OpenFailed, [];
    }
    outcome, reports := CopyBytes(src, srcStart * SECTOR, dst, dstStart * SECTOR, count * SECTOR, readLimit, syncOk);
  }

  // ------------------------------------------------------------------
  // Percentages
  // ------------------------------------------------------------------

  /** copyProgress: whole percent, capped. */
  function Percent(r: Report): nat {
    if r.total == 0 then 0
    else
      var pct := r.done * 100 / r.total;
      if pct > 100 then 100 else pct
  }

  /** The percentage is the hundredths that are wholly done; it is 100 exactly when everything is. */
  lemma PercentIsFloor(r: Report)
    requires r.done <= r.total && r.total > 0
    ensures Percent(r) * r.total <= 100 * r.done < (Percent(r) + 1) * r.total
    ensures Percent(r) == 100 <==> r.done == r.total
  {
    PercentMonotone(r.done, r.done, r.total);
    var p := r.done * 100 / r.total;
    assert p * r.total + r.done * 100 % r.total == r.done * 100;
    assert (p + 1) * r.total == p * r.total + r.total;
  }

  lemma PercentMonotone(a: nat, b: nat, total: nat)
    requires a <= b <= total && total > 0
    ensures a * 100 / total <= b * 100 / total <= 100
  {
    DivMonotone(a * 100, b * 100, total);
    DivMonotone(b * 100, 100 * total, total);
    assert 100 * total / total == 100;
  }

  lemma DivMonotone(x: nat, y: nat, d: nat)
    requires x <= y && d > 0
    ensures x / d <= y / d
  {
    var a, b := x / d, y / d;
    assert d * a <= x && y < d * b + d;
    if a > b {
      MulMonotone(d, b + 1, a);
      assert false;
    }
  }

  lemma MulMonotone(d: nat, a: nat, b: nat)
    requires a <= b
    ensures d * a <= d * b
  {
    assert d * b == d * a + d * (b - a);
  }

  /** The percentages an install phase shows never go down, never pass 100, and never wrap 64 bits. */
  lemma PercentagesRise(rs: seq<Report>, count: Uint32, i: nat, j: nat)
    requires Rising(rs, count * SECTOR) && i <= j < |rs|
    ensures Percent(rs[i]) <= Percent(rs[j]) <= 100
    ensures rs[j].done * 100 < 0x1_0000_0000_0000_0000
  {
    if count > 0 {
      PercentMonotone(rs[i].done, rs[j].done, count * SECTOR);
    }
  }
}
