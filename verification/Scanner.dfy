/** Reading the log forward from a checkpoint, one record at a time. */
module Scanner {
  import opened Blocks
  import opened Log
  import opened Disk
  import opened Device

  datatype LogRecord = DataRecord(h: Header, lbas: seq<nat>, sums: seq<nat>) | MappingRecord(h: Header)
  {
    function End(): Position { Position(h.lsn, h.boundary) }
  }

  predicate CursorOk(v: Vol, from: Position, at: Position) {
    && from.lsn <= at.lsn && from.boundary <= at.boundary < v.backing
    && at.lsn - from.lsn <= at.boundary - from.boundary
    && (at.lsn == from.lsn <==> at.boundary == from.boundary)
  }

  predicate Follows(h: Header, at: Position) {
    at.lsn < MAX_U64 && h.lsn == at.lsn + 1 && h.prev == at.boundary
  }

  /** The last block `read_next` inspects. */
  function Limit(v: Vol, at: Position): nat
    requires at.boundary < v.backing
  {
    if at.boundary + RECORD_BLOCKS < v.backing then at.boundary + RECORD_BLOCKS else v.backing - 1
  }

  function FindFooter(v: Vol, I: Image, at: Position, a: nat, limit: nat): Result<Option<LogRecord>>
    requires limit < |I|
    decreases limit + 1 - a
  {
    if a > limit then Ok(None)
    else if !Current(v, I[a]) || !Follows(I[a].h, at) || I[a].h.boundary != a then FindFooter(v, I, at, a + 1, limit)
    else if Unsupported(I[a].h) then Err(InvalidData)
    else if FooterOk(v, I[a]) then Ok(Some(DataRecord(I[a].h, I[a].body.lbas, I[a].body.sums)))
    else FindFooter(v, I, at, a + 1, limit)
  }

  predicate MappingAt(v: Vol, I: Image, at: Position)
    requires at.boundary + 1 < |I|
  {
    var b := I[at.boundary + 1];
    Current(v, b) && FramingOk(v, b) && Follows(b.h, at) && b.h.boundary == at.boundary + 1
  }

  predicate SuspectAt(v: Vol, I: Image, at: Position)
    requires at.boundary + 1 < |I|
  {
    var b := I[at.boundary + 1];
    Current(v, b) && (b.h.kind == MAPPING || Unsupported(b.h))
  }

  /** The record after `at`, in a log replayed from `from`. */
  function Next(v: Vol, I: Image, from: Position, at: Position): Result<Option<LogRecord>>
    requires |I| == v.backing
  {
    if !CursorOk(v, from, at) then Err(InvalidData)
    else if at.boundary + 1 == v.backing then Ok(None)
    else if MappingAt(v, I, at) then Ok(Some(MappingRecord(I[at.boundary + 1].h)))
    else
      var found := FindFooter(v, I, at, at.boundary + 2, Limit(v, at));
      if found == Ok(None) && SuspectAt(v, I, at) then Err(InvalidData) else found
  }

  method ReadFooter(v: Vol, dev: Device, at: Position, limit: nat) returns (r: Result<Option<LogRecord>>)
    requires limit < |dev.image|
    modifies dev.faults
    ensures r == FindFooter(v, dev.image, at, at.boundary + 2, limit) || r == Err(Io)
    ensures r == FindFooter(v, dev.image, at, at.boundary + 2, limit) || dev.Faulted()
  {
    var a := at.boundary + 2;
    while a <= limit
      invariant at.boundary + 2 <= a
      invariant FindFooter(v, dev.image, at, at.boundary + 2, limit) == FindFooter(v, dev.image, at, a, limit)
      decreases limit + 1 - a
    {
      var ok, b := dev.Read(a);
      if !ok { return Err(Io); }
      if Current(v, b) && Follows(b.h, at) && b.h.boundary == a {
        if Unsupported(b.h) { return Err(InvalidData); }
        if FooterOk(v, b) { return Ok(Some(DataRecord(b.h, b.body.lbas, b.body.sums))); }
      }
      a := a + 1;
    }
    r := Ok(None);
  }

  method ReadNext(v: Vol, dev: Device, from: Position, at: Position) returns (r: Result<Option<LogRecord>>)
    requires |dev.image| == v.backing
    modifies dev.faults
    ensures r == Next(v, dev.image, from, at) || r == Err(Io)
    ensures r == Next(v, dev.image, from, at) || dev.Faulted()
  {
    if !CursorOk(v, from, at) { return Err(InvalidData); }
    if at.boundary + 1 == v.backing { return Ok(None); }
    var ok, b := dev.Read(at.boundary + 1);
    if !ok { return Err(Io); }
    if Current(v, b) && FramingOk(v, b) && Follows(b.h, at) && b.h.boundary == at.boundary + 1 {
      return Ok(Some(MappingRecord(b.h)));
    }
    r := ReadFooter(v, dev, at, Limit(v, at));
    if r == Ok(None) && Current(v, b) && (b.h.kind == MAPPING || Unsupported(b.h)) {
      r := Err(InvalidData);
    }
  }

  // ---- on a laid-out log ----

  /** What the scanner reports for record `i`. */
  ghost function RecordOf(v: Vol, recs: seq<Rec>, i: nat): LogRecord
    requires i < |recs|
  {
    if recs[i].Data? then DataRecord(HeaderOf(v, recs, i), recs[i].lbas, Sums(v, recs[i]))
    else MappingRecord(HeaderOf(v, recs, i))
  }

  ghost function PositionAt(v: Vol, recs: seq<Rec>, i: nat): Position
    requires i <= |recs|
  {
    Position(i, Boundary(v, recs, i))
  }

  lemma {:induction false} SkipQuiet(v: Vol, I: Image, at: Position, a: nat, to: nat, limit: nat)
    requires limit < |I| && a <= to <= limit + 1
    requires forall q :: a <= q < to ==> !Current(v, I[q])
    ensures FindFooter(v, I, at, a, limit) == FindFooter(v, I, at, to, limit)
    decreases limit + 1 - a
  {
    if a < to { SkipQuiet(v, I, at, a + 1, to, limit); }
  }

  lemma CursorInLog(v: Vol, recs: seq<Rec>, j: nat, i: nat)
    requires v.Ok() && WellFormed(v, recs) && j <= i <= |recs|
    ensures CursorOk(v, PositionAt(v, recs, j), PositionAt(v, recs, i))
    ensures i < MAX_U64
  {
    BoundaryGrows(v, recs, 0, i);
    BoundaryGrows(v, recs, j, i);
    BoundaryGrows(v, recs, i, |recs|);
  }

  lemma FooterHolds(v: Vol, I: Image, recs: seq<Rec>, i: nat)
    requires v.Ok() && LogAt(v, I, recs) && i < |recs| && recs[i].Data?
    ensures recs[i].prev + recs[i].Size() < |I| && FooterOk(v, I[recs[i].prev + recs[i].Size()])
  {
    assert RecAt(v, I, recs, i) && Linked(v, recs, i);
    BoundaryGrows(v, recs, 0, i);
    BoundaryGrows(v, recs, i + 1, |recs|);
  }

  lemma NextData(v: Vol, I: Image, recs: seq<Rec>, j: nat, i: nat)
    requires v.Ok() && LogAt(v, I, recs) && j <= i < |recs| && recs[i].Data?
    ensures Next(v, I, PositionAt(v, recs, j), PositionAt(v, recs, i)) == Ok(Some(RecordOf(v, recs, i)))
  {
    hide FooterOk, RecOk;
    var r, at := recs[i], PositionAt(v, recs, i);
    var a := r.prev + r.Size();
    CursorInLog(v, recs, j, i);
    FooterHolds(v, I, recs, i);
    assert RecAt(v, I, recs, i) && Linked(v, recs, i);
    assert 1 <= |r.lbas| <= MAX_PAYLOADS by { DataShape(v, recs, i); }
    forall q | r.prev + 1 <= q < a ensures !Current(v, I[q]) {
      var k := q - r.prev - 1;
      assert I[r.prev + 1 + k] == Raw(r.payloads[k]);
    }
    SkipQuiet(v, I, at, at.boundary + 2, a, Limit(v, at));
  }

  lemma DataShape(v: Vol, recs: seq<Rec>, i: nat)
    requires WellFormed(v, recs) && i < |recs| && recs[i].Data?
    ensures 1 <= |recs[i].lbas| <= MAX_PAYLOADS && |recs[i].payloads| == |recs[i].lbas| && Distinct(recs[i].lbas)
    ensures forall k :: 0 <= k < |recs[i].lbas| ==> recs[i].lbas[k] < v.blocks
    ensures recs[i].prev == Boundary(v, recs, i)
  {
    assert Linked(v, recs, i);
  }

  lemma NextSnap(v: Vol, I: Image, recs: seq<Rec>, j: nat, i: nat)
    requires v.Ok() && LogAt(v, I, recs) && j <= i < |recs| && recs[i].Snap?
    ensures Next(v, I, PositionAt(v, recs, j), PositionAt(v, recs, i)) == Ok(Some(RecordOf(v, recs, i)))
  {
    CursorInLog(v, recs, j, i);
    BoundaryGrows(v, recs, 0, i);
    assert RecAt(v, I, recs, i) && Linked(v, recs, i);
  }

  lemma NextNone(v: Vol, I: Image, recs: seq<Rec>, j: nat)
    requires v.Ok() && LogAt(v, I, recs) && j <= |recs|
    ensures Next(v, I, PositionAt(v, recs, j), PositionAt(v, recs, |recs|)) == Ok(None)
  {
    var at := PositionAt(v, recs, |recs|);
    CursorInLog(v, recs, j, |recs|);
    if at.boundary + 1 < v.backing {
      SkipQuiet(v, I, at, at.boundary + 2, Limit(v, at) + 1, Limit(v, at));
    }
  }

  /** On a laid-out log the scanner returns exactly its records, in order, and then stops. */
  lemma NextInLog(v: Vol, I: Image, recs: seq<Rec>, j: nat, i: nat)
    requires v.Ok() && LogAt(v, I, recs) && j <= i <= |recs|
    ensures Next(v, I, PositionAt(v, recs, j), PositionAt(v, recs, i)) ==
            if i < |recs| then Ok(Some(RecordOf(v, recs, i))) else Ok(None)
    ensures i < |recs| ==> RecordOf(v, recs, i).End() == PositionAt(v, recs, i + 1)
  {
    if i == |recs| { NextNone(v, I, recs, j); }
    else if recs[i].Data? { NextData(v, I, recs, j, i); }
    else { NextSnap(v, I, recs, j, i); }
  }

  // ---- the stale tail, on any image ----

  /** The scanner sees the blocks up to `Limit` and no others. */
  lemma {:induction false} FindFooterLocal(v: Vol, I: Image, J: Image, at: Position, a: nat, limit: nat)
    requires limit < |I| == |J| && forall q :: a <= q <= limit ==> I[q] == J[q]
    ensures FindFooter(v, I, at, a, limit) == FindFooter(v, J, at, a, limit)
    decreases limit + 1 - a
  {
    if a <= limit { FindFooterLocal(v, I, J, at, a + 1, limit); }
  }

  lemma NextLocal(v: Vol, I: Image, J: Image, from: Position, at: Position)
    requires |I| == |J| == v.backing
    requires CursorOk(v, from, at) ==> forall q :: at.boundary < q <= Limit(v, at) ==> I[q] == J[q]
    ensures Next(v, I, from, at) == Next(v, J, from, at)
  {
    if CursorOk(v, from, at) && at.boundary + 1 < v.backing {
      FindFooterLocal(v, I, J, at, at.boundary + 2, Limit(v, at));
    }
  }

  /** Cleared blocks end the scan, whatever lies behind them. */
  lemma ClearedStops(v: Vol, I: Image, from: Position, at: Position)
    requires |I| == v.backing && CursorOk(v, from, at)
    requires forall q :: at.boundary < q <= Limit(v, at) ==> I[q] == Raw(0)
    ensures Next(v, I, from, at) == Ok(None)
  {
    if at.boundary + 1 < v.backing {
      SkipQuiet(v, I, at, at.boundary + 2, Limit(v, at) + 1, Limit(v, at));
    }
  }

  /** Each cleared block is needed: with any one of them left alone the scan can fail. */
  lemma ClearIsTight(v: Vol, I: Image, from: Position, at: Position, a: nat)
    requires |I| == v.backing && CursorOk(v, from, at) && at.lsn < MAX_U64 && at.boundary < a <= Limit(v, at)
    requires forall q :: at.boundary < q <= Limit(v, at) ==> I[q] == Raw(0)
    ensures Next(v, I[a := Record(Header(0, DATA, v.id, at.lsn + 1, at.boundary, a), Damaged)], from, at) ==
              Err(InvalidData)
  {
    var J := I[a := Record(Header(0, DATA, v.id, at.lsn + 1, at.boundary, a), Damaged)];
    if a == at.boundary + 1 {
      SkipQuiet(v, J, at, at.boundary + 2, Limit(v, at) + 1, Limit(v, at));
    } else {
      SkipQuiet(v, J, at, at.boundary + 2, a, Limit(v, at));
    }
  }
}
