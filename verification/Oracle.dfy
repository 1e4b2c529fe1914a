/** The crash-consistency oracle of one LBA, and what its eight fields stand for. */
module Oracle {
  datatype Content = Zero | Version(v: nat) | Invalid

  datatype Violation = Corrupt | LostData | Stale | NeverAcknowledged
  datatype Verdict = Fine | Bad(kind: Violation)

  /** One LBA's request history, compressed. Version 0 means none. */
  datatype LbaState = LbaState(
    issued: nat, latest: nat, lastZero: nat, durable: nat, durableIsPayload: bool,
    uncertainWrite: nat, uncertainZero: nat, needsRepair: bool)
  {
    function Expected(): Content {
      if latest != 0 && latest != lastZero then Version(latest) else Zero
    }

    predicate Dirty() { latest != durable }
  }

  const INITIAL := LbaState(0, 0, 0, 0, false, 0, 0, false)

  /** Before a crash: the latest acknowledged content, or a newer uncertain request. */
  function LiveVerdict(s: LbaState, found: Content, rejected: bool): Verdict {
    if found == s.Expected() then Fine
    else
      match found
      case Invalid => Bad(Corrupt)
      case Zero => if s.uncertainZero > s.latest then Fine else Bad(LostData)
      case Version(v) =>
        if v == s.uncertainWrite && v > s.latest then Fine
        else if rejected || v > s.latest then Bad(NeverAcknowledged)
        else Bad(Stale)
  }

  function ZeroAfterCrash(s: LbaState): Verdict {
    if !s.durableIsPayload || s.lastZero > s.durable || s.uncertainZero > s.durable then Fine else Bad(LostData)
  }

  /** After a crash: the durable content, or any acknowledged or uncertain request after it. */
  function CrashVerdict(s: LbaState, found: Content, rejected: bool): Verdict {
    match found
    case Invalid => Bad(Corrupt)
    case Zero => ZeroAfterCrash(s)
    case Version(v) =>
      var durablePayload := s.durableIsPayload && v == s.durable;
      var uncertain := v == s.uncertainWrite && v > s.durable;
      if rejected || (v > s.latest && !uncertain) then Bad(NeverAcknowledged)
      else if durablePayload || uncertain || v > s.durable then Fine
      else Bad(Stale)
  }

  // ---- the checker's updates of one LBA ----

  datatype Outcome = Acked | Refused | Unknown

  function Acknowledge(s: LbaState, version: nat, zero: bool): LbaState {
    s.(latest := version, lastZero := if zero then version else s.lastZero)
  }

  function MarkUncertain(s: LbaState, version: nat, zero: bool): LbaState {
    if zero then s.(uncertainZero := version) else s.(uncertainWrite := version)
  }

  function MakeDurable(s: LbaState): LbaState {
    if s.Dirty() then s.(durable := s.latest, durableIsPayload := s.latest != s.lastZero) else s
  }

  function Retire(s: LbaState): LbaState { s.(uncertainWrite := 0, uncertainZero := 0) }

  // ---- whole histories ----

  datatype Event = Request(zero: bool, outcome: Outcome) | Flush | Recovery

  datatype Summary = Summary(s: LbaState, rejected: set<nat>)

  function Issue(s: LbaState): LbaState { s.(issued := s.issued + 1) }

  /** What the result of request `version` does to the summary. */
  function Settle(m: Summary, version: nat, zero: bool, outcome: Outcome): Summary {
    match outcome
    case Acked => m.(s := Acknowledge(m.s, version, zero))
    case Refused => m.(rejected := m.rejected + if zero then {} else {version})
    case Unknown => m.(s := MarkUncertain(m.s, version, zero))
  }

  /** One event's effect on the LBA's summary and its set of rejected versions. */
  function Update(m: Summary, e: Event): Summary {
    match e
    case Flush => m.(s := MakeDurable(m.s))
    case Recovery =>
      Summary(Retire(m.s), m.rejected + if m.s.uncertainWrite != 0 then {m.s.uncertainWrite} else {})
    case Request(zero, outcome) => Settle(m.(s := Issue(m.s)), m.s.issued + 1, zero, outcome)
  }

  function Summarize(h: seq<Event>): Summary {
    if h == [] then Summary(INITIAL, {}) else Update(Summarize(h[..|h| - 1]), h[|h| - 1])
  }

  /** The checker stops at a second uncertain request of one kind before a recovery. */
  predicate WithinLimits(h: seq<Event>) {
    h == [] ||
    (var before := h[..|h| - 1];
     var e := h[|h| - 1];
     WithinLimits(before) &&
     (e.Request? && e.outcome == Unknown ==>
        if e.zero then Summarize(before).s.uncertainZero == 0 else Summarize(before).s.uncertainWrite == 0))
  }

  // ---- what the history itself allows ----

  function Requests(h: seq<Event>): nat {
    if h == [] then 0 else Requests(h[..|h| - 1]) + if h[|h| - 1].Request? then 1 else 0
  }

  /** The version that request `i` was issued under. */
  function VersionOf(h: seq<Event>, i: nat): nat
    requires i < |h|
  {
    Requests(h[..i + 1])
  }

  function ContentOf(zero: bool, version: nat): Content { if zero then Zero else Version(version) }

  /** The last acknowledged version, and what it wrote. */
  function LastAck(h: seq<Event>): (r: (nat, Content)) {
    if h == [] then (0, Zero)
    else if h[|h| - 1].Request? && h[|h| - 1].outcome == Acked
    then (Requests(h), ContentOf(h[|h| - 1].zero, Requests(h)))
    else LastAck(h[..|h| - 1])
  }

  /** The last acknowledged version when a flush last succeeded, and what it wrote. */
  function DurableAck(h: seq<Event>): (r: (nat, Content)) {
    if h == [] then (0, Zero)
    else if h[|h| - 1] == Flush then LastAck(h[..|h| - 1])
    else DurableAck(h[..|h| - 1])
  }

  /** Request `i` failed with unknown effect and no recovery has settled it since. */
  ghost predicate Open(h: seq<Event>, i: nat)
    requires i < |h|
  {
    h[i].Request? && h[i].outcome == Unknown && forall j :: i < j < |h| ==> h[j] != Recovery
  }

  ghost predicate AllowedLive(h: seq<Event>, c: Content) {
    || c == LastAck(h).1
    || exists i ::
         0 <= i < |h| && Open(h, i) && VersionOf(h, i) > LastAck(h).0
         && c == ContentOf(h[i].zero, VersionOf(h, i))
  }

  ghost predicate AllowedCrash(h: seq<Event>, c: Content) {
    || c == DurableAck(h).1
    || exists i ::
         0 <= i < |h| && Effective(h, i) && VersionOf(h, i) > DurableAck(h).0
         && c == ContentOf(h[i].zero, VersionOf(h, i))
  }

  ghost predicate Effective(h: seq<Event>, i: nat)
    requires i < |h|
  {
    Open(h, i) || (h[i].Request? && h[i].outcome == Acked)
  }

  /** A content some request of this LBA could have left. */
  ghost predicate WasIssued(h: seq<Event>, c: Content) {
    c == Zero || c == Invalid || exists i :: 0 <= i < |h| && IssuedAt(h, i, c)
  }

  ghost predicate IssuedAt(h: seq<Event>, i: nat, c: Content)
    requires i < |h|
  {
    h[i].Request? && !h[i].zero && c == Version(VersionOf(h, i))
  }

  // ---- the summary holds exactly what it needs ----

  lemma Unfold(h: seq<Event>)
    requires h != []
    ensures Summarize(h) == Update(Summarize(h[..|h| - 1]), h[|h| - 1])
    ensures Requests(h) == Requests(h[..|h| - 1]) + if h[|h| - 1].Request? then 1 else 0
    ensures LastAck(h) ==
            if h[|h| - 1].Request? && h[|h| - 1].outcome == Acked
            then (Requests(h), ContentOf(h[|h| - 1].zero, Requests(h)))
            else LastAck(h[..|h| - 1])
    ensures DurableAck(h) == if h[|h| - 1] == Flush then LastAck(h[..|h| - 1]) else DurableAck(h[..|h| - 1])
  {
  }

  /** Issued, latest and expected content are those of the history. */
  lemma {:induction false} LatestIs(h: seq<Event>)
    ensures Summarize(h).s.issued == Requests(h)
    ensures Summarize(h).s.lastZero <= Summarize(h).s.latest == LastAck(h).0 <= Requests(h)
    ensures Summarize(h).s.Expected() == LastAck(h).1
  {
    if h != [] {
      hide Requests, LastAck, Summarize;
      LatestIs(h[..|h| - 1]);
      Unfold(h);
    }
  }

  /** So are the durable version and whether it is a payload. */
  lemma {:induction false} DurableIs(h: seq<Event>)
    ensures Summarize(h).s.durable == DurableAck(h).0 <= LastAck(h).0
    ensures Summarize(h).s.durableIsPayload ==> DurableAck(h).1 == Version(DurableAck(h).0)
    ensures !Summarize(h).s.durableIsPayload ==> DurableAck(h).1 == Zero
    ensures DurableAck(h).0 == LastAck(h).0 ==> DurableAck(h).1 == LastAck(h).1
  {
    if h != [] {
      hide Requests, LastAck, DurableAck, Summarize;
      DurableIs(h[..|h| - 1]);
      LatestIs(h[..|h| - 1]);
      LatestIs(h);
      Unfold(h);
    }
  }

  lemma Counters(h: seq<Event>)
    ensures Summarize(h).s.issued == Requests(h)
    ensures Summarize(h).s.lastZero <= Summarize(h).s.latest == LastAck(h).0 <= Requests(h)
    ensures Summarize(h).s.Expected() == LastAck(h).1
    ensures Summarize(h).s.durable == DurableAck(h).0 <= LastAck(h).0
    ensures DurableAck(h).1 == if Summarize(h).s.durableIsPayload then Version(DurableAck(h).0) else Zero
  {
    LatestIs(h);
    DurableIs(h);
  }

  lemma {:induction false} RequestsGrow(h: seq<Event>, i: nat, j: nat)
    requires i <= j <= |h|
    ensures Requests(h[..i]) <= Requests(h[..j])
    decreases j
  {
    if i < j {
      RequestsGrow(h, i, j - 1);
      assert h[..j][..j - 1] == h[..j - 1];
    }
  }

  /** Later requests have larger versions, so a version names one request. */
  lemma VersionsOrdered(h: seq<Event>, i: nat, j: nat)
    requires i < j < |h| && h[j].Request?
    ensures VersionOf(h, i) < VersionOf(h, j)
  {
    RequestsGrow(h, i + 1, j);
    assert h[..j + 1][..j] == h[..j];
  }

  lemma VersionKept(h: seq<Event>, e: Event, i: nat)
    requires i < |h|
    ensures VersionOf(h + [e], i) == VersionOf(h, i) <= Requests(h)
  {
    assert (h + [e])[..i + 1] == h[..i + 1];
    RequestsGrow(h, i + 1, |h|);
    assert h[..|h|] == h;
  }

  lemma VersionNew(h: seq<Event>, e: Event)
    ensures VersionOf(h + [e], |h|) == Requests(h) + if e.Request? then 1 else 0
  {
    assert (h + [e])[..|h| + 1] == h + [e];
    assert (h + [e])[..|h|] == h;
  }

  /** An index is the one open request of its kind. */
  ghost predicate OpenOfKind(h: seq<Event>, i: nat, zero: bool)
    requires i < |h|
  {
    Open(h, i) && h[i].zero == zero
  }

  function UncertainOf(s: LbaState, zero: bool): nat { if zero then s.uncertainZero else s.uncertainWrite }

  lemma OpenKept(h: seq<Event>, e: Event, i: nat)
    requires i < |h|
    ensures Open(h + [e], i) <==> Open(h, i) && e != Recovery
  {
    var more := h + [e];
    assert more[|h|] == e;
    assert forall j :: 0 <= j < |h| ==> more[j] == h[j];
  }

  /** The uncertain field of a kind is the version of its one open request, or 0. */
  lemma {:induction false} UncertainIs(h: seq<Event>, zero: bool)
    requires WithinLimits(h)
    ensures forall i :: 0 <= i < |h| && OpenOfKind(h, i, zero) ==> VersionOf(h, i) == UncertainOf(Summarize(h).s, zero)
    ensures UncertainOf(Summarize(h).s, zero) != 0 ==> exists i :: 0 <= i < |h| && OpenOfKind(h, i, zero)
  {
    if h != [] {
      var before, e, n := h[..|h| - 1], h[|h| - 1], |h| - 1;
      assert h == before + [e];
      UncertainIs(before, zero);
      Counters(before);
      VersionNew(before, e);
      var was, u := UncertainOf(Summarize(before).s, zero), UncertainOf(Summarize(h).s, zero);
      var here := e.Request? && e.outcome == Unknown && e.zero == zero;
      assert u == if e == Recovery then 0 else if here then Requests(h) else was;
      forall i | 0 <= i < n
        ensures OpenOfKind(h, i, zero) <==> OpenOfKind(before, i, zero) && e != Recovery
        ensures VersionOf(h, i) == VersionOf(before, i)
      {
        OpenKept(before, e, i);
        VersionKept(before, e, i);
      }
      if here {
        assert was == 0;
        forall i | 0 <= i < n ensures !OpenOfKind(before, i, zero) { VersionPositive(before, i); }
        assert OpenOfKind(h, n, zero);
      } else if u != 0 {
        var i :| 0 <= i < n && OpenOfKind(before, i, zero);
        assert OpenOfKind(h, i, zero);
      }
    }
  }

  lemma VersionPositive(h: seq<Event>, i: nat)
    requires i < |h|
    ensures h[i].Request? ==> VersionOf(h, i) > 0
  {
    assert h[..i + 1][..i] == h[..i];
  }

  /** A payload version is rejected exactly when its request was refused or retired. */
  lemma {:induction false} RejectedIs(h: seq<Event>, i: nat)
    requires WithinLimits(h) && i < |h| && h[i].Request? && !h[i].zero
    ensures VersionOf(h, i) in Summarize(h).rejected <==> !Effective(h, i)
    decreases |h|
  {
    var before, e, n := h[..|h| - 1], h[|h| - 1], |h| - 1;
    assert h == before + [e];
    RejectedBelow(before);
    Counters(before);
    VersionNew(before, e);
    if i == n {
      assert VersionOf(h, i) !in Summarize(before).rejected;
    } else {
      RejectedIs(before, i);
      OpenKept(before, e, i);
      VersionKept(before, e, i);
      VersionPositive(before, i);
      UncertainIs(before, false);
      if e == Recovery && VersionOf(h, i) == Summarize(before).s.uncertainWrite {
        var j :| 0 <= j < n && OpenOfKind(before, j, false);
        if i < j { VersionsOrdered(before, i, j); } else if j < i { VersionsOrdered(before, j, i); }
      }
    }
  }

  lemma {:induction false} RejectedBelow(h: seq<Event>)
    requires WithinLimits(h)
    ensures forall v :: v in Summarize(h).rejected ==> v <= Requests(h)
  {
    if h != [] {
      var before := h[..|h| - 1];
      RejectedBelow(before);
      Counters(before);
      UncertainIs(before, false);
      if Summarize(before).s.uncertainWrite != 0 {
        var j :| 0 <= j < |before| && OpenOfKind(before, j, false);
        VersionKept(before, h[|h| - 1], j);
      }
    }
  }

  ghost predicate ZeroAck(h: seq<Event>, i: nat)
    requires i < |h|
  {
    h[i] == Request(true, Acked)
  }

  /** The last zeroing version is the largest acknowledged one. */
  lemma {:induction false} LastZeroIs(h: seq<Event>)
    ensures forall i :: 0 <= i < |h| && ZeroAck(h, i) ==> VersionOf(h, i) <= Summarize(h).s.lastZero
    ensures Summarize(h).s.lastZero != 0 ==>
              exists i :: 0 <= i < |h| && ZeroAck(h, i) && VersionOf(h, i) == Summarize(h).s.lastZero
  {
    if h != [] {
      var before, e, n := h[..|h| - 1], h[|h| - 1], |h| - 1;
      assert h == before + [e];
      LastZeroIs(before);
      Counters(before);
      Counters(h);
      VersionNew(before, e);
      Unfold(h);
      hide VersionOf, Summarize, Requests, LastAck, DurableAck;
      forall i | 0 <= i < n
        ensures VersionOf(h, i) == VersionOf(before, i) <= Requests(before)
        ensures ZeroAck(h, i) <==> ZeroAck(before, i)
      {
        VersionKept(before, e, i);
      }
      if e == Request(true, Acked) {
        assert ZeroAck(h, n);
      } else if Summarize(h).s.lastZero != 0 {
        var i :| 0 <= i < n && ZeroAck(before, i) && VersionOf(before, i) == Summarize(before).s.lastZero;
        assert ZeroAck(h, i);
      }
    }
  }

  /** The version of an acknowledged payload belongs to an acknowledged request. */
  lemma {:induction false} AckIsIssued(h: seq<Event>)
    ensures LastAck(h).1.Version? ==>
              && LastAck(h).1.v == LastAck(h).0
              && exists i :: 0 <= i < |h| && PayloadAck(h, i) && VersionOf(h, i) == LastAck(h).0
    ensures DurableAck(h).1.Version? ==>
              && DurableAck(h).1.v == DurableAck(h).0
              && exists i :: 0 <= i < |h| && PayloadAck(h, i) && VersionOf(h, i) == DurableAck(h).0
  {
    if h != [] {
      var before, e, n := h[..|h| - 1], h[|h| - 1], |h| - 1;
      assert h == before + [e];
      AckIsIssued(before);
      VersionNew(before, e);
      forall i | 0 <= i < n
        ensures VersionOf(h, i) == VersionOf(before, i)
        ensures PayloadAck(h, i) <==> PayloadAck(before, i)
      {
        VersionKept(before, e, i);
      }
      if e == Request(false, Acked) { assert PayloadAck(h, n); }
      Unfold(h);
    }
  }

  ghost predicate PayloadAck(h: seq<Event>, i: nat)
    requires i < |h|
  {
    h[i] == Request(false, Acked)
  }

  /** No acknowledged version is above the last one. */
  lemma {:induction false} AckBelow(h: seq<Event>, i: nat)
    requires i < |h| && h[i].Request? && h[i].outcome == Acked
    ensures VersionOf(h, i) <= LastAck(h).0
    decreases |h|
  {
    var before, e := h[..|h| - 1], h[|h| - 1];
    assert h == before + [e];
    VersionNew(before, e);
    Unfold(h);
    if i < |before| {
      AckBelow(before, i);
      VersionKept(before, e, i);
      Counters(before);
    }
  }

  lemma VersionUnique(h: seq<Event>, i: nat, j: nat)
    requires i < |h| && j < |h| && h[i].Request? && h[j].Request? && VersionOf(h, i) == VersionOf(h, j)
    ensures i == j
  {
    if i < j { VersionsOrdered(h, i, j); } else if j < i { VersionsOrdered(h, j, i); }
  }

  /** Live reads: the summary accepts exactly what the whole history allows. */
  lemma LiveExact(h: seq<Event>, c: Content, rejected: bool)
    requires WithinLimits(h)
    ensures LiveVerdict(Summarize(h).s, c, rejected) == Fine <==> AllowedLive(h, c)
  {
    var s := Summarize(h).s;
    Counters(h);
    UncertainIs(h, true);
    UncertainIs(h, false);
    if s.uncertainZero > s.latest {
      var i :| 0 <= i < |h| && OpenOfKind(h, i, true);
      assert VersionOf(h, i) == s.uncertainZero;
    }
    if s.uncertainWrite > s.latest {
      var i :| 0 <= i < |h| && OpenOfKind(h, i, false);
      assert VersionOf(h, i) == s.uncertainWrite;
    }
    if i :| 0 <= i < |h| && Open(h, i) && VersionOf(h, i) > LastAck(h).0 && c == ContentOf(h[i].zero, VersionOf(h, i)) {
      assert OpenOfKind(h, i, h[i].zero);
    }
  }

  /** After a crash, zeros are accepted exactly when the whole history allows them. */
  lemma CrashExactZero(h: seq<Event>)
    requires WithinLimits(h)
    ensures CrashVerdict(Summarize(h).s, Zero, false) == Fine <==> AllowedCrash(h, Zero)
  {
    var s := Summarize(h).s;
    Counters(h);
    LastZeroIs(h);
    UncertainIs(h, true);
    if s.uncertainZero > s.durable {
      var i :| 0 <= i < |h| && OpenOfKind(h, i, true);
      assert Effective(h, i) && VersionOf(h, i) == s.uncertainZero;
    }
    if s.lastZero > s.durable {
      var i :| 0 <= i < |h| && ZeroAck(h, i) && VersionOf(h, i) == s.lastZero;
      assert Effective(h, i);
    }
    if i :| 0 <= i < |h| && Effective(h, i) && VersionOf(h, i) > DurableAck(h).0
            && Zero == ContentOf(h[i].zero, VersionOf(h, i)) {
      if Open(h, i) { assert OpenOfKind(h, i, true); } else { assert ZeroAck(h, i); }
    }
  }

  /** After a crash, so is every payload that some request `k` issued. */
  lemma CrashExactPayload(h: seq<Event>, k: nat)
    requires WithinLimits(h) && k < |h| && h[k].Request? && !h[k].zero
    ensures CrashVerdict(Summarize(h).s, Version(VersionOf(h, k)), VersionOf(h, k) in Summarize(h).rejected) == Fine
            <==> AllowedCrash(h, Version(VersionOf(h, k)))
  {
    var s, v := Summarize(h).s, VersionOf(h, k);
    var c := Version(v);
    Counters(h);
    RejectedIs(h, k);
    UncertainIs(h, false);
    VersionPositive(h, k);
    if Open(h, k) {
      assert OpenOfKind(h, k, false);
    } else if Effective(h, k) {
      AckBelow(h, k);
    }
    if AllowedCrash(h, c) {
      if c == DurableAck(h).1 {
        AckIsIssued(h);
        var i :| 0 <= i < |h| && PayloadAck(h, i) && VersionOf(h, i) == v;
        VersionUnique(h, i, k);
      } else {
        var i :| 0 <= i < |h| && Effective(h, i) && VersionOf(h, i) > DurableAck(h).0
                 && c == ContentOf(h[i].zero, VersionOf(h, i));
        VersionUnique(h, i, k);
      }
    }
  }

  /** After a crash: the eight fields and the rejected set decide every issued content as the whole history does. */
  lemma CrashExact(h: seq<Event>, c: Content)
    requires WithinLimits(h) && WasIssued(h, c)
    ensures CrashVerdict(Summarize(h).s, c, c.Version? && c.v in Summarize(h).rejected) == Fine <==> AllowedCrash(h, c)
  {
    if c == Zero {
      CrashExactZero(h);
    } else if c.Version? {
      var k :| 0 <= k < |h| && IssuedAt(h, k, c);
      CrashExactPayload(h, k);
    } else {
      Counters(h);
    }
  }

  /** Without that hypothesis it is false: the version of a zero request is no payload anyone wrote. */
  lemma IssuedIsNeeded()
    ensures var h := [Request(true, Acked)];
            CrashVerdict(Summarize(h).s, Version(1), 1 in Summarize(h).rejected) == Fine && !AllowedCrash(h, Version(1))
  {
    var h := [Request(true, Acked)];
    assert h[..0] == [] && h[..1] == h;
  }

  /** Only payloads that were issued are ever rejected. */
  lemma {:induction false} RejectedIssued(h: seq<Event>)
    requires WithinLimits(h)
    ensures forall v :: v in Summarize(h).rejected ==> WasIssued(h, Version(v))
  {
    if h != [] {
      var before, e, n := h[..|h| - 1], h[|h| - 1], |h| - 1;
      assert h == before + [e];
      RejectedIssued(before);
      Counters(before);
      UncertainIs(before, false);
      VersionNew(before, e);
      forall v | v in Summarize(h).rejected ensures WasIssued(h, Version(v)) {
        if v in Summarize(before).rejected {
          var i :| 0 <= i < n && IssuedAt(before, i, Version(v));
          VersionKept(before, e, i);
          assert IssuedAt(h, i, Version(v));
        } else if e == Recovery {
          var i :| 0 <= i < n && OpenOfKind(before, i, false);
          VersionKept(before, e, i);
          assert IssuedAt(h, i, Version(v));
        } else {
          assert IssuedAt(h, n, Version(v));
        }
      }
    }
  }

  /** No history allows a payload that was not issued. */
  lemma AllowedIssued(h: seq<Event>, c: Content)
    requires AllowedCrash(h, c)
    ensures WasIssued(h, c)
  {
    if c.Version? {
      if c == DurableAck(h).1 {
        AckIsIssued(h);
        var i :| 0 <= i < |h| && PayloadAck(h, i) && VersionOf(h, i) == c.v;
        assert IssuedAt(h, i, c);
      } else {
        var i :| 0 <= i < |h| && Effective(h, i) && VersionOf(h, i) > DurableAck(h).0
                 && c == ContentOf(h[i].zero, VersionOf(h, i));
        assert IssuedAt(h, i, c);
      }
    } else {
      Counters(h);
    }
  }

  lemma UncertainIssued(h: seq<Event>)
    requires WithinLimits(h)
    ensures Summarize(h).s.uncertainWrite == 0 || WasIssued(h, Version(Summarize(h).s.uncertainWrite))
  {
    UncertainIs(h, false);
    if Summarize(h).s.uncertainWrite != 0 {
      var i :| 0 <= i < |h| && OpenOfKind(h, i, false);
      assert IssuedAt(h, i, Version(Summarize(h).s.uncertainWrite));
    }
  }

  lemma DurableIssued(h: seq<Event>)
    requires WithinLimits(h)
    ensures WasIssued(h, DurableAck(h).1)
  {
    AckIsIssued(h);
    if DurableAck(h).1.Version? {
      var i :| 0 <= i < |h| && PayloadAck(h, i) && VersionOf(h, i) == DurableAck(h).1.v;
      assert IssuedAt(h, i, DurableAck(h).1);
    }
  }

  /** A payload that was not issued is accepted exactly between the durable and the latest version. */
  lemma UnissuedVerdict(h: seq<Event>, v: nat)
    requires WithinLimits(h) && !WasIssued(h, Version(v))
    ensures CrashVerdict(Summarize(h).s, Version(v), v in Summarize(h).rejected) == Fine
            <==> DurableAck(h).0 < v <= LastAck(h).0
  {
    Counters(h);
    RejectedIssued(h);
    UncertainIssued(h);
    DurableIssued(h);
  }

  /** Verdict and history agree if and only if the content was issued or lies outside that range. */
  lemma CrashExactWhen(h: seq<Event>, c: Content)
    requires WithinLimits(h)
    ensures (CrashVerdict(Summarize(h).s, c, c.Version? && c.v in Summarize(h).rejected) == Fine
             <==> AllowedCrash(h, c))
            <==> WasIssued(h, c) || !(DurableAck(h).0 < c.v <= LastAck(h).0)
  {
    if WasIssued(h, c) {
      CrashExact(h, c);
    } else {
      UnissuedVerdict(h, c.v);
      if AllowedCrash(h, c) { AllowedIssued(h, c); }
    }
  }
}
