/** The checker that drives a target and judges what it reads. */
module Checker {
  import opened Oracle
  import opened Agreement
  import opened Target
  import opened Sets

  const MAX_VERSION: nat := 0xFFFF_FFFF
  const MAX_REJECTED: nat := 0x1_0000
  const MAX_RECORDED: nat := 64

  datatype Error =
    | LbaOutOfRange
    | InvalidRange
    | GeometryMismatch
    | VersionOverflow
    | RejectedWriteLimit
    | UncertainLimit
    | Io(failure: IoResult)

  datatype Status = Success | Failure(error: Error)

  /** The limits of what the checker can track. */
  predicate AtLimit(r: Status) { r.Failure? && r.error in {VersionOverflow, RejectedWriteLimit, UncertainLimit} }

  /** The errors after which the model is no longer exact and a run stops. */
  predicate Incomplete(r: Status) { AtLimit(r) || r == Failure(GeometryMismatch) }

  /** The limit that one more result runs into: a second uncertain request of one kind, or a full rejected set. */
  function LimitOf(s: LbaState, rejected: nat, zero: bool, result: IoResult): Status {
    if result == Other && UncertainOf(s, zero) != 0 then Failure(UncertainLimit)
    else if (result == OutOfSpace || result == Unsupported) && !zero && rejected >= MAX_REJECTED
    then Failure(RejectedWriteLimit)
    else Success
  }

  datatype Accusation = Accusation(lba: nat, expected: Content, found: Content, kind: Violation, afterCrash: bool)

  /** The versions of one LBA in the shared rejected set. */
  function RejectedOf(rejected: set<(nat, nat)>, lba: nat): set<nat> {
    set p | p in rejected && p.0 == lba :: p.1
  }

  /** All that the checker remembers of one LBA's history. */
  function Memory(lbas: seq<LbaState>, rejected: set<(nat, nat)>, lba: nat): Summary
    requires lba < |lbas|
  {
    Summary(lbas[lba].(needsRepair := false), RejectedOf(rejected, lba))
  }

  ghost predicate Tracks(lbas: seq<LbaState>, rejected: set<(nat, nat)>, h: seq<Event>, lba: nat)
    requires lba < |lbas|
  {
    Memory(lbas, rejected, lba) == Summarize(h) && WithinLimits(h)
  }

  ghost predicate TracksIssued(lbas: seq<LbaState>, rejected: set<(nat, nat)>, h: seq<Event>, lba: nat, issued: bool)
    requires lba < |lbas|
  {
    && WithinLimits(h)
    && Memory(lbas, rejected, lba) == if issued then Summarize(h).(s := Issue(Summarize(h).s)) else Summarize(h)
  }

  /** A history one event longer, and the memory that goes with it. */
  ghost predicate Concluded(before: seq<Event>, after: seq<Event>, m: Summary, e: Event) {
    after == before + [e] && Trackable(Summarize(before), e) && m == Update(Summarize(before), e)
  }

  /** The payload versions that the checker holds against an LBA, or may yet have to. */
  ghost function Remembered(h: seq<Event>): set<nat> { Summarize(h).rejected + {Summarize(h).s.uncertainWrite} - {0} }

  /** `tokens` has a pair for every remembered payload version of every LBA. */
  ghost predicate Covers(hist: seq<seq<Event>>, tokens: set<(nat, nat)>) {
    forall i, v :: 0 <= i < |hist| && v in Remembered(hist[i]) ==> (i, v) in tokens
  }

  /** What a completed recovery adds to an LBA's history: its end of uncertainty, perhaps a repair, and a flush. */
  predicate Recovered(before: seq<Event>, after: seq<Event>) {
    || after == before + [Recovery] + [Flush]
    || (exists zero :: after == before + [Recovery] + [Request(zero, Acked)] + [Flush])
  }

  predicate Repaired(before: seq<Event>, after: seq<Event>) {
    after == before || (exists zero :: after == before + [Request(zero, Acked)])
  }

  function Forced(s: LbaState): LbaState { s.(durable := s.latest, durableIsPayload := s.latest != s.lastZero) }

  predicate DirtyListed(lbas: seq<LbaState>, dirty: seq<nat>) {
    && (forall k :: 0 <= k < |dirty| ==> dirty[k] < |lbas|)
    && forall i :: 0 <= i < |lbas| ==> (i in dirty <==> lbas[i].Dirty())
  }

  lemma RejectedInsert(rejected: set<(nat, nat)>, lba: nat, version: nat)
    ensures RejectedOf(rejected + {(lba, version)}, lba) == RejectedOf(rejected, lba) + {version}
    ensures forall i :: i != lba ==> RejectedOf(rejected + {(lba, version)}, i) == RejectedOf(rejected, i)
  {
    var more := rejected + {(lba, version)};
    assert (lba, version) in more;
    forall v ensures v in RejectedOf(more, lba) <==> v in RejectedOf(rejected, lba) + {version} {
      assert v in RejectedOf(more, lba) <==> (lba, v) in more;
      assert v in RejectedOf(rejected, lba) <==> (lba, v) in rejected;
    }
    forall i | i != lba ensures RejectedOf(more, i) == RejectedOf(rejected, i) {
      forall v ensures v in RejectedOf(more, i) <==> v in RejectedOf(rejected, i) {
        assert v in RejectedOf(more, i) <==> (i, v) in more;
        assert v in RejectedOf(rejected, i) <==> (i, v) in rejected;
      }
    }
  }

  lemma RetiredCovered(h: seq<Event>)
    ensures Remembered(h + [Recovery]) <= Remembered(h)
  {
    assert (h + [Recovery])[..|h|] == h;
  }

  lemma HistoryStep(h: seq<Event>, e: Event)
    requires WithinLimits(h) && Trackable(Summarize(h), e)
    ensures Summarize(h + [e]) == Update(Summarize(h), e) && WithinLimits(h + [e])
  {
    assert (h + [e])[..|h|] == h;
  }

  class Checker {
    const count: nat
    var lbas: seq<LbaState>
    var dirty: seq<nat>
    var rejected: set<(nat, nat)>
    var violations: nat
    var recorded: seq<Accusation>
    /** Every LBA's whole request history, which the other fields only summarize. */
    ghost var hist: seq<seq<Event>>

    ghost predicate Shaped() reads this {
      |lbas| == count == |hist| && DirtyListed(lbas, dirty) && forall p :: p in rejected ==> p.0 < count
    }

    ghost predicate Valid() reads this {
      Shaped() && forall i :: 0 <= i < count ==> Tracks(lbas, rejected, hist[i], i)
    }

    /** As `Valid`, with a version issued and its request not concluded for the LBAs in [a, b). */
    ghost predicate WithIssued(a: nat, b: nat) reads this {
      Shaped() && forall i :: 0 <= i < count ==> TracksIssued(lbas, rejected, hist[i], i, a <= i < b)
    }

    constructor (blocks: nat)
      ensures Valid() && count == blocks && violations == 0 && hist == seq(blocks, i => [])
      ensures forall i :: 0 <= i < blocks ==> Memory(lbas, rejected, i) == Summary(INITIAL, {})
    {
      count := blocks;
      lbas := seq(blocks, i => INITIAL);
      dirty, rejected, violations, recorded := [], {}, 0, [];
      hist := seq(blocks, i => []);
    }

    /** Gives `lba` its next version; the LBAs from `start` on already have theirs. */
    method IssueVersion(ghost start: nat, lba: nat) returns (r: Status, version: nat)
      requires WithIssued(start, lba) && start <= lba
      modifies this`lbas
      ensures r.Failure? ==> lbas == old(lbas) && (r.error == LbaOutOfRange || r.error == VersionOverflow)
      ensures r == Failure(LbaOutOfRange) <==> lba >= count
      ensures r == Failure(VersionOverflow) <==> lba < count && old(lbas[lba].issued) >= MAX_VERSION
      ensures r == Success ==> WithIssued(start, lba + 1) && version == old(lbas[lba].issued) + 1
      ensures r == Success ==> lbas == old(lbas)[lba := Issue(old(lbas[lba]))]
    {
      hide Summarize, WithinLimits;
      if lba >= count { return Failure(LbaOutOfRange), 0; }
      if lbas[lba].issued >= MAX_VERSION { return Failure(VersionOverflow), 0; }
      version := lbas[lba].issued + 1;
      lbas := lbas[lba := lbas[lba].(issued := version)];
      assert TracksIssued(old(lbas), rejected, hist[lba], lba, false);
      forall i | 0 <= i < count && i != lba ensures TracksIssued(lbas, rejected, hist[i], i, start <= i <= lba) {
        assert TracksIssued(old(lbas), rejected, hist[i], i, start <= i < lba);
      }
      r := Success;
    }

    /** Remembers a rejected payload, unless the set is full. */
    method Reject(lba: nat, version: nat) returns (r: Status)
      requires Shaped() && lba < count
      modifies this`rejected
      ensures Shaped() && r == if |old(rejected)| >= MAX_REJECTED then Failure(RejectedWriteLimit) else Success
      ensures rejected == if r == Success then old(rejected) + {(lba, version)} else old(rejected)
    {
      if |rejected| >= MAX_REJECTED { return Failure(RejectedWriteLimit); }
      rejected := rejected + {(lba, version)};
      r := Success;
    }

    /** The result of one request, for one LBA that it covered. */
    method ApplyResult(lba: nat, version: nat, zero: bool, result: IoResult) returns (r: Status)
      requires Shaped() && lba < count && version == lbas[lba].issued
      requires lbas[lba].durable <= lbas[lba].latest < version
      modifies this`lbas, this`dirty, this`rejected
      ensures Shaped() && r == LimitOf(old(lbas[lba]), |old(rejected)|, zero, result)
      ensures r == Success ==>
                && Memory(lbas, rejected, lba) ==
                   Settle(old(Memory(lbas, rejected, lba)), version, zero, OutcomeOf(result))
                && (result == Other ==> UncertainOf(old(lbas[lba]), zero) == 0)
      ensures forall i :: 0 <= i < count && i != lba ==>
                lbas[i] == old(lbas[i]) && Memory(lbas, rejected, i) == old(Memory(lbas, rejected, i))
    {
      r := Success;
      match result
      case Done =>
        if !lbas[lba].Dirty() { dirty := dirty + [lba]; }
        lbas := lbas[lba := Acknowledge(lbas[lba], version, zero)];
      case OutOfSpace =>
        if !zero { RejectedInsert(rejected, lba, version); r := Reject(lba, version); }
      case Unsupported =>
        if !zero { RejectedInsert(rejected, lba, version); r := Reject(lba, version); }
      case Other =>
        if UncertainOf(lbas[lba], zero) != 0 { return Failure(UncertainLimit); }
        lbas := lbas[lba := MarkUncertain(lbas[lba], version, zero)];
    }

    /** Counts a violation and keeps the first ones. */
    method Record(verdict: Verdict, lba: nat, expected: Content, found: Content, afterCrash: bool)
      modifies this`violations, this`recorded
      ensures violations == old(violations) + (if verdict == Fine then 0 else 1)
    {
      if verdict.Bad? {
        violations := violations + 1;
        if |recorded| < MAX_RECORDED {
          recorded := recorded + [Accusation(lba, expected, found, verdict.kind, afterCrash)];
        }
      }
    }

    /** A live read is accused exactly when the LBA's whole history does not allow what it found. */
    method JudgeLive(lba: nat, found: Content)
      requires Valid() && lba < count
      modifies this`violations, this`recorded
      ensures Valid()
      ensures violations == old(violations) + if AllowedLive(hist[lba], found) then 0 else 1
      ensures violations == old(violations) + if LiveOf(Memory(lbas, rejected, lba), found) == Fine then 0 else 1
    {
      var s := lbas[lba];
      var was := found.Version? && (lba, found.v) in rejected;
      assert was == (found.Version? && found.v in RejectedOf(rejected, lba)) by {
        if found.Version? { assert (lba, found.v) in rejected <==> found.v in RejectedOf(rejected, lba); }
      }
      assert Tracks(lbas, rejected, hist[lba], lba);
      LiveExact(hist[lba], found, was);
      Record(LiveVerdict(s, found, was), lba, s.Expected(), found, false);
    }

    /** Ends an LBA's uncertain requests; a retired payload is never valid again. */
    method RetireUncertain(lba: nat, found: Content) returns (r: Status)
      requires Valid() && lba < count
      modifies this`lbas, this`rejected, this`hist
      ensures r == if old(lbas[lba]).uncertainWrite != 0 && |old(rejected)| >= MAX_REJECTED
                   then Failure(RejectedWriteLimit) else Success
      ensures r == Success ==> Valid()
      ensures r == Success ==> hist == old(hist)[lba := old(hist[lba]) + [Recovery]]
      ensures r == Success ==>
                lbas[lba].needsRepair == (found != lbas[lba].Expected()) && lbas[lba].issued == old(lbas[lba]).issued
      ensures r == Success ==> forall i :: 0 <= i < count && i != lba ==>
                lbas[i] == old(lbas[i]) && Memory(lbas, rejected, i) == old(Memory(lbas, rejected, i))
    {
      var before := lbas[lba];
      ghost var h := hist[lba];
      assert Tracks(lbas, rejected, h, lba);
      HistoryStep(h, Recovery);
      lbas := lbas[lba := before.(needsRepair := found != before.Expected(), uncertainWrite := 0, uncertainZero := 0)];
      if before.uncertainWrite != 0 {
        RejectedInsert(rejected, lba, before.uncertainWrite);
        r := Reject(lba, before.uncertainWrite);
        if r.Failure? { return; }
      }
      hist := hist[lba := h + [Recovery]];
      r := Success;
    }

    /** The first look at an LBA after a crash is accused exactly when its history does not allow it. */
    method JudgeCrash(lba: nat, found: Content) returns (r: Status)
      requires Valid() && lba < count
      modifies this`lbas, this`rejected, this`violations, this`recorded, this`hist
      ensures r == if old(lbas[lba]).uncertainWrite != 0 && |old(rejected)| >= MAX_REJECTED
                   then Failure(RejectedWriteLimit) else Success
      ensures r.Failure? ==> violations == old(violations)
      ensures r == Success ==> Valid()
      ensures r == Success ==> hist == old(hist)[lba := old(hist[lba]) + [Recovery]]
      ensures r == Success ==>
                lbas[lba].needsRepair == (found != lbas[lba].Expected()) && lbas[lba].issued == old(lbas[lba]).issued
      ensures r == Success ==> forall i :: 0 <= i < count && i != lba ==>
                lbas[i] == old(lbas[i]) && Memory(lbas, rejected, i) == old(Memory(lbas, rejected, i))
      ensures r == Success && WasIssued(old(hist[lba]), found) ==>
                violations == old(violations) + if AllowedCrash(old(hist[lba]), found) then 0 else 1
      ensures r == Success ==>
                violations ==
                old(violations) + if CrashOf(old(Memory(lbas, rejected, lba)), found) == Fine then 0 else 1
    {
      var before := lbas[lba];
      var was := found.Version? && (lba, found.v) in rejected;
      assert was == (found.Version? && found.v in RejectedOf(rejected, lba)) by {
        if found.Version? { assert (lba, found.v) in rejected <==> found.v in RejectedOf(rejected, lba); }
      }
      assert Tracks(lbas, rejected, hist[lba], lba);
      if WasIssued(hist[lba], found) { CrashExact(hist[lba], found); }
      r := RetireUncertain(lba, found);
      if r.Failure? { return; }
      Record(CrashVerdict(before, found, was), lba, before.Expected(), found, true);
    }

    /** Enters the result of a request into the history of one LBA that it covered. */
    method Conclude(lba: nat, end: nat, zero: bool, reply: IoResult) returns (r: Status)
      requires WithIssued(lba, end) && lba < end <= count
      modifies this`lbas, this`dirty, this`rejected, this`hist
      ensures r == LimitOf(old(lbas[lba]), |old(rejected)|, zero, reply)
      ensures r == Success ==>
                var m, e := Summarize(old(hist[lba])), Request(zero, OutcomeOf(reply));
                && WithIssued(lba + 1, end) && Trackable(m, e)
                && hist == old(hist)[lba := old(hist[lba]) + [e]]
                && Memory(lbas, rejected, lba) == Update(m, e)
      ensures r == Success ==> forall i :: 0 <= i < count && i != lba ==>
                lbas[i] == old(lbas[i]) && Memory(lbas, rejected, i) == old(Memory(lbas, rejected, i))
    {
      hide Summarize, WithinLimits;
      ghost var h, m, e := hist[lba], Summarize(hist[lba]), Request(zero, OutcomeOf(reply));
      assert TracksIssued(lbas, rejected, h, lba, true);
      SaneHistory(h);
      r := ApplyResult(lba, lbas[lba].issued, zero, reply);
      if r.Failure? { return; }
      assert Trackable(m, e);
      HistoryStep(h, e);
      hist := hist[lba := h + [e]];
      assert TracksIssued(lbas, rejected, hist[lba], lba, false);
      forall i | 0 <= i < count && i != lba ensures TracksIssued(lbas, rejected, hist[i], i, lba < i < end) {
        assert TracksIssued(old(lbas), old(rejected), old(hist)[i], i, lba <= i < end);
      }
    }

    /** One write or zero write: its version, the target's answer, and the LBA's history one event longer. */
    method SubmitWrite(target: MemoryTarget, lba: nat, zero: bool) returns (r: Status)
      requires Valid() && target.Valid() && target.count == count
      modifies this`lbas, this`dirty, this`rejected, this`hist, target
      ensures target.Valid() && target.durable == old(target.durable)
      ensures r == Failure(LbaOutOfRange) <==> lba >= count
      ensures lba >= count ==> Valid() && unchanged(this) && unchanged(target)
      ensures lba < count && AtLimit(r) ==>
                r == if old(lbas[lba]).issued >= MAX_VERSION then Failure(VersionOverflow)
                     else LimitOf(old(lbas[lba]), |old(rejected)|, zero, ReplyOf(old(target.injected)))
      ensures lba < count && !AtLimit(r) ==>
                var reply := ReplyOf(old(target.injected));
                var m, e := Summarize(old(hist[lba])), Request(zero, OutcomeOf(reply));
                && Valid() && (r == if reply == Done then Success else Failure(Io(reply)))
                && hist == old(hist)[lba := old(hist[lba]) + [e]]
                && Trackable(m, e) && Memory(lbas, rejected, lba) == Update(m, e)
                && target.injected == Healthy
                && target.Visible(lba) ==
                   if Lands(old(target.injected)) then ContentOf(zero, m.s.issued + 1) else old(target.Visible(lba))
      ensures lba < count && !AtLimit(r) ==> forall i :: 0 <= i < count && i != lba ==>
                && lbas[i] == old(lbas[i]) && Memory(lbas, rejected, i) == old(Memory(lbas, rejected, i))
                && target.Visible(i) == old(target.Visible(i))
    {
      hide Summarize, WithinLimits, Update;
      NothingIssued(lba);
      assert lba < count ==>
               Tracks(lbas, rejected, hist[lba], lba) && lbas[lba].issued == Memory(lbas, rejected, lba).s.issued;
      var version;
      r, version := IssueVersion(lba, lba);
      if r.Failure? { return; }
      var reply := target.Put(lba, if zero then Zero else Version(version));
      r := Conclude(lba, lba + 1, zero, reply);
      if r.Failure? { return; }
      NothingIssued(lba + 1);
      if reply != Done { r := Failure(Io(reply)); }
    }

    /** A discard: one answer for the whole range, entered into every covered LBA's history. */
    method DiscardBlocks(target: MemoryTarget, lba: nat, blocks: nat) returns (r: Status)
      requires Valid() && target.Valid() && target.count == count
      modifies this`lbas, this`dirty, this`rejected, this`hist, target
      ensures target.Valid() && target.durable == old(target.durable)
      ensures r == Failure(InvalidRange) <==> blocks == 0 || lba + blocks > count
      ensures r == Failure(InvalidRange) ==> unchanged(this) && unchanged(target)
      ensures r != Failure(RejectedWriteLimit)
      ensures r == Failure(VersionOverflow) ==>
                exists i :: lba <= i < lba + blocks && i < count && old(lbas)[i].issued >= MAX_VERSION
      ensures r == Failure(UncertainLimit) ==>
                && ReplyOf(old(target.injected)) == Other
                && exists i :: lba <= i < lba + blocks && i < count && old(lbas)[i].uncertainZero != 0
      ensures r != Failure(InvalidRange) && !AtLimit(r) ==>
                var reply := ReplyOf(old(target.injected));
                && Valid() && (r == if reply == Done then Success else Failure(Io(reply)))
                && target.injected == Healthy
                && forall i :: 0 <= i < count ==>
                     if lba <= i < lba + blocks then
                       && hist[i] == old(hist[i]) + [Request(true, OutcomeOf(reply))]
                       && Trackable(Summarize(old(hist[i])), Request(true, OutcomeOf(reply)))
                       && Memory(lbas, rejected, i) == Update(Summarize(old(hist[i])), Request(true, OutcomeOf(reply)))
                       && target.Visible(i) == if Lands(old(target.injected)) then Zero else old(target.Visible(i))
                     else
                       && hist[i] == old(hist[i]) && Memory(lbas, rejected, i) == old(Memory(lbas, rejected, i))
                       && target.Visible(i) == old(target.Visible(i))
    {
      hide Summarize, WithinLimits, Update;
      if blocks == 0 || lba + blocks > count { return Failure(InvalidRange); }
      var end, each, version := lba + blocks, lba, 0;
      NothingIssued(lba);
      while each < end
        modifies this`lbas
        invariant lba <= each <= end && WithIssued(lba, each)
        invariant forall i :: 0 <= i < count ==>
                    lbas[i] == if lba <= i < each then Issue(old(lbas)[i]) else old(lbas)[i]
      {
        r, version := IssueVersion(lba, each);
        if r.Failure? { return; }
        each := each + 1;
      }
      var reply := target.DiscardRange(lba, blocks);
      ghost var e := Request(true, OutcomeOf(reply));
      each := lba;
      while each < end
        modifies this`lbas, this`dirty, this`rejected, this`hist
        invariant lba <= each <= end && WithIssued(each, end)
        invariant forall i :: each <= i < end ==> lbas[i] == Issue(old(lbas)[i])
        invariant forall i :: 0 <= i < count && !(lba <= i < each) ==> hist[i] == old(hist)[i]
        invariant forall i :: 0 <= i < count && !(lba <= i < end) ==>
                    Memory(lbas, rejected, i) == Memory(old(lbas), old(rejected), i)
        invariant forall i :: lba <= i < each ==> Concluded(old(hist)[i], hist[i], Memory(lbas, rejected, i), e)
      {
        r := Conclude(each, end, true, reply);
        if r.Failure? { return; }
        assert Concluded(old(hist)[each], hist[each], Memory(lbas, rejected, each), e);
        each := each + 1;
      }
      NothingIssued(end);
      r := if reply == Done then Success else Failure(Io(reply));
    }

    /** A flush that succeeds makes the latest acknowledged request of every LBA durable. */
    method FlushTarget(target: MemoryTarget)
      requires Valid() && target.Valid() && target.count == count
      modifies this`lbas, this`dirty, this`hist, target
      ensures Valid() && target.Valid() && target.injected == old(target.injected)
      ensures forall i :: 0 <= i < count ==>
                && hist[i] == old(hist[i]) + [Flush]
                && Memory(lbas, rejected, i) == Update(Summarize(old(hist[i])), Flush)
                && target.durable[i] == target.Visible(i) == old(target.Visible(i))
    {
      hide Summarize, WithinLimits;
      target.Flush();
      var k := 0;
      while k < |dirty|
        modifies this`lbas
        invariant k <= |dirty| && |lbas| == count
        invariant forall i :: 0 <= i < count ==>
                    lbas[i] == if i in dirty[..k] then Forced(old(lbas)[i]) else old(lbas)[i]
      {
        var lba := dirty[k];
        lbas := lbas[lba := lbas[lba].(durable := lbas[lba].latest,
                                       durableIsPayload := lbas[lba].latest != lbas[lba].lastZero)];
        assert dirty[..k + 1] == dirty[..k] + [lba];
        k := k + 1;
      }
      assert dirty[..k] == dirty;
      dirty := [];
      ghost var was := hist;
      hist := seq(count, i requires 0 <= i < |was| => was[i] + [Flush]);
      forall i | 0 <= i < count
        ensures Tracks(lbas, rejected, hist[i], i) && !lbas[i].Dirty()
        ensures Memory(lbas, rejected, i) == Update(Summarize(old(hist)[i]), Flush)
      {
        assert Tracks(old(lbas), rejected, old(hist)[i], i);
        HistoryStep(old(hist)[i], Flush);
      }
    }

    /** Rewrites an LBA that recovery found different from the model. */
    method Repair(target: MemoryTarget, lba: nat) returns (r: Status)
      requires Valid() && target.Valid() && target.count == count && lba < count
      requires target.injected == Healthy && lbas[lba].needsRepair == (target.Visible(lba) != lbas[lba].Expected())
      modifies this`lbas, this`dirty, this`rejected, this`hist, target
      ensures target.Valid() && target.durable == old(target.durable)
      ensures r == Success || (r == Failure(VersionOverflow) && old(lbas[lba]).issued >= MAX_VERSION)
      ensures r == Success ==> target.injected == Healthy
      ensures r == Success ==>
                Valid() && target.Visible(lba) == lbas[lba].Expected() && Repaired(old(hist[lba]), hist[lba])
      ensures r == Success ==> forall i :: 0 <= i < count && i != lba ==>
                && lbas[i] == old(lbas[i]) && Memory(lbas, rejected, i) == old(Memory(lbas, rejected, i))
                && target.Visible(i) == old(target.Visible(i)) && hist[i] == old(hist[i])
    {
      hide Summarize, WithinLimits;
      if !lbas[lba].needsRepair { return Success; }
      assert Tracks(lbas, rejected, hist[lba], lba);
      SaneHistory(hist[lba]);
      ghost var m := Summarize(hist[lba]);
      assert m.s.Expected() == lbas[lba].Expected();
      lbas := lbas[lba := lbas[lba].(needsRepair := false)];
      forall i | 0 <= i < count ensures Tracks(lbas, rejected, hist[i], i) {
        assert Tracks(old(lbas), rejected, hist[i], i);
      }
      var zero := lbas[lba].Expected() == Zero;
      r := SubmitWrite(target, lba, zero);
      if r == Success {
        RepairedExpected(m);
        assert Memory(lbas, rejected, lba).s.Expected() == lbas[lba].Expected();
      }
    }

    /** Reads every LBA before writing any: all verdicts, no repair yet. */
    method VerifyAll(target: MemoryTarget, ghost tokens: set<(nat, nat)>) returns (r: Status)
      requires Valid() && target.Valid() && target.count == count && Covers(hist, tokens)
      requires forall i :: 0 <= i < count ==> CrashOf(Memory(lbas, rejected, i), target.Visible(i)) == Fine
      modifies this`lbas, this`rejected, this`violations, this`recorded, this`hist
      ensures violations == old(violations)
      ensures r == Success || (r == Failure(RejectedWriteLimit) && |tokens| > MAX_REJECTED)
      ensures r == Success ==> Valid()
      ensures r == Success ==> forall i :: 0 <= i < count ==>
                && hist[i] == old(hist[i]) + [Recovery] && lbas[i].issued == old(lbas[i]).issued
                && lbas[i].needsRepair == (target.Visible(i) != lbas[i].Expected())
    {
      hide Summarize, WithinLimits, Update, CrashOf;
      r := Success;
      var lba := 0;
      while lba < count
        invariant lba <= count && Valid() && violations == old(violations) && r == Success && Covers(hist, tokens)
        invariant forall i :: 0 <= i < lba ==>
                    && hist[i] == old(hist[i]) + [Recovery] && lbas[i].issued == old(lbas[i]).issued
                    && lbas[i].needsRepair == (target.Visible(i) != lbas[i].Expected())
        invariant forall i :: lba <= i < count ==>
                    && hist[i] == old(hist[i]) && lbas[i].issued == old(lbas[i]).issued
                    && Memory(lbas, rejected, i) == old(Memory(lbas, rejected, i))
      {
        RejectedCovered(tokens);
        ghost var h := hist[lba];
        assert Tracks(lbas, rejected, h, lba);
        if lbas[lba].uncertainWrite != 0 { RoomForOne(tokens, lba); }
        r := JudgeCrash(lba, target.Visible(lba));
        if r.Failure? { return; }
        RetiredCovered(h);
        lba := lba + 1;
      }
    }

    /** After a crash of a correct target: no accusation, and afterwards model, cache and medium all agree exactly. */
    method Recover(target: MemoryTarget, ghost tokens: set<(nat, nat)>) returns (r: Status)
      requires Valid() && target.Valid() && target.injected == Healthy && Covers(hist, tokens)
      requires target.count == count ==>
                 forall i :: 0 <= i < count ==> CrashOf(Memory(lbas, rejected, i), target.Visible(i)) == Fine
      modifies this, target
      ensures violations == old(violations)
      ensures r == Failure(GeometryMismatch) <==> target.count != count
      ensures r == Success || r == Failure(GeometryMismatch)
              || (r == Failure(RejectedWriteLimit) && |tokens| > MAX_REJECTED)
              || (r == Failure(VersionOverflow) && exists i :: 0 <= i < count && old(lbas)[i].issued >= MAX_VERSION)
      ensures r == Success ==> Valid() && target.Valid() && target.injected == Healthy
      ensures r == Success ==> forall i :: 0 <= i < count ==>
                && target.durable[i] == target.Visible(i) == lbas[i].Expected()
                && Agree(Memory(lbas, rejected, i), target.durable[i], target.Visible(i))
      ensures r == Success ==> forall i :: 0 <= i < count ==> Recovered(old(hist[i]), hist[i])
    {
      hide Summarize, WithinLimits, Update, Agree;
      if target.count != count { return Failure(GeometryMismatch); }
      r := VerifyAll(target, tokens);
      if r.Failure? { return; }
      ghost var verified := hist;
      var lba := 0;
      while lba < count
        modifies this`lbas, this`dirty, this`rejected, this`hist, target
        invariant lba <= count && Valid() && target.Valid() && target.injected == Healthy && r == Success
        invariant forall i :: 0 <= i < lba ==> target.Visible(i) == lbas[i].Expected() && Repaired(verified[i], hist[i])
        invariant forall i :: lba <= i < count ==>
                    && lbas[i].needsRepair == (target.Visible(i) != lbas[i].Expected()) && hist[i] == verified[i]
                    && lbas[i].issued == old(lbas)[i].issued
      {
        r := Repair(target, lba);
        if r.Failure? { return; }
        lba := lba + 1;
      }
      forall i | 0 <= i < count
        ensures Agree(Update(Summarize(hist[i]), Flush), target.Visible(i), target.Visible(i))
        ensures Update(Summarize(hist[i]), Flush).s.Expected() == target.Visible(i)
      {
        assert Tracks(lbas, rejected, hist[i], i);
        SaneHistory(hist[i]);
        FlushedExpected(Summarize(hist[i]));
        assert Summarize(hist[i]).s.Expected() == lbas[i].Expected();
        FlushAgrees(Summarize(hist[i]), target.Visible(i));
      }
      FlushTarget(target);
      forall i | 0 <= i < count ensures lbas[i].Expected() == target.Visible(i) {
        assert Memory(lbas, rejected, i).s.Expected() == lbas[i].Expected();
      }
    }

    /** Every rejected pair has its token. */
    lemma RejectedCovered(tokens: set<(nat, nat)>)
      requires Valid() && Covers(hist, tokens)
      ensures rejected <= tokens
    {
      hide Summarize, WithinLimits;
      forall p | p in rejected ensures p in tokens {
        assert Tracks(lbas, rejected, hist[p.0], p.0);
        SaneHistory(hist[p.0]);
        assert p.1 in RejectedOf(rejected, p.0);
        assert p.1 in Remembered(hist[p.0]);
      }
    }

    /** The token of an uncertain payload is not yet in the rejected set. */
    lemma RoomForOne(tokens: set<(nat, nat)>, lba: nat)
      requires Valid() && Covers(hist, tokens) && lba < count && lbas[lba].uncertainWrite != 0
      ensures |rejected| < |tokens|
    {
      hide Summarize, WithinLimits;
      RejectedCovered(tokens);
      assert Tracks(lbas, rejected, hist[lba], lba);
      SaneHistory(hist[lba]);
      var p := (lba, lbas[lba].uncertainWrite);
      assert p.1 in Remembered(hist[lba]);
      assert p in rejected <==> p.1 in RejectedOf(rejected, lba);
      Smaller(rejected, tokens - {p});
    }

    lemma NothingIssued(a: nat)
      ensures WithIssued(a, a) <==> Valid()
    {
      hide Summarize, WithinLimits;
      if WithIssued(a, a) {
        forall i | 0 <= i < count ensures Tracks(lbas, rejected, hist[i], i) {
          assert TracksIssued(lbas, rejected, hist[i], i, a <= i < a);
        }
      }
      if Valid() {
        forall i | 0 <= i < count ensures TracksIssued(lbas, rejected, hist[i], i, a <= i < a) {
          assert Tracks(lbas, rejected, hist[i], i);
        }
      }
    }
  }
}
