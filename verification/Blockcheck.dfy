/** Whole runs of the checker over a correct target: no accusation, and no early end below the stated limits. */
module Blockcheck {
  import opened Oracle
  import opened Agreement
  import opened Target
  import opened Checker
  import opened Sets

  /** The checker's memory and a target's contents, LBA by LBA. */
  ghost predicate Related(c: Checker, t: MemoryTarget)
    reads c, t
  {
    && c.Valid() && t.Valid() && c.count == t.count
    && forall i :: 0 <= i < c.count ==> Agree(Memory(c.lbas, c.rejected, i), t.durable[i], t.Visible(i))
  }

  datatype Command =
    | WriteBlock(lba: nat)
    | WriteZeros(lba: nat)
    | DiscardRange(lba: nat, blocks: nat)
    | FlushDisk
    | ReadBlock(lba: nat)
    | Inject(failure: Injected)
    | PowerLoss(keep: seq<bool>)

  /** How a completed command, with the outcome `o` of its request, extends every LBA's history. */
  ghost predicate Extends(command: Command, o: Outcome, before: seq<seq<Event>>, after: seq<seq<Event>>) {
    |after| == |before| &&
    match command
    case WriteBlock(lba) => after == if lba < |before| then before[lba := before[lba] + [Request(false, o)]] else before
    case WriteZeros(lba) => after == if lba < |before| then before[lba := before[lba] + [Request(true, o)]] else before
    case DiscardRange(lba, blocks) =>
      forall i :: 0 <= i < |before| ==>
        after[i] ==
        if lba + blocks <= |before| && lba <= i < lba + blocks then before[i] + [Request(true, o)] else before[i]
    case FlushDisk => forall i :: 0 <= i < |before| ==> after[i] == before[i] + [Flush]
    case ReadBlock(_) => after == before
    case Inject(_) => after == before
    case PowerLoss(_) => forall i :: 0 <= i < |before| ==> Recovered(before[i], after[i])
  }

  /** The command is a request that reaches a target of `count` blocks. */
  predicate Requests(count: nat, c: Command) {
    match c
    case WriteBlock(lba) => lba < count
    case WriteZeros(lba) => lba < count
    case DiscardRange(lba, blocks) => blocks > 0 && lba + blocks <= count
    case _ => false
  }

  /** The failure that the next request will meet. */
  function Armed(count: nat, script: seq<Command>): Injected {
    if script == [] then Healthy
    else
      var c := script[|script| - 1];
      match c
      case Inject(f) => f
      case PowerLoss(_) => Healthy
      case _ => if Requests(count, c) then Healthy else Armed(count, script[..|script| - 1])
  }

  function OutcomeAt(count: nat, script: seq<Command>): Outcome { OutcomeOf(ReplyOf(Armed(count, script))) }

  // ---- how far the checker's limits are ----

  /** Failures injected by the script. */
  function Injections(script: seq<Command>): nat {
    if script == [] then 0 else Injections(script[..|script| - 1]) + if script[|script| - 1].Inject? then 1 else 0
  }

  /** Failures injected since the last power loss. */
  function Open(script: seq<Command>): nat {
    if script == [] || script[|script| - 1].PowerLoss? then 0
    else Open(script[..|script| - 1]) + if script[|script| - 1].Inject? then 1 else 0
  }

  predicate Certain(m: Summary) { m.s.uncertainWrite == 0 && m.s.uncertainZero == 0 }

  /** Every payload version that is or may become rejected has cost one injected failure. */
  ghost predicate Metered(count: nat, hist: seq<seq<Event>>, tokens: set<(nat, nat)>, script: seq<Command>) {
    && |hist| == count && Covers(hist, tokens)
    && |tokens| + (if Armed(count, script) == Healthy then 0 else 1) <= Injections(script)
    && (forall i :: 0 <= i < count ==> WithinLimits(hist[i]) && Summarize(hist[i]).s.issued <= |script|)
    && (Open(script) == 0 ==> Armed(count, script) == Healthy)
    && (Open(script) == 0 || (Open(script) == 1 && Armed(count, script) != Healthy) ==>
          forall i :: 0 <= i < count ==> Certain(Summarize(hist[i])))
  }

  lemma SummaryStep(h: seq<Event>, e: Event)
    ensures Summarize(h + [e]) == Update(Summarize(h), e)
  {
    assert (h + [e])[..|h|] == h;
  }

  /** What one request of an LBA can add to its count of versions and to what is remembered. */
  lemma RequestCost(h: seq<Event>, zero: bool, f: Injected)
    ensures var after := h + [Request(zero, OutcomeOf(ReplyOf(f)))];
            && Summarize(after).s.issued == Summarize(h).s.issued + 1
            && (f == Healthy || zero ==> Remembered(after) == Remembered(h))
            && Remembered(after) <= Remembered(h) + {Summarize(h).s.issued + 1}
            && (f == Healthy && Certain(Summarize(h)) ==> Certain(Summarize(after)))
  {
    SummaryStep(h, Request(zero, OutcomeOf(ReplyOf(f))));
  }

  lemma RecoveryCost(before: seq<Event>, after: seq<Event>)
    requires Recovered(before, after)
    ensures Summarize(after).s.issued <= Summarize(before).s.issued + 1
    ensures Remembered(after) <= Remembered(before) && Certain(Summarize(after))
  {
    var a := before + [Recovery];
    SummaryStep(before, Recovery);
    if after == a + [Flush] {
      SummaryStep(a, Flush);
    } else {
      var zero :| after == a + [Request(zero, Acked)] + [Flush];
      SummaryStep(a, Request(zero, Acked));
      SummaryStep(a + [Request(zero, Acked)], Flush);
    }
  }

  lemma FlushCost(h: seq<Event>)
    ensures Summarize(h + [Flush]).s.issued == Summarize(h).s.issued && Remembered(h + [Flush]) == Remembered(h)
    ensures Certain(Summarize(h)) ==> Certain(Summarize(h + [Flush]))
  {
    SummaryStep(h, Flush);
  }

  lemma ScriptStep(count: nat, script: seq<Command>, c: Command)
    ensures var more := script + [c];
            && Armed(count, more) == (match c case Inject(f) => f case PowerLoss(_) => Healthy
                                      case _ => if Requests(count, c) then Healthy else Armed(count, script))
            && Injections(more) == Injections(script) + (if c.Inject? then 1 else 0)
            && Open(more) == (if c.PowerLoss? then 0 else Open(script) + if c.Inject? then 1 else 0)
  {
    assert (script + [c])[..|script|] == script;
  }

  /** A single request: one version more, and a token exactly when a payload failed. */
  lemma MeterRequest(count: nat, hist: seq<seq<Event>>, after: seq<seq<Event>>, tokens: set<(nat, nat)>,
                     script: seq<Command>, c: Command, lba: nat, zero: bool)
    returns (more: set<(nat, nat)>)
    requires Metered(count, hist, tokens, script) && Requests(count, c) && lba < count
    requires c == if zero then WriteZeros(lba) else WriteBlock(lba)
    requires after == hist[lba := hist[lba] + [Request(zero, OutcomeAt(count, script))]] && WithinLimits(after[lba])
    ensures Metered(count, after, more, script + [c])
  {
    hide Summarize, WithinLimits, Armed, Injections, Open, Remembered;
    ScriptStep(count, script, c);
    var f := Armed(count, script);
    RequestCost(hist[lba], zero, f);
    more := if f == Healthy || zero then tokens else tokens + {(lba, Summarize(hist[lba]).s.issued + 1)};
  }

  lemma MeterDiscard(count: nat, hist: seq<seq<Event>>, after: seq<seq<Event>>, tokens: set<(nat, nat)>,
                     script: seq<Command>, c: Command)
    requires Metered(count, hist, tokens, script) && Requests(count, c) && c.DiscardRange?
    requires Extends(c, OutcomeAt(count, script), hist, after) && forall i :: 0 <= i < count ==> WithinLimits(after[i])
    ensures Metered(count, after, tokens, script + [c])
  {
    hide Summarize, WithinLimits, Armed, Injections, Open, Remembered;
    ScriptStep(count, script, c);
    var f := Armed(count, script);
    forall i | 0 <= i < count
      ensures Remembered(after[i]) <= Remembered(hist[i])
      ensures Summarize(after[i]).s.issued <= Summarize(hist[i]).s.issued + 1
      ensures f == Healthy && Certain(Summarize(hist[i])) ==> Certain(Summarize(after[i]))
    {
      RequestCost(hist[i], true, f);
    }
  }

  lemma MeterFlush(count: nat, hist: seq<seq<Event>>, after: seq<seq<Event>>, tokens: set<(nat, nat)>,
                   script: seq<Command>)
    requires Metered(count, hist, tokens, script)
    requires Extends(FlushDisk, OutcomeAt(count, script), hist, after)
    requires forall i :: 0 <= i < count ==> WithinLimits(after[i])
    ensures Metered(count, after, tokens, script + [FlushDisk])
  {
    hide Summarize, WithinLimits, Armed, Injections, Open, Remembered;
    ScriptStep(count, script, FlushDisk);
    forall i | 0 <= i < count
      ensures Remembered(after[i]) == Remembered(hist[i]) && Summarize(after[i]).s.issued == Summarize(hist[i]).s.issued
      ensures Certain(Summarize(hist[i])) ==> Certain(Summarize(after[i]))
    {
      FlushCost(hist[i]);
    }
  }

  lemma MeterPowerLoss(count: nat, hist: seq<seq<Event>>, after: seq<seq<Event>>, tokens: set<(nat, nat)>,
                       script: seq<Command>, c: Command)
    requires Metered(count, hist, tokens, script) && c.PowerLoss?
    requires Extends(c, OutcomeAt(count, script), hist, after) && forall i :: 0 <= i < count ==> WithinLimits(after[i])
    ensures Metered(count, after, tokens, script + [c])
  {
    hide Summarize, WithinLimits, Armed, Injections, Open, Remembered, Recovered;
    ScriptStep(count, script, c);
    forall i | 0 <= i < count
      ensures Remembered(after[i]) <= Remembered(hist[i]) && Certain(Summarize(after[i]))
      ensures Summarize(after[i]).s.issued <= Summarize(hist[i]).s.issued + 1
    {
      RecoveryCost(hist[i], after[i]);
    }
  }

  /** Every completed command keeps the meter. */
  lemma MeterStep(count: nat, hist: seq<seq<Event>>, after: seq<seq<Event>>, tokens: set<(nat, nat)>,
                  script: seq<Command>, c: Command)
    returns (more: set<(nat, nat)>)
    requires Metered(count, hist, tokens, script)
    requires Extends(c, OutcomeAt(count, script), hist, after) && forall i :: 0 <= i < count ==> WithinLimits(after[i])
    ensures Metered(count, after, more, script + [c])
  {
    hide Summarize, WithinLimits, Armed, Injections, Open, Remembered;
    more := tokens;
    if Requests(count, c) {
      match c {
        case WriteBlock(lba) => more := MeterRequest(count, hist, after, tokens, script, c, lba, false);
        case WriteZeros(lba) => more := MeterRequest(count, hist, after, tokens, script, c, lba, true);
        case DiscardRange(_, _) => MeterDiscard(count, hist, after, tokens, script, c);
      }
    } else if c.PowerLoss? {
      MeterPowerLoss(count, hist, after, tokens, script, c);
    } else if c.FlushDisk? {
      MeterFlush(count, hist, after, tokens, script);
    } else {
      assert after == hist;
      ScriptStep(count, script, c);
    }
  }

  // ---- runs ----

  /** The script asks for more than the checker can track. */
  predicate OverLimit(e: Error, script: seq<Command>) {
    match e
    case VersionOverflow => |script| >= MAX_VERSION
    case RejectedWriteLimit => Injections(script) > MAX_REJECTED
    case UncertainLimit => Open(script) >= 2
    case _ => false
  }

  /** A request keeps the agreement of its LBA, whatever failure was injected. */
  lemma RequestAgrees(h: seq<Event>, zero: bool, f: Injected, stored: Content, visible: Content)
    requires WithinLimits(h) && Agree(Summarize(h), stored, visible)
    requires Trackable(Summarize(h), Request(zero, OutcomeOf(ReplyOf(f))))
    ensures Agree(Update(Summarize(h), Request(zero, OutcomeOf(ReplyOf(f)))), stored,
                  if Lands(f) then ContentOf(zero, Summarize(h).s.issued + 1) else visible)
  {
    hide Summarize, WithinLimits, Update, Agree;
    SaneHistory(h);
    if Lands(f) {
      LandedAgrees(Summarize(h), zero, OutcomeOf(ReplyOf(f)), stored, visible);
    } else {
      DroppedAgrees(Summarize(h), zero, OutcomeOf(ReplyOf(f)), stored, visible);
    }
  }

  ghost predicate Running(c: Checker, t: MemoryTarget, tokens: set<(nat, nat)>, script: seq<Command>)
    reads c, t
  {
    Related(c, t) && Metered(c.count, c.hist, tokens, script) && t.injected == Armed(c.count, script)
  }

  /** A limit met by one result on an LBA was a limit of the script. */
  lemma LimitCause(c: Checker, t: MemoryTarget, tokens: set<(nat, nat)>, script: seq<Command>, lba: nat, zero: bool)
    requires Running(c, t, tokens, script) && lba < c.count
    ensures c.lbas[lba].issued >= MAX_VERSION ==> OverLimit(VersionOverflow, script)
    ensures var r := LimitOf(c.lbas[lba], |c.rejected|, zero, ReplyOf(t.injected));
            r.Failure? ==> OverLimit(r.error, script)
  {
    hide Summarize, WithinLimits, Armed, Injections, Open, Agree;
    assert Tracks(c.lbas, c.rejected, c.hist[lba], lba);
    c.RejectedCovered(tokens);
    Smaller(c.rejected, tokens);
  }

  method ObeyWrite(c: Checker, t: MemoryTarget, lba: nat, zero: bool, ghost tokens: set<(nat, nat)>,
                   ghost script: seq<Command>)
    returns (r: Status)
    requires Running(c, t, tokens, script)
    modifies c, t
    ensures c.violations == old(c.violations) && c.count == t.count
    ensures Incomplete(r) ==> OverLimit(r.error, script)
    ensures !Incomplete(r) ==> Related(c, t) && t.injected == if lba < c.count then Healthy else old(t.injected)
    ensures !Incomplete(r) ==>
              Extends(if zero then WriteZeros(lba) else WriteBlock(lba), OutcomeAt(c.count, script),
                      old(c.hist), c.hist)
  {
    hide Summarize, WithinLimits, Update, Agree, Metered, Armed, OverLimit;
    ghost var f := t.injected;
    if lba < c.count {
      assert Tracks(c.lbas, c.rejected, c.hist[lba], lba);
      LimitCause(c, t, tokens, script, lba, zero);
    }
    r := c.SubmitWrite(t, lba, zero);
    if lba < c.count && !Incomplete(r) {
      RequestAgrees(old(c.hist)[lba], zero, f, old(t.durable)[lba], old(t.Visible(lba)));
    }
  }

  method ObeyDiscard(c: Checker, t: MemoryTarget, lba: nat, blocks: nat, ghost tokens: set<(nat, nat)>,
                     ghost script: seq<Command>)
    returns (r: Status)
    requires Running(c, t, tokens, script)
    modifies c, t
    ensures c.violations == old(c.violations) && c.count == t.count
    ensures Incomplete(r) ==> OverLimit(r.error, script)
    ensures !Incomplete(r) ==>
              Related(c, t) && t.injected == if blocks > 0 && lba + blocks <= c.count then Healthy else old(t.injected)
    ensures !Incomplete(r) ==> Extends(DiscardRange(lba, blocks), OutcomeAt(c.count, script), old(c.hist), c.hist)
  {
    hide Summarize, WithinLimits, Update, Agree, Metered, Armed, OverLimit;
    ghost var f := t.injected;
    forall i | 0 <= i < c.count
      ensures c.lbas[i].issued >= MAX_VERSION ==> OverLimit(VersionOverflow, script)
      ensures ReplyOf(f) == Other && c.lbas[i].uncertainZero != 0 ==> OverLimit(UncertainLimit, script)
    {
      LimitCause(c, t, tokens, script, i, true);
    }
    r := c.DiscardBlocks(t, lba, blocks);
    if r != Failure(InvalidRange) && !Incomplete(r) {
      forall i | 0 <= i < c.count ensures Agree(Memory(c.lbas, c.rejected, i), t.durable[i], t.Visible(i)) {
        assert old(Tracks(c.lbas, c.rejected, c.hist[i], i));
        if lba <= i < lba + blocks { RequestAgrees(old(c.hist)[i], true, f, old(t.durable)[i], old(t.Visible(i))); }
      }
    }
  }

  method ObeyFlush(c: Checker, t: MemoryTarget) returns (r: Status)
    requires Related(c, t)
    modifies c, t
    ensures c.violations == old(c.violations) && t.injected == old(t.injected)
    ensures r == Success && Related(c, t)
    ensures forall i :: 0 <= i < c.count ==> c.hist[i] == old(c.hist[i]) + [Flush]
  {
    hide Summarize, WithinLimits, Update;
    c.FlushTarget(t);
    forall i | 0 <= i < c.count ensures Agree(Memory(c.lbas, c.rejected, i), t.durable[i], t.Visible(i)) {
      assert old(Tracks(c.lbas, c.rejected, c.hist[i], i));
      SaneHistory(old(c.hist)[i]);
      FlushAgrees(Summarize(old(c.hist)[i]), old(t.Visible(i)));
    }
    r := Success;
  }

  method ObeyRead(c: Checker, t: MemoryTarget, lba: nat) returns (r: Status)
    requires Related(c, t)
    modifies c
    ensures c.violations == old(c.violations)
    ensures Related(c, t) && c.hist == old(c.hist) && (r == if lba < c.count then Success else Failure(LbaOutOfRange))
  {
    if lba >= c.count { return Failure(LbaOutOfRange); }
    assert Agree(Memory(c.lbas, c.rejected, lba), t.durable[lba], t.Visible(lba));
    c.JudgeLive(lba, t.Visible(lba));
    r := Success;
  }

  method ObeyPowerLoss(c: Checker, t: MemoryTarget, keep: seq<bool>, ghost tokens: set<(nat, nat)>,
                       ghost script: seq<Command>)
    returns (r: Status)
    requires Running(c, t, tokens, script)
    modifies c, t
    ensures c.violations == old(c.violations) && c.count == t.count
    ensures Incomplete(r) ==> OverLimit(r.error, script)
    ensures !Incomplete(r) ==> r == Success && Related(c, t) && t.injected == Healthy
    ensures r == Success ==> forall i :: 0 <= i < c.count ==>
              Recovered(old(c.hist[i]), c.hist[i]) && t.durable[i] == c.lbas[i].Expected()
  {
    hide Summarize, WithinLimits, Update, Tracks, Armed, Injections, Open, Metered;
    assert Covers(c.hist, tokens) && |tokens| <= Injections(script) by { Tokens(c.count, c.hist, tokens, script); }
    forall i | 0 <= i < c.count ensures c.lbas[i].issued <= |script| {
      IssuedBelow(c, t, tokens, script, i);
    }
    t.Crash(keep);
    forall i | 0 <= i < c.count ensures CrashOf(Memory(c.lbas, c.rejected, i), t.Visible(i)) == Fine {
      assert old(Agree(Memory(c.lbas, c.rejected, i), t.durable[i], t.Visible(i)));
    }
    r := c.Recover(t, tokens);
  }

  lemma Tokens(count: nat, hist: seq<seq<Event>>, tokens: set<(nat, nat)>, script: seq<Command>)
    requires Metered(count, hist, tokens, script)
    ensures Covers(hist, tokens) && |tokens| <= Injections(script)
  {
  }

  lemma IssuedBelow(c: Checker, t: MemoryTarget, tokens: set<(nat, nat)>, script: seq<Command>, i: nat)
    requires Running(c, t, tokens, script) && i < c.count
    ensures c.lbas[i].issued <= |script|
  {
    hide Summarize, WithinLimits, Armed, Injections, Open, Agree;
    assert Tracks(c.lbas, c.rejected, c.hist[i], i);
  }

  /**
    * No command makes the checker accuse a correct target. A command that completes keeps the two related and
    * extends the histories as it should; one that does not was over a limit.
    */
  method Obey(c: Checker, t: MemoryTarget, command: Command, ghost tokens: set<(nat, nat)>, ghost script: seq<Command>)
    returns (r: Status, ghost more: set<(nat, nat)>)
    requires Running(c, t, tokens, script)
    modifies c, t
    ensures c.violations == old(c.violations)
    ensures Incomplete(r) ==> OverLimit(r.error, script)
    ensures !Incomplete(r) ==>
              && Running(c, t, more, script + [command])
              && Extends(command, OutcomeAt(c.count, script), old(c.hist), c.hist)
  {
    hide Summarize, WithinLimits, Update, Agree, Checker.Valid, Metered, Armed, OverLimit, Recovered;
    ScriptStep(c.count, script, command);
    Limits(c);
    more := tokens;
    match command {
      case WriteBlock(lba) => r := ObeyWrite(c, t, lba, false, tokens, script);
      case WriteZeros(lba) => r := ObeyWrite(c, t, lba, true, tokens, script);
      case DiscardRange(lba, blocks) => r := ObeyDiscard(c, t, lba, blocks, tokens, script);
      case FlushDisk => r := ObeyFlush(c, t);
      case ReadBlock(lba) => r := ObeyRead(c, t, lba);
      case Inject(failure) =>
        t.injected := failure;
        r := Success;
      case PowerLoss(keep) => r := ObeyPowerLoss(c, t, keep, tokens, script);
    }
    if Incomplete(r) { return; }
    Limits(c);
    more := MeterStep(c.count, old(c.hist), c.hist, tokens, script, command);
  }

  lemma Limits(c: Checker)
    requires c.Valid()
    ensures |c.hist| == c.count && forall i :: 0 <= i < c.count ==> WithinLimits(c.hist[i])
  {
    forall i | 0 <= i < c.count ensures WithinLimits(c.hist[i]) {
      assert Tracks(c.lbas, c.rejected, c.hist[i], i);
    }
  }

  /** The histories after each of the first `n` commands. */
  ghost predicate Told(blocks: nat, script: seq<Command>, n: nat, trace: seq<seq<seq<Event>>>) {
    && n <= |script| && |trace| == n + 1 && trace[0] == seq(blocks, i => [])
    && forall k :: 0 <= k < n ==> Extends(script[k], OutcomeAt(blocks, script[..k]), trace[k], trace[k + 1])
  }

  /**
    * The oracle never accuses a correct disk: no script, failure or power loss makes it record a violation. A script
    * ends early only if it has issued all versions of an LBA, injected more failures than the rejected set has room
    * for, or two failures without a power loss between them. A script below those limits ends in success.
    */
  method Run(blocks: nat, script: seq<Command>)
    returns (r: Status, c: Checker, t: MemoryTarget, ghost trace: seq<seq<seq<Event>>>)
    ensures c.violations == 0 && c.count == blocks
    ensures r == Success ==> Told(blocks, script, |script|, trace) && trace[|script|] == c.hist && Related(c, t)
    ensures r != Success ==> r.Failure? && 0 < |trace| <= |script| && Told(blocks, script, |trace| - 1, trace)
    ensures r != Success ==> OverLimit(r.error, script[..|trace| - 1])
  {
    hide Extends, Checker.Valid, Metered, OverLimit, OutcomeAt;
    c := new Checker(blocks);
    t := new MemoryTarget(blocks);
    assert Related(c, t);
    ghost var tokens: set<(nat, nat)> := {};
    StartMetered(blocks, c.hist);
    var n := 0;
    trace := [c.hist];
    assert script[..0] == [];
    while n < |script|
      modifies c, t
      invariant n <= |script| && c.violations == 0 && Running(c, t, tokens, script[..n])
      invariant Told(blocks, script, n, trace) && trace[n] == c.hist
    {
      r, tokens := Obey(c, t, script[n], tokens, script[..n]);
      if Incomplete(r) { return; }
      assert script[..n + 1] == script[..n] + [script[n]];
      trace := trace + [c.hist];
      n := n + 1;
    }
    r := Success;
  }

  lemma StartMetered(blocks: nat, hist: seq<seq<Event>>)
    requires hist == seq(blocks, i => [])
    ensures Metered(blocks, hist, {}, [])
  {
  }
}
