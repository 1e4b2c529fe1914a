/** Whole runs of a volume: any commands, any crash points, any number of interrupted opens. */
module Session {
  import opened Blocks
  import opened Log
  import opened Disk
  import opened Device
  import opened Volume
  import opened Open
  import opened Format
  import opened Cache
  import opened Buffer
  import opened Load
  import opened Publish
  import opened Live
  import opened Contract
  import opened States

  // ---- how the log and the buffer meet the contract ----

  /** Every log that a crash can leave from here on holds only values the contract keeps. */
  ghost predicate LogExplained(recs: seq<Rec>, base: nat, ev: seq<Event>) {
    && base <= |recs|
    && (forall n: nat, lba: nat :: base <= n <= |recs| ==> Content(recs, n, lba) in Kept(ev, lba))
    && (forall n: nat, lba: nat :: base <= n <= |recs| && !Unsettled(ev, lba) ==>
          Content(recs, n, lba) == Content(recs, |recs|, lba))
  }

  ghost predicate LiveExplained(recs: seq<Rec>, contents: map<nat, nat>, ev: seq<Event>) {
    forall lba: nat ::
      && Overlay(recs, contents, lba) in Seen(ev, lba) && Overlay(recs, contents, lba) in Kept(ev, lba)
      && (lba in contents ==> Unsettled(ev, lba))
  }

  lemma ExplainPrefix(v: Vol, recs: seq<Rec>, base: nat, ev: seq<Event>, part: seq<Rec>)
    requires LogExplained(recs, base, ev) && part <= recs && base <= |part|
    ensures LogExplained(part, base, ev)
  {
    hide Content, Seen, Kept, Unsettled;
    forall n: nat, lba: nat | n <= |part| ensures Content(part, n, lba) == Content(recs, n, lba) {
      EntStable(v, part, recs, n);
    }
  }

  lemma ExplainSnaps(v: Vol, recs: seq<Rec>, base: nat, ev: seq<Event>, more: seq<Rec>)
    requires LogExplained(recs, base, ev) && OnlySnaps(recs, more)
    ensures LogExplained(more, base, ev)
  {
    hide Content, Seen, Kept, Unsettled;
    forall n: nat, lba: nat | n <= |more|
      ensures Content(more, n, lba) == Content(recs, if n <= |recs| then n else |recs|, lba)
    {
      if n <= |recs| { EntStable(v, recs, more, n); } else { SnapsKeep(v, recs, more, n); }
    }
  }

  /** A release in the middle of a command only brings buffered values into the log. */
  lemma ExplainMixed(v: Vol, recs: seq<Rec>, base: nat, contents: map<nat, nat>, ev: seq<Event>, more: seq<Rec>)
    requires LogExplained(recs, base, ev) && Mixed(recs, more, contents)
    requires forall lba: nat :: Overlay(recs, contents, lba) in Kept(ev, lba)
    requires forall lba: nat :: lba in contents ==> Unsettled(ev, lba)
    ensures LogExplained(more, base, ev)
  {
    hide Content, Seen, Kept, Unsettled;
    forall n: nat, lba: nat | n <= |recs| ensures Content(more, n, lba) == Content(recs, n, lba) {
      EntStable(v, recs, more, n);
    }
    forall n: nat, lba: nat | base <= n <= |more|
      ensures Content(more, n, lba) in Kept(ev, lba)
      ensures !Unsettled(ev, lba) ==> Content(more, n, lba) == Content(recs, |recs|, lba)
    {
      if n > |recs| {
        var was, now := Content(recs, |recs|, lba), Overlay(recs, contents, lba);
        assert Content(more, n, lba) == was || Content(more, n, lba) == now;
      }
    }
  }

  /** Issuing a write widens what the contract keeps before it happens. */
  lemma ExplainWrite(recs: seq<Rec>, base: nat, ev: seq<Event>, e: Event)
    requires LogExplained(recs, base, ev) && (e.Wrote? || e.Tried?)
    ensures LogExplained(recs, base, ev + [e])
  {
    hide Content;
    assert (ev + [e])[..|ev|] == ev;
  }

  lemma LiveWrite(recs: seq<Rec>, contents: map<nat, nat>, ev: seq<Event>, lba: nat, data: nat)
    requires LiveExplained(recs, contents, ev)
    ensures LiveExplained(recs, contents[lba := data], ev + [Wrote(lba, data)])
    ensures LiveExplained(recs, contents[lba := data], ev + [Tried(lba, data)])
  {
    hide Content;
    assert (ev + [Wrote(lba, data)])[..|ev|] == ev;
    assert (ev + [Tried(lba, data)])[..|ev|] == ev;
  }

  /** The same logical blocks in another place are explained alike. */
  lemma LiveMoved(recs: seq<Rec>, contents: map<nat, nat>, ev: seq<Event>, more: seq<Rec>, now: map<nat, nat>)
    requires LiveExplained(recs, contents, ev)
    requires forall lba: nat :: Overlay(more, now, lba) == Overlay(recs, contents, lba)
    requires forall lba: nat :: lba in now ==> lba in contents
    ensures LiveExplained(more, now, ev)
  {
    hide Content, Seen, Kept, Unsettled;
    forall lba: nat
      ensures Overlay(more, now, lba) in Seen(ev, lba) && Overlay(more, now, lba) in Kept(ev, lba)
      ensures lba in now ==> Unsettled(ev, lba)
    {
      assert Overlay(recs, contents, lba) in Seen(ev, lba);
    }
  }

  lemma ExplainRead(recs: seq<Rec>, base: nat, contents: map<nat, nat>, ev: seq<Event>, lba: nat)
    requires LogExplained(recs, base, ev) && LiveExplained(recs, contents, ev)
    ensures LogExplained(recs, base, ev + [ReadBack(lba, Overlay(recs, contents, lba))])
    ensures LiveExplained(recs, contents, ev + [ReadBack(lba, Overlay(recs, contents, lba))])
  {
    hide Content;
    assert (ev + [ReadBack(lba, Overlay(recs, contents, lba))])[..|ev|] == ev;
  }

  /** A flush or a restart settles everything: the whole content is in the log. */
  lemma ExplainSettled(recs: seq<Rec>, ev: seq<Event>, e: Event)
    requires e == Flushed || e == Lost
    requires forall lba: nat :: Content(recs, |recs|, lba) in (if e == Flushed then Seen(ev, lba) else Kept(ev, lba))
    ensures LogExplained(recs, |recs|, ev + [e]) && LiveExplained(recs, map[], ev + [e])
  {
    hide Content;
    assert (ev + [e])[..|ev|] == ev;
  }

  // ---- running ----

  /** `ev` explains the volume's device and, while it works, all it shows. */
  ghost predicate Explains(vol: Volume, ev: seq<Event>, base: nat)
    reads vol.Repr(), vol.m.dev.faults
  {
    && Honest(vol) && LogExplained(vol.Recs(), base, ev)
    && (!vol.failed ==> LiveExplained(vol.Recs(), vol.buffer.contents, ev))
  }

  lemma ExplainDenied(recs: seq<Rec>, base: nat, contents: map<nat, nat>, ev: seq<Event>, why: Error)
    ensures LogExplained(recs, base, ev) ==> LogExplained(recs, base, ev + [Denied(why)])
    ensures LiveExplained(recs, contents, ev) ==> LiveExplained(recs, contents, ev + [Denied(why)])
  {
    hide Content;
    assert (ev + [Denied(why)])[..|ev|] == ev;
  }

  /** A failed volume is one whose device failed. */
  ghost predicate Honest(vol: Volume)
    reads vol.Repr(), vol.m.dev.faults
  {
    vol.Valid() && (vol.failed ==> vol.m.dev.Faulted())
  }

  /** The state of a real volume is sound. */
  lemma StateSound(vol: Volume)
    requires Honest(vol) && vol.m.dev.v == vol.m.v
    ensures Sound(vol.m.v, StateOf(vol))
    ensures !vol.failed ==> Weight(vol.m.v, StateOf(vol)) == vol.Due()
  {
    hide UpToDate, Covered, Indexed, LiveCount, DiskInv, PagesOf, Records, TouchedPages, CrashOk;
    assert DiskInv(vol.m.v, vol.m.dev.image, vol.Recs(), vol.m.dev.Now().c) by { vol.m.dev.Facts(); }
  }

  /** Admission looks at the same reservation. */
  lemma FitsIsDemand(vol: Volume, lba: nat)
    requires Honest(vol) && !vol.failed
    ensures Fits(vol.m.v, StateOf(vol), lba) <==> lba in vol.buffer.contents || vol.Demand(lba) < vol.m.v.backing
  {
    hide UpToDate, Covered, Indexed, LiveCount, DiskInv, PagesOf, Records, TouchedPages, CrashOk;
  }

  lemma ImageIs(dev: Device)
    requires dev.Valid()
    ensures dev.trace != [] && dev.image == dev.trace[|dev.trace| - 1].image
  {
  }

  /** The volume's write, seen as a step from state to state. */
  method TryWrite(vol: Volume, lba: nat, data: nat) returns (r: Result<()>)
    requires Honest(vol) && vol.m.dev.v == vol.m.v
    modifies vol.Repr(), vol.m.dev.faults
    ensures Honest(vol) && old(vol.m.dev.trace) <= vol.m.dev.trace
    ensures Mixed(old(vol.Recs()), vol.Recs(), old(vol.buffer.contents)[lba := data])
    ensures r.Ok? ==> !vol.failed && Written(old(StateOf(vol)), StateOf(vol), lba, data)
    ensures r.Ok? ==> Weight(vol.m.v, StateOf(vol)) <= old(Weight(vol.m.v, StateOf(vol))) + 3
    ensures r.Err? && r.error in {Failed, InvalidInput, NoSpace} ==> StateOf(vol) == old(StateOf(vol))
    ensures r.Err? && r.error !in {Failed, InvalidInput, NoSpace} ==> vol.failed && vol.m.dev.Faulted()
    ensures r == Err(Failed) <==> old(vol.failed)
    ensures r == Err(InvalidInput) <==> !old(vol.failed) && lba >= vol.m.v.blocks
    ensures r == Err(NoSpace) <==>
              !old(vol.failed) && lba < vol.m.v.blocks && !old(Fits(vol.m.v, StateOf(vol), lba))
  {
    hide Volume.Valid, Volume.Operational, Volume.Due, Volume.Demand, Mixed, Overlay, Weight, Fits, Device.Intact,
         Device.Paced, Sound;
    ghost var s := StateOf(vol);
    StateSound(vol);
    if !vol.failed { FitsIsDemand(vol, lba); }
    DeviceValid(vol);
    ImageIs(vol.m.dev);
    r := vol.WriteBlock(lba, data);
    StateSound(vol);
    DeviceValid(vol);
    ImageIs(vol.m.dev);
    if r.Ok? {
      forall x: nat ensures Shown(StateOf(vol), x) == if x == lba then data else Shown(s, x) {
        assert vol.Logical(x) == Shown(StateOf(vol), x);
      }
    }
  }

  method IssueWrite(vol: Volume, lba: nat, data: nat) returns (e: Event)
    requires Honest(vol) && vol.m.dev.v == vol.m.v
    modifies vol.Repr(), vol.m.dev.faults
    ensures Honest(vol) && old(vol.m.dev.trace) <= vol.m.dev.trace
    ensures RepliesWrite(vol.m.v, old(StateOf(vol)), lba, data, e, StateOf(vol))
  {
    hide Honest, Mixed, Weight, Fits, Written;
    var r := TryWrite(vol, lba, data);
    if r.Ok? {
      e := Wrote(lba, data);
    } else if r.error == Failed || r.error == InvalidInput || r.error == NoSpace {
      e := Denied(r.error);
    } else {
      e := Tried(lba, data);
    }
  }

  lemma DeviceValid(vol: Volume)
    requires vol.Valid()
    ensures vol.m.dev.Valid()
  {
  }

  method IssueRead(vol: Volume, lba: nat) returns (e: Event)
    requires Honest(vol) && vol.m.dev.v == vol.m.v
    modifies vol.Repr(), vol.m.dev.faults
    ensures Honest(vol) && old(vol.m.dev.trace) <= vol.m.dev.trace
    ensures vol.buffer.contents == old(vol.buffer.contents)
    ensures RepliesRead(vol.m.v, old(StateOf(vol)), lba, e, StateOf(vol))
  {
    hide Volume.Valid, Volume.Operational, Volume.Due, Overlay, OnlySnaps, Weight, Device.Intact, Device.Paced, Sound;
    ghost var s := StateOf(vol);
    assert forall x: nat :: vol.Logical(x) == Shown(s, x);
    StateSound(vol);
    DeviceValid(vol);
    ImageIs(vol.m.dev);
    var r := vol.ReadBlock(lba);
    StateSound(vol);
    DeviceValid(vol);
    ImageIs(vol.m.dev);
    assert forall x: nat :: vol.Logical(x) == Shown(StateOf(vol), x);
    e := if r.Ok? then ReadBack(lba, r.value) else Denied(r.error);
  }

  method IssueFlush(vol: Volume) returns (e: Event)
    requires Honest(vol) && vol.m.dev.v == vol.m.v
    modifies vol.Repr(), vol.m.dev.faults
    ensures Honest(vol) && old(vol.m.dev.trace) <= vol.m.dev.trace
    ensures RepliesFlush(vol.m.v, old(StateOf(vol)), e, StateOf(vol))
  {
    hide Volume.Valid, Volume.Operational, Volume.Due, Mixed, Content, Synced, Weight, Device.Intact, Device.Paced,
         Sound;
    ghost var s := StateOf(vol);
    assert forall x: nat :: vol.Logical(x) == Shown(s, x);
    StateSound(vol);
    DeviceValid(vol);
    ImageIs(vol.m.dev);
    var r := vol.Flush();
    StateSound(vol);
    DeviceValid(vol);
    ImageIs(vol.m.dev);
    assert forall x: nat :: vol.Logical(x) == Shown(StateOf(vol), x);
    e := if r.Ok? then Flushed else Denied(r.error);
  }

  lemma WriteFacts(v: Vol, s: State, lba: nat, data: nat, e: Event, t: State)
    requires RepliesWrite(v, s, lba, data, e, t)
    ensures Mixed(s.recs, t.recs, s.contents[lba := data])
    ensures e == Wrote(lba, data) || e == Tried(lba, data) || e.Denied?
    ensures e.Wrote? ==> !t.failed && Written(s, t, lba, data)
    ensures e.Denied? ==> t == s
    ensures e.Tried? ==> t.failed
    ensures s.failed ==> e.Denied?
  {
    if e.Denied? { MixedSelf(s.recs, s.contents[lba := data]); }
    hide Mixed, Weight, Fits, Written;
  }

  lemma ReadFacts(v: Vol, s: State, lba: nat, e: Event, t: State)
    requires RepliesRead(v, s, lba, e, t)
    ensures OnlySnaps(s.recs, t.recs) && (e.Denied? || e == ReadBack(lba, Shown(s, lba)))
    ensures !t.failed ==> !s.failed && Unmoved(s, t)
    ensures e.ReadBack? ==> !t.failed
  {
    NoSnaps(s.recs);
    hide OnlySnaps, Weight;
  }

  lemma FlushFacts(v: Vol, s: State, e: Event, t: State)
    requires RepliesFlush(v, s, e, t)
    ensures Mixed(s.recs, t.recs, s.contents) && (e == Flushed || e.Denied?)
    ensures s.failed ==> t == s && e.Denied?
    ensures e.Denied? ==> t.failed
    ensures e.Flushed? ==> !s.failed && !t.failed && t.contents == map[]
    ensures e.Flushed? ==> forall x: nat :: Content(t.recs, |t.recs|, x) == Shown(s, x)
  {
    MixedSelf(s.recs, s.contents);
    if e.Flushed? {
      forall x: nat ensures Content(t.recs, |t.recs|, x) == Shown(s, x) {
        assert Shown(t, x) == Content(t.recs, |t.recs|, x);
      }
    }
    hide Mixed, Weight, Content;
  }

  method ExecuteWrite(vol: Volume, lba: nat, data: nat, ghost ev: seq<Event>, ghost base: nat) returns (e: Event)
    requires Explains(vol, ev, base) && vol.m.dev.v == vol.m.v
    modifies vol.Repr(), vol.m.dev.faults
    ensures Explains(vol, ev + [e], base) && old(vol.m.dev.trace) <= vol.m.dev.trace
    ensures LogExplained(vol.Recs(), base, ev + [Tried(lba, data)]) && !e.ReadBack?
    ensures RepliesWrite(vol.m.v, old(StateOf(vol)), lba, data, e, StateOf(vol))
  {
    hide LogExplained, LiveExplained, Mixed, Overlay, Honest, RepliesWrite, Written;
    ghost var s, recs, contents := StateOf(vol), vol.Recs(), vol.buffer.contents;
    e := IssueWrite(vol, lba, data);
    ghost var t := StateOf(vol);
    WriteFacts(vol.m.v, s, lba, data, e, t);
    ExplainWrite(recs, base, ev, Tried(lba, data));
    ExplainWrite(recs, base, ev, Wrote(lba, data));
    if e.Denied? {
      ExplainDenied(recs, base, contents, ev, e.why);
    } else {
      LiveWrite(recs, contents, ev, lba, data);
      LiveFacts(recs, contents[lba := data], ev + [Tried(lba, data)]);
      LiveFacts(recs, contents[lba := data], ev + [Wrote(lba, data)]);
      ExplainMixed(vol.m.v, recs, base, contents[lba := data], ev + [Tried(lba, data)], t.recs);
      ExplainMixed(vol.m.v, recs, base, contents[lba := data], ev + [Wrote(lba, data)], t.recs);
      if e.Wrote? { WrittenMoved(s, t, ev, lba, data); }
    }
  }

  lemma LiveFacts(recs: seq<Rec>, contents: map<nat, nat>, ev: seq<Event>)
    requires LiveExplained(recs, contents, ev)
    ensures forall lba: nat :: Overlay(recs, contents, lba) in Kept(ev, lba)
    ensures forall lba: nat :: Overlay(recs, contents, lba) in Seen(ev, lba)
    ensures forall lba: nat :: lba in contents ==> Unsettled(ev, lba)
  {
  }

  lemma WrittenMoved(s: State, t: State, ev: seq<Event>, lba: nat, data: nat)
    requires LiveExplained(s.recs, s.contents, ev) && Written(s, t, lba, data)
    ensures LiveExplained(t.recs, t.contents, ev + [Wrote(lba, data)])
  {
    hide Content, Seen, Kept, Unsettled, LiveExplained;
    LiveWrite(s.recs, s.contents, ev, lba, data);
    forall x: nat ensures Overlay(t.recs, t.contents, x) == Overlay(s.recs, s.contents[lba := data], x) {
      assert Shown(t, x) == if x == lba then data else Shown(s, x);
    }
    LiveMoved(s.recs, s.contents[lba := data], ev + [Wrote(lba, data)], t.recs, t.contents);
  }

  method ExecuteRead(vol: Volume, lba: nat, ghost ev: seq<Event>, ghost base: nat) returns (e: Event)
    requires Explains(vol, ev, base) && vol.m.dev.v == vol.m.v
    modifies vol.Repr(), vol.m.dev.faults
    ensures Explains(vol, ev + [e], base) && old(vol.m.dev.trace) <= vol.m.dev.trace
    ensures LogExplained(vol.Recs(), base, ev) && (e.ReadBack? ==> e.data in Seen(ev, e.lba))
    ensures RepliesRead(vol.m.v, old(StateOf(vol)), lba, e, StateOf(vol))
  {
    hide LogExplained, LiveExplained, OnlySnaps, Honest, Content, Seen, RepliesRead;
    ghost var s := StateOf(vol);
    e := IssueRead(vol, lba);
    ghost var t := StateOf(vol);
    ReadFacts(vol.m.v, s, lba, e, t);
    ExplainSnaps(vol.m.v, s.recs, base, ev, t.recs);
    if !t.failed {
      forall x: nat ensures Overlay(t.recs, t.contents, x) == Overlay(s.recs, s.contents, x) {
        assert Shown(t, x) == Shown(s, x);
      }
      LiveMoved(s.recs, s.contents, ev, t.recs, t.contents);
    }
    if e.Denied? {
      ExplainDenied(t.recs, base, t.contents, ev, e.why);
    } else {
      assert Shown(t, lba) == Shown(s, lba);
      ExplainRead(t.recs, base, t.contents, ev, lba);
      LiveFacts(t.recs, t.contents, ev);
    }
  }

  method ExecuteFlush(vol: Volume, ghost ev: seq<Event>, ghost base: nat) returns (e: Event, ghost now: nat)
    requires Explains(vol, ev, base) && vol.m.dev.v == vol.m.v
    modifies vol.Repr(), vol.m.dev.faults
    ensures Explains(vol, ev + [e], now) && old(vol.m.dev.trace) <= vol.m.dev.trace
    ensures LogExplained(vol.Recs(), base, ev) && !e.ReadBack?
    ensures RepliesFlush(vol.m.v, old(StateOf(vol)), e, StateOf(vol))
  {
    hide LogExplained, LiveExplained, Mixed, Honest, Content, Seen, Kept, Unsettled, RepliesFlush;
    ghost var s := StateOf(vol);
    e := IssueFlush(vol);
    ghost var t := StateOf(vol);
    FlushFacts(vol.m.v, s, e, t);
    now := base;
    if !s.failed {
      LiveFacts(s.recs, s.contents, ev);
      ExplainMixed(vol.m.v, s.recs, base, s.contents, ev, t.recs);
    }
    if e.Denied? {
      ExplainDenied(t.recs, base, t.contents, ev, e.why);
    } else {
      now := |t.recs|;
      ExplainSettled(t.recs, ev, Flushed);
    }
  }

  method Execute(vol: Volume, c: Command, ghost ev: seq<Event>, ghost base: nat) returns (e: Event, ghost now: nat)
    requires Explains(vol, ev, base) && vol.m.dev.v == vol.m.v
    modifies vol.Repr(), vol.m.dev.faults
    ensures Explains(vol, ev + [e], now) && old(vol.m.dev.trace) <= vol.m.dev.trace
    ensures LogExplained(vol.Recs(), base, ev + Attempt(c)) && (e.ReadBack? ==> e.data in Seen(ev, e.lba))
    ensures Replies(vol.m.v, old(StateOf(vol)), c, e, StateOf(vol))
  {
    hide LogExplained, LiveExplained, Honest, Seen, RepliesWrite, RepliesRead, RepliesFlush;
    now := base;
    assert ev + [] == ev;
    match c {
      case Write(lba, data) => e := ExecuteWrite(vol, lba, data, ev, base);
      case Read(lba) => e := ExecuteRead(vol, lba, ev, base);
      case Flush => e, now := ExecuteFlush(vol, ev, base);
    }
  }

  // ---- losing the process ----

  /** The process is lost at one of the images the device held since image `from`. */
  method Lose(dev: Device, from: nat, at: nat, ghost base: nat, ghost ev: seq<Event>)
    returns (image: Image, ghost s: Crash)
    requires dev.Valid() && from < |dev.history| && base <= |dev.trace[from].recs| && LogExplained(dev.Recs(), base, ev)
    ensures s in dev.trace && image in dev.history[from..]
    ensures CrashOk(dev.v, s) && s.image == image && LogExplained(s.recs, base, ev)
    ensures dev.trace[from].recs <= s.recs <= dev.Recs()
  {
    hide LogExplained, CrashOk, Whole, Device.Paced;
    var k := from + at % (|dev.history| - from);
    image, s := dev.history[k], dev.trace[k];
    assert image == dev.history[from..][k - from];
    assert dev.trace[from].recs <= dev.trace[k].recs <= dev.trace[|dev.trace| - 1].recs;
    ExplainPrefix(dev.v, dev.Recs(), base, ev, s.recs);
    Recoverable(dev, k);
  }

  lemma Recoverable(dev: Device, k: nat)
    requires dev.Valid() && k < |dev.trace|
    ensures CrashOk(dev.v, dev.trace[k])
  {
  }

  lemma SnapsPrefix(a: seq<Rec>, b: seq<Rec>, c: seq<Rec>)
    requires OnlySnaps(a, c) && a <= b <= c
    ensures OnlySnaps(a, b)
  {
  }

  lemma SnapsTrans(a: seq<Rec>, b: seq<Rec>, c: seq<Rec>)
    requires OnlySnaps(a, b) && OnlySnaps(b, c)
    ensures OnlySnaps(a, c)
  {
  }

  /** A prefix of a log ends no later. */
  lemma TailPrefix(v: Vol, recs: seq<Rec>, more: seq<Rec>)
    requires v.Ok() && WellFormed(v, more) && recs <= more
    ensures Tail(v, recs) <= Tail(v, more)
  {
    BoundaryPrefix(v, recs, more);
    BoundaryGrows(v, more, |recs|, |more|);
  }

  lemma LogsWell(dev: Device)
    requires dev.Valid()
    ensures dev.v.Ok() && WellFormed(dev.v, dev.Recs())
  {
    assert CrashOk(dev.v, dev.Now());
    hide Survivor, PowerSafe;
  }

  /** One opening that is itself lost: it adds snapshots, at most one a page unless its device fails. */
  method LoseOpening(h: Hashes, options: Options, faultless: bool, start: Image, at: nat,
                     ghost v: Vol, ghost s: Crash, ghost ev: seq<Event>, ghost base: nat)
    returns (image: Image, ghost t: Crash, ghost faulted: bool)
    requires h == Hashes(v.sum, v.indexSum) && CrashOk(v, s) && s.image == start && LogExplained(s.recs, base, ev)
    ensures CrashOk(v, t) && t.image == image && LogExplained(t.recs, base, ev) && OnlySnaps(s.recs, t.recs)
    ensures faulted || Tail(v, t.recs) <= Tail(v, s.recs) + v.Pages()
    ensures faulted ==> !faultless
  {
    hide LogExplained, DiskInv, Volume.Operational, CrashOk, OnlySnaps, Opens, Content, Dirty, TouchedPages;
    var dev := new Device(start, faultless, v, s);
    var r := OpenVolume(h, dev, options, s.c);
    ExplainSnaps(v, s.recs, base, ev, dev.Recs());
    assert base <= |dev.trace[0].recs| by { LogBase(s.recs, base, ev); }
    image, t := Lose(dev, 0, at, base, ev);
    faulted := dev.Faulted();
    SnapsPrefix(s.recs, t.recs, dev.Recs());
    assert v.Ok() && WellFormed(v, dev.Recs()) by { LogsWell(dev); }
    TailPrefix(v, t.recs, dev.Recs());
    TouchedFew(v, s.recs, s.c.desc.lsn);
  }

  /**
    * Opens after a loss. Earlier attempts may themselves be lost at any block. Whatever they did, the volume that
    * opens shows exactly the content of the log that was left at first, and whether it opens is decided by the device
    * that the last attempt found.
    */
  method Reopen(h: Hashes, options: Options, faultless: bool, start: Image, tries: seq<nat>,
                ghost v: Vol, ghost struck: bool, ghost s0: Crash, ghost ev: seq<Event>, ghost base: nat)
    returns (r: Result<Volume>, ghost o: Opening)
    requires h == Hashes(v.sum, v.indexSum) && CrashOk(v, s0) && s0.image == start && LogExplained(s0.recs, base, ev)
    ensures o.lost == s0 && o.struck == struck && (o.faulted ==> !faultless)
    ensures Chained(v, |tries|, o) && Decided(v, options, o, r.Ok?)
    ensures r.Ok? ==> fresh(r.value.Repr()) && fresh(r.value.m.dev.faults)
    ensures r.Ok? ==> r.value.m.v == v && r.value.m.dev.faultless == faultless && r.value.m.dev.v == v
    ensures r.Ok? ==> Opened(v, o, StateOf(r.value)) && Explains(r.value, ev + [Lost], |r.value.Recs()|)
  {
    hide LogExplained, LiveExplained, DiskInv, Volume.Operational, CrashOk, OnlySnaps, Opens, Content, Opened, Decided;
    hide Vol.Pages;
    var image := start;
    ghost var s, faulted := s0, false;
    var k := 0;
    NoSnaps(s0.recs);
    while k < |tries|
      invariant k <= |tries| && CrashOk(v, s) && s.image == image && LogExplained(s.recs, base, ev)
      invariant OnlySnaps(s0.recs, s.recs) && (k == 0 ==> s == s0) && (faulted ==> !faultless)
      invariant faulted || Tail(v, s.recs) <= Tail(v, s0.recs) + k * v.Pages()
    {
      ghost var now, was := false, s;
      image, s, now := LoseOpening(h, options, faultless, image, tries[k], v, s, ev, base);
      SnapsTrans(s0.recs, was.recs, s.recs);
      faulted := faulted || now;
      assert (k + 1) * v.Pages() == k * v.Pages() + v.Pages();
      k := k + 1;
    }
    r, o := OpenLast(h, options, faultless, image, v, struck, s0, s, faulted, ev, base);
  }

  /** The attempt that is not cut off. */
  method OpenLast(h: Hashes, options: Options, faultless: bool, start: Image,
                  ghost v: Vol, ghost struck: bool, ghost s0: Crash, ghost s: Crash, ghost faulted: bool,
                  ghost ev: seq<Event>, ghost base: nat)
    returns (r: Result<Volume>, ghost o: Opening)
    requires h == Hashes(v.sum, v.indexSum) && CrashOk(v, s) && s.image == start && LogExplained(s.recs, base, ev)
    requires OnlySnaps(s0.recs, s.recs) && (faulted ==> !faultless)
    ensures o == Opening(struck, s0, s, o.faulted) && (faulted ==> o.faulted) && (o.faulted ==> !faultless)
    ensures Decided(v, options, o, r.Ok?)
    ensures r.Ok? ==> fresh(r.value.Repr()) && fresh(r.value.m.dev.faults)
    ensures r.Ok? ==> r.value.m.v == v && r.value.m.dev.faultless == faultless && r.value.m.dev.v == v
    ensures r.Ok? ==> Opened(v, o, StateOf(r.value)) && Explains(r.value, ev + [Lost], |r.value.Recs()|)
  {
    hide LogExplained, LiveExplained, DiskInv, Volume.Operational, CrashOk, Whole, OnlySnaps, Opens, Content, Opened,
         Promised, Device.Paced;
    var dev := new Device(start, faultless, v, s);
    r := OpenVolume(h, dev, options, s.c);
    o := Opening(struck, s0, s, faulted || dev.Faulted());
    if r.Ok? {
      OpenedAs(v, o, r.value);
      Restarted(r.value, v, s.recs, base, ev);
    }
  }

  lemma NothingBuffered(vol: Volume)
    requires vol.Operational() && vol.buffer.contents == map[]
    ensures vol.buffer.lbas == []
  {
    DistinctSize(vol.buffer.lbas);
    assert Elements(vol.buffer.lbas) == vol.buffer.contents.Keys;
  }

  /** Snapshots of an interrupted opening change nothing that the next one shows. */
  lemma OpenedAs(v: Vol, o: Opening, vol: Volume)
    requires vol.Operational() && !vol.failed && vol.buffer.contents == map[] && vol.m.v == v == vol.m.dev.v
    requires OnlySnaps(o.lost.recs, o.found.recs) && OnlySnaps(o.found.recs, vol.Recs())
    requires forall x: nat :: vol.Logical(x) == Content(o.found.recs, |o.found.recs|, x)
    requires vol.m.Committed() == Promised(v, o.found.recs, o.found.c)
    ensures Opened(v, o, StateOf(vol))
  {
    assert |o.lost.recs| <= |o.found.recs|;
    hide Content, OnlySnaps, Volume.Operational, Promised, Device.Intact, Device.Paced;
    NothingBuffered(vol);
    SnapsKeep(v, o.lost.recs, o.found.recs, |o.found.recs|);
    forall x: nat ensures Shown(StateOf(vol), x) == Content(o.lost.recs, |o.lost.recs|, x) {
      assert vol.Logical(x) == Shown(StateOf(vol), x);
    }
    CommittedIs(vol);
  }

  /** What a working volume has committed is what its log and root promise. */
  lemma CommittedIs(vol: Volume)
    requires vol.Operational() && vol.m.v == vol.m.dev.v
    ensures vol.m.Committed() == Promised(vol.m.v, StateOf(vol).recs, StateOf(vol).root)
  {
    hide UpToDate, Covered, Indexed, DiskInv, PagesOf, Records, TouchedPages, CrashOk;
  }

  lemma LogBase(recs: seq<Rec>, base: nat, ev: seq<Event>)
    requires LogExplained(recs, base, ev)
    ensures base <= |recs|
  {
  }

  lemma Restarted(vol: Volume, v: Vol, recs: seq<Rec>, base: nat, ev: seq<Event>)
    requires vol.Operational() && vol.buffer.contents == map[] && LogExplained(recs, base, ev)
    requires forall lba: nat :: vol.Logical(lba) == Content(recs, |recs|, lba)
    ensures LogExplained(vol.Recs(), |vol.Recs()|, ev + [Lost])
    ensures LiveExplained(vol.Recs(), vol.buffer.contents, ev + [Lost])
  {
    hide Content, Seen, Kept, Unsettled;
    forall lba: nat ensures Content(vol.Recs(), |vol.Recs()|, lba) in Kept(ev, lba) {
      assert vol.Logical(lba) == Content(recs, |recs|, lba);
    }
    hide LogExplained, LiveExplained;
    ExplainSettled(vol.Recs(), ev, Lost);
  }

  /** Whatever prefix of whole records a loss leaves, it is one that the command can leave. */
  lemma LeavesPrefix(v: Vol, s: State, c: Command, e: Event, t: State, o: Opening)
    requires Replies(v, s, c, e, t) && s.recs <= o.lost.recs <= t.recs && CrashOk(v, o.lost)
    requires o.struck == t.faulted && Sound(v, s) && Sound(v, t)
    ensures Leaves(v, s, c, o)
  {
    hide CrashOk, Mixed, Replies, Weight, OnlySnaps, Written, Unmoved, Fits, Tail;
    RepliesMixed(v, s, c, e, t);
    MixedPrefix(v, s.recs, t.recs, o.lost.recs, Pending(s.contents, c));
    TailPrefix(v, o.lost.recs, t.recs);
    RepliesWeight(v, s, c, e, t);
  }

  lemma RepliesMixed(v: Vol, s: State, c: Command, e: Event, t: State)
    requires Replies(v, s, c, e, t)
    ensures Mixed(s.recs, t.recs, Pending(s.contents, c))
  {
    hide Mixed, OnlySnaps, Weight, Written, Unmoved, Fits;
    MixedSelf(s.recs, Pending(s.contents, c));
    if c.Read? {
      NoSnaps(s.recs);
      MixedSnaps(v, s.recs, s.recs, t.recs, s.contents);
    }
  }

  lemma RepliesWeight(v: Vol, s: State, c: Command, e: Event, t: State)
    requires Replies(v, s, c, e, t) && (t.failed ==> t.faulted)
    ensures t.faulted || Tail(v, t.recs) <= Weight(v, s) + Extra(c)
  {
    hide Mixed, OnlySnaps, Written, Unmoved, Fits, PagesOf, Records, TouchedPages, Tail;
    assert Tail(v, t.recs) <= Weight(v, t);
    hide Weight;
  }

  lemma MixedPrefix(v: Vol, was: seq<Rec>, recs: seq<Rec>, found: seq<Rec>, contents: map<nat, nat>)
    requires Mixed(was, recs, contents) && was <= found <= recs
    ensures Mixed(was, found, contents)
  {
    hide Content;
    forall n: nat, lba: nat | n <= |found| ensures Content(found, n, lba) == Content(recs, n, lba) {
      EntStable(v, found, recs, n);
    }
  }

  /**
    * Issues a command, loses the process somewhere inside it, and opens again. The log that is left is a prefix of
    * whole records of the command's own log, and the volume that opens shows exactly its content.
    */
  method Interrupt(h: Hashes, options: Options, vol: Volume, c: Command, at: nat, tries: seq<nat>,
                   ghost ev: seq<Event>, ghost base: nat)
    returns (r: Result<Volume>, ghost o: Opening)
    requires Explains(vol, ev, base) && vol.m.dev.v == vol.m.v && h == Hashes(vol.m.v.sum, vol.m.v.indexSum)
    modifies vol.Repr(), vol.m.dev.faults
    ensures o.lost in vol.m.dev.trace
    ensures old(vol.Recs()) <= o.lost.recs <= vol.Recs() && Leaves(vol.m.v, old(StateOf(vol)), c, o)
    ensures Chained(vol.m.v, |tries|, o) && Decided(vol.m.v, options, o, r.Ok?) && Calm(vol.m.dev.faultless, o)
    ensures r.Ok? ==> fresh(r.value.Repr()) && fresh(r.value.m.dev.faults)
    ensures r.Ok? ==>
              r.value.m.v == vol.m.v && r.value.m.dev.v == vol.m.v && r.value.m.dev.faultless == vol.m.dev.faultless
    ensures r.Ok? ==>
              && Opened(vol.m.v, o, StateOf(r.value))
              && Explains(r.value, ev + Attempt(c) + [Lost], |r.value.Recs()|)
  {
    hide LogExplained, LiveExplained, DiskInv, Volume.Operational, CrashOk, Whole, OnlySnaps, Leaves, Chained, Decided,
         Opened, Device.Intact, Device.Paced;
    var image;
    ghost var lost, struck;
    image, lost, struck := LoseInside(vol, c, at, ev, base);
    r, o := Reopen(h, options, vol.m.dev.faultless, image, tries, vol.m.v, struck, lost, ev + Attempt(c), base);
    LeavesLost(vol.m.v, old(StateOf(vol)), c, lost, o);
  }

  lemma LeavesLost(v: Vol, s: State, c: Command, lost: Crash, o: Opening)
    requires Leaves(v, s, c, Opening(o.struck, lost, lost, false)) && o.lost == lost
    ensures Leaves(v, s, c, o)
  {
  }

  /** Issues a command and loses the process somewhere inside it. */
  method LoseInside(vol: Volume, c: Command, at: nat, ghost ev: seq<Event>, ghost base: nat)
    returns (image: Image, ghost lost: Crash, ghost struck: bool)
    requires Explains(vol, ev, base) && vol.m.dev.v == vol.m.v
    modifies vol.Repr(), vol.m.dev.faults
    ensures lost in vol.m.dev.trace && CrashOk(vol.m.v, lost) && lost.image == image && struck == vol.m.dev.Faulted()
    ensures old(vol.Recs()) <= lost.recs <= vol.Recs() && LogExplained(lost.recs, base, ev + Attempt(c))
    ensures Leaves(vol.m.v, old(StateOf(vol)), c, Opening(struck, lost, lost, false))
  {
    hide LogExplained, LiveExplained, DiskInv, Volume.Operational, CrashOk, Whole, OnlySnaps, Replies, Leaves, Sound;
    var from := |vol.m.dev.history| - 1;
    assert base <= |vol.Recs()| by { LogBase(vol.Recs(), base, ev); }
    StateSound(vol);
    ghost var before, s := vol.m.dev.trace, StateOf(vol);
    var e;
    ghost var now;
    e, now := Execute(vol, c, ev, base);
    assert vol.m.dev.trace[from] == before[from];
    image, lost := Lose(vol.m.dev, from, at, base, ev + Attempt(c));
    StateSound(vol);
    struck := vol.m.dev.Faulted();
    LeavesPrefix(vol.m.v, s, c, e, StateOf(vol), Opening(struck, lost, lost, false));
  }

  // ---- whole scripts ----

  /**
    * The first `done` steps told, with every read allowed by the contract. The rest did not run only because the next
    * step's opening was refused.
    */
  ghost predicate Story(v: Vol, options: Options, faultless: bool, script: seq<Step>, events: seq<Event>, done: nat,
                        states: seq<State>, last: Opening)
  {
    && Consistent(events) && done <= |script| && |states| == done + 1
    && Tells(v, options, faultless, script[..done], events, states)
    && (done < |script| ==> Stuck(v, options, states[done], script[done], last) && Calm(faultless, last))
  }

  /**
    * Every run from a fresh format, with the process lost at any block of any command and of any reopening. Each
    * step is told with its cause and effect, and all reads obey the contract. A run ends early only at an opening
    * that is refused, and that happens only on a failed device or where `Opens` does not hold. A script that the log
    * has room for, reckoned from the script alone, is served to the end on devices that do not fail. The disk at the
    * end is the last state's: it holds that state's log and loads its root.
    */
  method RunScript(v: Vol, blank: Image, script: seq<Step>, options: Options, faultless: bool)
    returns (events: seq<Event>, done: nat, ready: bool, disk: Image, ghost states: seq<State>, ghost last: Opening)
    requires v.Ok() && |blank| == v.backing && forall a :: v.LogStart() <= a < |blank| ==> !Current(v, blank[a])
    ensures Consistent(events) && done <= |script| && (faultless ==> (ready <==> Usable(v, options)))
    ensures faultless && Usable(v, options) && Budget(v, script) < v.backing ==>
              done == |script| && Served(v, script, events)
    ensures if ready then Story(v, options, faultless, script, events, done, states, last)
            else events == [] && done == 0
    ensures ready && done == |script| ==> disk == states[done].disk
    ensures if ready then Usable(v, options) else last.faulted || !Usable(v, options)
  {
    assert Consistent([]) by { NoEvents(); }
    assert Consistent([Lost]) by { OnlyLost(); }
    hide Seen, Explains, Consistent, Usable, Blank, Story, Current, Served, Budget;
    events, done, ready, disk, states := [], 0, false, [], [];
    var r;
    r, last := FirstOpen(v, blank, options, faultless);
    if r.Err? { return; }
    ready := true;
    var h := Hashes(v.sum, v.indexSum);
    events, done, disk, states, last := RunSteps(h, options, r.value, script, |r.value.Recs()|, last);
    if faultless && Usable(v, options) { StoryServes(v, options, script, events, done, states, last); }
    StoryShape(v, options, faultless, script, events, done, states, last);
  }

  lemma StoryShape(v: Vol, options: Options, faultless: bool, script: seq<Step>, events: seq<Event>, done: nat,
                   states: seq<State>, last: Opening)
    requires Story(v, options, faultless, script, events, done, states, last)
    ensures Consistent(events) && done <= |script|
  {
  }

  /** With enough log for the whole script the story is complete and every step served. */
  lemma StoryServes(v: Vol, options: Options, script: seq<Step>, events: seq<Event>, done: nat,
                    states: seq<State>, last: Opening)
    requires Story(v, options, true, script, events, done, states, last) && Usable(v, options)
    ensures Budget(v, script) < v.backing ==> done == |script| && Served(v, script, events)
  {
    hide Consistent, Tells, Stuck, Weight, Sound, Served, Cost, Usable;
    if Budget(v, script) < v.backing {
      BudgetGrows(v, script, done);
      BudgetServes(v, options, script[..done], events, states);
      if done < |script| { NeverStuck(v, options, states[done], script[done], last); }
      assert script[..|script|] == script;
    }
  }

  lemma NoEvents()
    ensures Consistent([])
  {
  }

  lemma OnlyLost()
    ensures Consistent([Lost])
  {
  }

  /** Formats a backing file and opens it. */
  method FirstOpen(v: Vol, blank: Image, options: Options, faultless: bool)
    returns (r: Result<Volume>, ghost o: Opening)
    requires v.Ok() && |blank| == v.backing && forall a :: v.LogStart() <= a < |blank| ==> !Current(v, blank[a])
    ensures Calm(faultless, o)
    ensures r.Ok? ==> fresh(r.value.Repr()) && fresh(r.value.m.dev.faults) && r.value.m.v == v == r.value.m.dev.v
    ensures r.Ok? ==> r.value.m.dev.faultless == faultless
    ensures r.Ok? ==> Explains(r.value, [Lost], |r.value.Recs()|) && Blank(v, StateOf(r.value))
    ensures if r.Ok? then Usable(v, options) else o.faulted || !Usable(v, options)
  {
    hide LogExplained, LiveExplained, DiskInv, EmptyRoot, Opens, Usable, CrashOk, Opened, Blank, Sound;
    var image := FormatImage(v, blank);
    Fresh();
    FreshOpens(v, options);
    FreshCrash(v, image);
    assert [] + [Lost] == [Lost];
    r, o := Reopen(Hashes(v.sum, v.indexSum), options, faultless, image, [], v, false,
                   Resting(image, [], EmptyRoot(v, 0)), [], 0);
    if r.Ok? {
      StateSound(r.value);
      FreshBlank(v, o, StateOf(r.value));
    }
  }

  lemma FreshCrash(v: Vol, image: Image)
    requires v.Ok() && DiskInv(v, image, [], EmptyRoot(v, 0))
    ensures CrashOk(v, Resting(image, [], EmptyRoot(v, 0)))
  {
    SyncPower(v, image, [], EmptyRoot(v, 0));
  }

  /** A fresh log needs nothing replayed. */
  lemma FreshOpens(v: Vol, options: Options)
    requires v.Ok()
    ensures Opens(v, [], EmptyRoot(v, 0), options) <==> Usable(v, options)
  {
    hide CapacityOk, ClampBuffer;
    TouchedPagesStart(v, [], 0);
  }

  lemma FreshBlank(v: Vol, o: Opening, t: State)
    requires v.Ok() && Sound(v, t) && Opened(v, o, t) && o.lost == o.found && o.found.recs == []
    requires o.found.c == EmptyRoot(v, 0)
    ensures Blank(v, t)
  {
    TouchedPagesStart(v, [], 0);
    LightBuffer(v, t);
    BoundaryGrows(v, t.recs, 0, |t.recs|);
    forall x: nat ensures Content([], 0, x) == 0 {}
  }

  lemma Fresh()
    ensures LogExplained([], 0, [])
  {
  }

  method RunSteps(h: Hashes, options: Options, start: Volume, script: seq<Step>, ghost base0: nat, ghost first: Opening)
    returns (events: seq<Event>, done: nat, disk: Image, ghost states: seq<State>, ghost last: Opening)
    requires Explains(start, [Lost], base0) && start.m.dev.v == start.m.v
    requires h == Hashes(start.m.v.sum, start.m.v.indexSum)
    requires Consistent([Lost]) && Blank(start.m.v, StateOf(start)) && Calm(start.m.dev.faultless, first)
    modifies start.Repr(), start.m.dev.faults
    ensures Story(start.m.v, options, start.m.dev.faultless, script, events, done, states, last)
    ensures done == |script| ==> disk == states[done].disk
  {
    hide LogExplained, LiveExplained, DiskInv, Seen, Kept, Explains, Consistent, Tells, Stuck, StepTold, Blank, Calm;
    var vol := start;
    events := [Lost];
    ghost var base := base0;
    done, disk := 0, vol.m.dev.image;
    states, last := [StateOf(start)], first;
    NothingTold(start.m.v, options, start.m.dev.faultless, script, StateOf(start));
    while done < |script|
      invariant done <= |script| && (vol == start || (fresh(vol.Repr()) && fresh(vol.m.dev.faults)))
      invariant vol.m.v == start.m.v == vol.m.dev.v && vol.m.dev.faultless == start.m.dev.faultless
      invariant |states| == done + 1 && states[done] == StateOf(vol) && disk == vol.m.dev.image
      invariant Explains(vol, events, base) && Consistent(events)
      invariant Tells(start.m.v, options, start.m.dev.faultless, script[..done], events, states)
    {
      var next, tail;
      next, tail, base, last := RunStep(h, options, vol, script[done], events, base, last);
      if next.Err? { return; }
      TellsStep(start.m.v, options, start.m.dev.faultless, script, done, events, states, tail, StateOf(next.value));
      events := events + tail;
      states := states + [StateOf(next.value)];
      vol := next.value;
      disk := vol.m.dev.image;
      done := done + 1;
    }
  }

  lemma NothingTold(v: Vol, options: Options, faultless: bool, script: seq<Step>, t: State)
    requires Blank(v, t)
    ensures Tells(v, options, faultless, script[..0], [Lost], [t])
  {
  }

  /** One step of a script. An interrupted step goes on with a newly opened volume. */
  method RunStep(h: Hashes, options: Options, vol: Volume, step: Step, before: seq<Event>, ghost base0: nat,
                 ghost previous: Opening)
    returns (r: Result<Volume>, tail: seq<Event>, ghost base: nat, ghost last: Opening)
    requires Explains(vol, before, base0) && vol.m.dev.v == vol.m.v && h == Hashes(vol.m.v.sum, vol.m.v.indexSum)
    requires Consistent(before)
    modifies vol.Repr(), vol.m.dev.faults
    ensures r.Err? ==> Stuck(vol.m.v, options, old(StateOf(vol)), step, last) && Calm(vol.m.dev.faultless, last)
    ensures r.Ok? ==> Consistent(before + tail) && Explains(r.value, before + tail, base)
    ensures r.Ok? ==> r.value == vol || (fresh(r.value.Repr()) && fresh(r.value.m.dev.faults))
    ensures r.Ok? ==> r.value.m.v == vol.m.v == r.value.m.dev.v && r.value.m.dev.faultless == vol.m.dev.faultless
    ensures r.Ok? ==> StepTold(vol.m.v, options, vol.m.dev.faultless, step, old(StateOf(vol)), tail, StateOf(r.value))
  {
    hide LogExplained, LiveExplained, Seen, Kept, Honest, Consistent, Attempt, Replies, Leaves, Chained, Opened,
         Decided;
    hide Sound, DiskInv, Calm;
    last := previous;
    if step.Run? {
      var e;
      e, base := Execute(vol, step.c, before, base0);
      ConsistentSnoc(before, e);
      StateSound(vol);
      return Ok(vol), [e], base, last;
    }
    tail, base := Attempt(step.c) + [Lost], base0;
    ghost var s := StateOf(vol);
    r, last := Interrupt(h, options, vol, step.c, step.at, step.tries, before, base0);
    if r.Err? { return; }
    assert Restarts(vol.m.v, options, vol.m.dev.faultless, s, step.c, |step.tries|, last, StateOf(r.value));
    ConsistentAttempt(before, step.c);
    ConsistentSnoc(before + Attempt(step.c), Lost);
    assert before + tail == before + Attempt(step.c) + [Lost];
    base := |r.value.Recs()|;
    StateSound(r.value);
  }
}
