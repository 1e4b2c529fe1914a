/** Why a correct target is never accused: its durable and visible contents stay acceptable at every step. */
module Agreement {
  import opened Oracle

  function CrashOf(m: Summary, c: Content): Verdict { CrashVerdict(m.s, c, c.Version? && c.v in m.rejected) }

  function LiveOf(m: Summary, c: Content): Verdict { LiveVerdict(m.s, c, c.Version? && c.v in m.rejected) }

  /** Durable and visible contents that neither a live read nor recovery can accuse. */
  predicate Agree(m: Summary, stored: Content, visible: Content) {
    LiveOf(m, visible) == Fine && CrashOf(m, stored) == Fine && CrashOf(m, visible) == Fine
  }

  /** The order of the counters, and that no acknowledged or uncertain payload is rejected. */
  predicate Sane(m: Summary) {
    && m.s.lastZero <= m.s.latest <= m.s.issued && m.s.durable <= m.s.latest
    && m.s.uncertainWrite <= m.s.issued && m.s.uncertainZero <= m.s.issued
    && 0 !in m.rejected && m.s.latest !in m.rejected && m.s.uncertainWrite !in m.rejected
    && (m.s.uncertainWrite != 0 ==> m.s.uncertainWrite != m.s.latest && m.s.uncertainWrite != m.s.durable)
    && (m.s.durableIsPayload ==> m.s.durable !in m.rejected)
    && (m.s.durable == m.s.latest ==> m.s.durableIsPayload == (m.s.latest != m.s.lastZero))
    && forall v :: v in m.rejected ==> v <= m.s.issued
  }

  /** A second uncertain request of one kind is outside what the checker tracks. */
  predicate Trackable(m: Summary, e: Event) {
    e.Request? && e.outcome == Unknown ==> UncertainOf(m.s, e.zero) == 0
  }

  lemma SaneStep(m: Summary, e: Event)
    requires Sane(m) && Trackable(m, e)
    ensures Sane(Update(m, e))
  {
    match e
    case Flush =>
    case Recovery =>
    case Request(zero, outcome) =>
      match outcome
      case Acked =>
      case Refused =>
      case Unknown =>
  }

  lemma {:induction false} SaneHistory(h: seq<Event>)
    requires WithinLimits(h)
    ensures Sane(Summarize(h))
  {
    if h != [] {
      SaneHistory(h[..|h| - 1]);
      SaneStep(Summarize(h[..|h| - 1]), h[|h| - 1]);
    }
  }

  /** A request that lands shows its own content. */
  lemma LandedAgrees(m: Summary, zero: bool, outcome: Outcome, stored: Content, visible: Content)
    requires Sane(m) && Agree(m, stored, visible) && outcome != Refused && Trackable(m, Request(zero, outcome))
    ensures Agree(Update(m, Request(zero, outcome)), stored, ContentOf(zero, m.s.issued + 1))
  {
  }

  /** A request that does not land, refused or failed, changes nothing. */
  lemma DroppedAgrees(m: Summary, zero: bool, outcome: Outcome, stored: Content, visible: Content)
    requires Sane(m) && Agree(m, stored, visible) && outcome != Acked && Trackable(m, Request(zero, outcome))
    ensures Agree(Update(m, Request(zero, outcome)), stored, visible)
  {
  }

  /** A flush makes whatever was visible durable, and recovery must then accept it. */
  lemma FlushAgrees(m: Summary, visible: Content)
    requires Sane(m) && LiveOf(m, visible) == Fine
    ensures Agree(Update(m, Flush), visible, visible)
  {
  }

  /** A repaired block shows what the checker expects. */
  lemma RepairedExpected(m: Summary)
    requires Sane(m)
    ensures var zero := m.s.Expected() == Zero;
            var after := Update(m, Request(zero, Acked));
            after.s.Expected() == ContentOf(zero, m.s.issued + 1)
  {
  }

  lemma FlushedExpected(m: Summary)
    ensures Update(m, Flush).s.Expected() == m.s.Expected()
  {
  }
}
