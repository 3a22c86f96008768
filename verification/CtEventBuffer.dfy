/** The buffer between the netlink reader and the accounting tick (ct_events.go). */
module CtEventBuffer {
  import opened ConnAccounting

  const MAX_BUFFERED := 65536

  class CtEvents {
    var buf: seq<Event>
    var active: bool
    var lost: bool
    var received: nat
    var lostN: nat
    /** Events handed out so far, and those thrown away when the subscription ended. */
    ghost var drained: nat
    ghost var discarded: nat
    /** Losses reported by the socket: these events never reached `received`. */
    ghost var overrun: nat

    /** Every event received is drained, buffered, discarded with the subscription, or lost. */
    ghost predicate Valid()
      reads this
    {
      && |buf| <= MAX_BUFFERED
      && received + overrun == drained + |buf| + discarded + lostN
    }

    constructor ()
      ensures Valid() && buf == [] && !active && !lost && received == lostN == 0
    {
      buf, active, lost, received, lostN := [], false, false, 0, 0;
      drained, discarded, overrun := 0, 0, 0;
    }

    /** Nothing received disappears silently: an event is buffered, or `lost` says so. */
    method Push(ev: Event)
      requires Valid()
      modifies this
      ensures Valid() && received == old(received) + 1 && active == old(active)
      ensures drained == old(drained) && discarded == old(discarded) && overrun == old(overrun)
      ensures if old(|buf|) < MAX_BUFFERED then buf == old(buf) + [ev] && lost == old(lost) && lostN == old(lostN)
              else buf == old(buf) && lost && lostN == old(lostN) + 1
    {
      received := received + 1;
      if |buf| >= MAX_BUFFERED {
        lost := true;
        lostN := lostN + 1;
      } else {
        buf := buf + [ev];
      }
    }

    method Overrun()
      requires Valid()
      modifies this
      ensures Valid() && lost && lostN == old(lostN) + 1 && overrun == old(overrun) + 1
      ensures buf == old(buf) && received == old(received) && active == old(active)
    {
      lost := true;
      lostN := lostN + 1;
      overrun := overrun + 1;
    }

    method Drain() returns (evs: seq<Event>, online: bool, wasLost: bool)
      requires Valid()
      modifies this
      ensures Valid() && evs == old(buf) && buf == [] && online == active == old(active)
      ensures wasLost == old(lost) && !lost && received == old(received) && lostN == old(lostN)
      ensures drained == old(drained) + |evs| && discarded == old(discarded)
    {
      evs := buf;
      drained := drained + |buf|;
      buf := [];
      wasLost := lost;
      lost := false;
      online := active;
    }

    /** Ending the subscription drops the buffer without raising `lost`. */
    method SetActive(a: bool)
      requires Valid()
      modifies this
      ensures Valid() && active == a && lost == old(lost) && received == old(received) && lostN == old(lostN)
      ensures buf == if a then old(buf) else []
      ensures discarded == old(discarded) + (if a then 0 else old(|buf|)) && drained == old(drained)
    {
      active := a;
      if !a {
        discarded := discarded + |buf|;
        buf := [];
      }
    }
  }
}
