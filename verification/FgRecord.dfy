/** What the timeline says: how long each session lasts, and what is recorded of the application shown. */
module FgRecord {
  import opened Common
  import opened FgTimeline
  import opened FgRuns

  function Last(l: seq<Session>): Session
    requires l != []
  {
    l[|l| - 1]
  }

  /** The last session goes on until a second at least; the others are untouched. */
  predicate GoesOn(l: seq<Session>, u: int, r: seq<Session>) {
    if l == [] then r == [] else
      |r| == |l| && r[..|l| - 1] == l[..|l| - 1] && Last(r) == Session(Last(l).app, Last(l).start, Max(Last(l).end, u))
  }

  lemma ExtendedIs(l: seq<Session>, u: int)
    ensures GoesOn(l, u, Extended(l, u))
  {
  }

  /** Midnight is the start of the local day in which a time lies. */
  lemma MidnightIs(t: int, offset: int)
    ensures var mid := Midnight(t, offset);
      mid <= t / 1_000_000_000 < mid + 86400 && (mid + offset) % 86400 == 0
  {
    var x := t / 1_000_000_000 + offset;
    assert x == 86400 * (x / 86400) + x % 86400;
    assert (x / 86400 * 86400) % 86400 == 0;
  }

  // ----- One decision -----

  /** An open session is the last one of its device, and that of the application shown. */
  predicate OpenOK(d: Day, dev: Dev, mac: Mac) {
    dev.open ==> dev.shown != "" && ListOf(d, mac) != [] && Last(ListOf(d, mac)).app == dev.shown
  }

  /** A session of an application from a second on is added to a list: it begins there, but not before
      midnight nor within the last session; the same application within two minutes goes on in the
      last one; a list of 600 loses one. */
  predicate Begins(l: seq<Session>, app: string, from: int, mid: int, u: int, r: seq<Session>) {
    var at := if l == [] then Max(from, mid) else Max(Max(from, mid), Last(l).end);
    && r != [] && Last(r).app == app
    && (l != [] && Last(l).app == app && at - Last(l).end <= 120 ==> GoesOn(l, u, r))
    && (!(l != [] && Last(l).app == app && at - Last(l).end <= 120) ==>
        && Last(r).start == at && Last(r).end == Max(at, u)
        && (|l| < 600 ==> r[..|r| - 1] == l) && (|l| >= 600 ==> r[..|r| - 1] == DropShortest(l)))
  }

  lemma OpenedIs(l: seq<Session>, app: string, from: int, mid: int, u: int)
    ensures Begins(l, app, from, mid, u, Extended(Opened(l, app, from, mid), u))
  {
    var at := StartAt(l, from, mid);
    var o := Opened(l, app, from, mid);
    ExtendedIs(o, u);
    if !Merges(l, app, at) {
      var base := if |l| >= MAX_SESSIONS then DropShortest(l) else l;
      assert o == base + [Session(app, at, at)];
      assert o[..|o| - 1] == base;
      hide DropShortest;
    }
  }

  /** A decision touches the list of its own device only. */
  lemma OthersKeep(d: Day, dev: Dev, c: Decision, now: int, offset: int, mac: Mac)
    requires mac != c.mac
    ensures ListOf(Decided(d, dev, c, now, offset).0, mac) == ListOf(d, mac)
  {
    hide Extended, Opened, Unix, Midnight;
  }

  lemma SwitchedSame(d: Day, dev: Dev, c: Decision, now: int, offset: int)
    requires c.shown == dev.shown
    ensures Switched(d, dev, c, now, offset) == (d, dev)
  {
  }

  /** The same application stays shown: if its session is open it goes on until it was last active. */
  lemma SameShown(d: Day, dev: Dev, c: Decision, now: int, offset: int)
    requires OpenOK(d, dev, c.mac) && c.shown == dev.shown
    ensures var r, u := Decided(d, dev, c, now, offset), Unix(c.active.GetOr(now));
      && OpenOK(r.0, r.1, c.mac) && r.1 == dev.(active := c.active) && r.0.date == d.date
      && (dev.open ==> GoesOn(ListOf(d, c.mac), u, ListOf(r.0, c.mac)))
      && (!dev.open ==> ListOf(r.0, c.mac) == ListOf(d, c.mac))
  {
    hide Unix, Extended, Switched;
    SwitchedSame(d, dev, c, now, offset);
    ExtendedIs(ListOf(d, c.mac), Unix(c.active.GetOr(now)));
  }

  /** Another application, or none, is shown: the open session goes on until its application was last
      active, and one begins for the new application, if there is room. */
  lemma OtherShown(d: Day, dev: Dev, c: Decision, now: int, offset: int) returns (l: seq<Session>)
    requires OpenOK(d, dev, c.mac) && c.shown != dev.shown
    ensures dev.open ==> GoesOn(ListOf(d, c.mac), Unix(c.prevActive.GetOr(now)), l)
    ensures !dev.open ==> l == ListOf(d, c.mac)
    ensures var r, u := Decided(d, dev, c, now, offset), Unix(c.active.GetOr(now));
      && OpenOK(r.0, r.1, c.mac) && r.1.shown == c.shown && r.1.active == c.active && r.0.date == d.date
      && (r.1.open <==> c.shown != "" && HasRoom(d, c.mac))
      && (r.1.open ==>
          Begins(l, c.shown, Unix(Min(c.since.GetOr(now), now)), Midnight(now, offset), u, ListOf(r.0, c.mac)))
      && (!r.1.open ==> ListOf(r.0, c.mac) == l)
  {
    hide Unix, Midnight, Extended, Opened, GoesOn, Begins, HasRoom;
    var u, end := Unix(c.active.GetOr(now)), Unix(c.prevActive.GetOr(now));
    var d1 := if dev.shown != "" then CloseOne(d, dev, c.mac, c.prevActive.GetOr(now)) else d;
    l := ListOf(d1, c.mac);
    ExtendedIs(ListOf(d, c.mac), end);
    ClosedRoom(d, dev, c.mac, c.prevActive.GetOr(now));
    if c.shown != "" && HasRoom(d, c.mac) {
      var start := Min(c.since.GetOr(now), now);
      OpenedIs(l, c.shown, Unix(start), Midnight(now, offset), u);
      BeginsSome(l, c.shown, Unix(start), Midnight(now, offset), u);
    }
  }

  lemma BeginsSome(l: seq<Session>, app: string, from: int, mid: int, u: int)
    ensures var o := Opened(l, app, from, mid); o != [] && Extended(o, u) != [] && Last(Extended(o, u)).app == app
  {
    OpenedIs(l, app, from, mid, u);
  }

  lemma ClosedRoom(d: Day, dev: Dev, mac: Mac, end: int)
    ensures var r := CloseOne(d, dev, mac, end);
      && (HasRoom(r, mac) <==> HasRoom(d, mac)) && r.date == d.date
      && ListOf(r, mac) == if dev.open then Extended(ListOf(d, mac), Unix(end)) else ListOf(d, mac)
  {
    hide Unix;
  }

  // ----- A tick -----

  predicate AllOpenOK(s: State) {
    if s.day.None? then s.devs == map[] else forall mac <- s.devs :: OpenOK(s.day.value, s.devs[mac], mac)
  }

  /** No device is decided on twice in a tick. */
  predicate OncePerDevice(cs: seq<Decision>) { forall i, j :: 0 <= i < j < |cs| ==> cs[i].mac != cs[j].mac }

  lemma {:induction false} Untouched(s: State, cs: seq<Decision>, now: int, offset: int, mac: Mac)
    requires s.day.Some? && forall c <- cs :: c.mac != mac
    ensures var e := DecidedAll(s, cs, now, offset);
      && e.day.Some? && e.day.value.date == s.day.value.date && e.last == s.last
      && ListOf(e.day.value, mac) == ListOf(s.day.value, mac)
      && (mac in e.devs <==> mac in s.devs) && (mac in s.devs ==> e.devs[mac] == s.devs[mac])
    decreases |cs|
  {
    hide Decided, ListOf;
    if cs != [] {
      var c := cs[0];
      var r := Decided(s.day.value, DevOf(s.devs, c.mac), c, now, offset);
      OthersKeep(s.day.value, DevOf(s.devs, c.mac), c, now, offset, mac);
      DateKept(s.day.value, DevOf(s.devs, c.mac), c, now, offset);
      Untouched(s.(day := Some(r.0), devs := s.devs[c.mac := r.1]), cs[1..], now, offset, mac);
    }
  }

  lemma DateKept(d: Day, dev: Dev, c: Decision, now: int, offset: int)
    ensures Decided(d, dev, c, now, offset).0.date == d.date
  {
    hide Extended, Opened, Unix, Midnight;
  }

  /** Whether there is room for the list of a device at its turn, the `k`-th: if it has one already; else
      if the day has fewer than 128, of which at most `k` came in this tick. */
  predicate RoomFor(before: Day, d: Day, mac: Mac, k: nat) {
    && (mac in before.lists ==> HasRoom(d, mac))
    && (mac !in before.lists && |before.lists| >= 128 ==> !HasRoom(d, mac))
    && (|before.lists| + k < 128 ==> HasRoom(d, mac))
  }

  /** A device's decision meets its own list and state as they were before the tick's decisions, and
      nobody touches them afterwards. */
  lemma {:induction false} ReachDecision(s: State, cs: seq<Decision>, now: int, offset: int, k: nat) returns (d: Day)
    requires s.day.Some? && OncePerDevice(cs) && k < |cs|
    ensures d.date == s.day.value.date && ListOf(d, cs[k].mac) == ListOf(s.day.value, cs[k].mac)
    ensures RoomFor(s.day.value, d, cs[k].mac, k)
    ensures var e, r := DecidedAll(s, cs, now, offset), Decided(d, DevOf(s.devs, cs[k].mac), cs[k], now, offset);
      && e.day.Some? && e.day.value.date == d.date && e.last == s.last
      && ListOf(e.day.value, cs[k].mac) == ListOf(r.0, cs[k].mac)
      && cs[k].mac in e.devs && e.devs[cs[k].mac] == r.1
    decreases |cs|
  {
    hide Decided, ListOf, HasRoom, RoomFor;
    var c := cs[0];
    var r := Decided(s.day.value, DevOf(s.devs, c.mac), c, now, offset);
    var s2 := s.(day := Some(r.0), devs := s.devs[c.mac := r.1]);
    DateKept(s.day.value, DevOf(s.devs, c.mac), c, now, offset);
    if k == 0 {
      d := s.day.value;
      OwnRoom(d, c.mac);
      forall x <- cs[1..] ensures x.mac != c.mac {
        var j :| 0 <= j < |cs| - 1 && cs[1..][j] == x;
        assert cs[j + 1] == x;
      }
      Untouched(s2, cs[1..], now, offset, c.mac);
    } else {
      assert cs[1..][k - 1] == cs[k] && cs[0].mac != cs[k].mac;
      assert OncePerDevice(cs[1..]) by { assert forall i :: 0 <= i < |cs| - 1 ==> cs[1..][i] == cs[i + 1]; }
      OthersKeep(s.day.value, DevOf(s.devs, c.mac), c, now, offset, cs[k].mac);
      d := ReachDecision(s2, cs[1..], now, offset, k - 1);
      OthersListed(s.day.value, DevOf(s.devs, c.mac), c, now, offset, cs[k].mac);
      RoomBefore(s.day.value, r.0, d, cs[k].mac, k);
    }
  }

  lemma OwnRoom(d: Day, mac: Mac)
    ensures RoomFor(d, d, mac, 0)
  {
  }

  lemma RoomBefore(before: Day, next: Day, d: Day, mac: Mac, k: nat)
    requires k > 0 && RoomFor(next, d, mac, k - 1) && (mac in before.lists <==> mac in next.lists)
    requires |before.lists| <= |next.lists| <= |before.lists| + 1
    ensures RoomFor(before, d, mac, k)
  {
  }

  lemma OthersListed(d: Day, dev: Dev, c: Decision, now: int, offset: int, mac: Mac)
    requires mac != c.mac
    ensures var r := Decided(d, dev, c, now, offset).0;
      (mac in d.lists <==> mac in r.lists) && |d.lists| <= |r.lists| <= |d.lists| + 1
  {
    hide Extended, Opened, Unix, Midnight, ListOf;
    var r := Decided(d, dev, c, now, offset).0;
    assert r.lists.Keys == d.lists.Keys || r.lists.Keys == d.lists.Keys + {c.mac};
    assert |r.lists| == |r.lists.Keys| && |d.lists| == |d.lists.Keys|;
  }

  lemma RolledOpenOK(s: State, now: int, offset: int)
    requires AllOpenOK(s)
    ensures var r := Rolled(s, now, offset); AllOpenOK(r) && r.day.Some? && r.day.value.date == Midnight(now, offset)
  {
    hide Midnight;
    var mid := Midnight(now, offset);
    if s.day.Some? && s.day.value.date != mid {
      var d, r := s.day.value, Rolled(s, now, offset);
      forall mac <- r.devs ensures OpenOK(r.day.value, r.devs[mac], mac) {
        if r.devs[mac].open {
          assert InUse(d, s.devs, mac, mid) && mac in d.lists;
        }
      }
    }
  }

  lemma ClockedOpenOK(s: State, now: int)
    requires AllOpenOK(s)
    ensures AllOpenOK(Clocked(s, now)) && Clocked(s, now).last == Some(now)
  {
    hide ClosedAll;
  }

  /** Where a tick starts its decisions from. */
  function Settled(s: State, now: int, offset: int): State { Rolled(Clocked(s, now), now, offset) }

  lemma SettledOpenOK(s: State, now: int, offset: int)
    requires AllOpenOK(s)
    ensures var r := Settled(s, now, offset);
      AllOpenOK(r) && r.day.Some? && r.day.value.date == Midnight(now, offset) && r.last == Some(now)
  {
    hide Clocked, Midnight, AllOpenOK;
    ClockedOpenOK(s, now);
    RolledOpenOK(Clocked(s, now), now, offset);
  }

  lemma DecisionOpenOK(d: Day, dev: Dev, c: Decision, now: int, offset: int)
    requires OpenOK(d, dev, c.mac)
    ensures var r := Decided(d, dev, c, now, offset); OpenOK(r.0, r.1, c.mac) && r.1.shown == c.shown
  {
    hide Decided, OpenOK, GoesOn, Begins;
    if c.shown == dev.shown {
      SameShown(d, dev, c, now, offset);
    } else {
      var l := OtherShown(d, dev, c, now, offset);
    }
  }

  lemma OpenOKFromList(d: Day, e: Day, dev: Dev, mac: Mac)
    requires ListOf(d, mac) == ListOf(e, mac)
    ensures OpenOK(d, dev, mac) <==> OpenOK(e, dev, mac)
  {
  }

  lemma {:induction false} DecidedAllOpenOK(s: State, cs: seq<Decision>, now: int, offset: int)
    requires s.day.Some? && AllOpenOK(s)
    ensures AllOpenOK(DecidedAll(s, cs, now, offset)) && DecidedAll(s, cs, now, offset).day.Some?
    decreases |cs|
  {
    hide Decided, OpenOK;
    if cs != [] {
      var c, d := cs[0], s.day.value;
      var r := Decided(d, DevOf(s.devs, c.mac), c, now, offset);
      ClosedDevOK(d, c.mac);
      DecisionOpenOK(d, DevOf(s.devs, c.mac), c, now, offset);
      var s2 := s.(day := Some(r.0), devs := s.devs[c.mac := r.1]);
      forall mac <- s2.devs ensures OpenOK(r.0, s2.devs[mac], mac) {
        if mac != c.mac {
          OthersKeep(d, DevOf(s.devs, c.mac), c, now, offset, mac);
          OpenOKFromList(d, r.0, s.devs[mac], mac);
        }
      }
      DecidedAllOpenOK(s2, cs[1..], now, offset);
    }
  }

  lemma ClosedDevOK(d: Day, mac: Mac)
    ensures OpenOK(d, Dev("", false, None), mac)
  {
  }

  /** So it is in every run: an open session is the last one of its device, and of the application shown. */
  lemma NextOpenOK(s: State, e: Event, offset: int)
    requires AllOpenOK(s)
    ensures AllOpenOK(Next(s, e, offset))
  {
    match e
    case TickE(now, cs, gone) =>
      hide AllOpenOK, Clocked, Rolled, DecidedAll, Midnight;
      SettledOpenOK(s, now, offset);
      DecidedAllOpenOK(Settled(s, now, offset), cs, now, offset);
      FewerOpenOK(DecidedAll(Settled(s, now, offset), cs, now, offset), gone);
    case ResetE(at) =>
      hide ClosedAll;
  }

  lemma FewerOpenOK(s: State, gone: set<Mac>)
    requires AllOpenOK(s)
    ensures AllOpenOK(s.(devs := Remaining(s.devs, gone)))
  {
    hide OpenOK;
  }

  /** What a tick records of the application it shows for a device: from a day `d` in which the device's
      list is that before the decisions, its session is open if it was and the application is the same, or
      if there is room for another one; and an open session is of that application and ends no earlier
      than it was last active. */
  lemma ShownIsRecorded(s: State, now: int, cs: seq<Decision>, gone: set<Mac>, offset: int, k: nat) returns (d: Day)
    requires AllOpenOK(s) && OncePerDevice(cs) && k < |cs| && cs[k].shown != ""
    ensures var before := Settled(s, now, offset);
      && before.day.Some? && ListOf(d, cs[k].mac) == ListOf(before.day.value, cs[k].mac)
      && RoomFor(before.day.value, d, cs[k].mac, k)
    ensures var r, c, was := Tick(s, now, cs, gone, offset), cs[k], DevOf(Settled(s, now, offset).devs, cs[k].mac);
      && r.day.Some? && r.day.value.date == Midnight(now, offset) && r.last == Some(now)
      && c.mac in r.devs && r.devs[c.mac].shown == c.shown && r.devs[c.mac].active == c.active
      && (r.devs[c.mac].open <==> if c.shown == was.shown then was.open else HasRoom(d, c.mac))
      && (r.devs[c.mac].open ==>
          var l := ListOf(r.day.value, c.mac);
          l != [] && Last(l).app == c.shown && Last(l).end >= Unix(c.active.GetOr(now)))
      && (c.shown == was.shown && !was.open ==>
          ListOf(r.day.value, c.mac) == ListOf(Settled(s, now, offset).day.value, c.mac))
  {
    hide Clocked, Rolled, DecidedAll, Midnight, AllOpenOK, Decided, Unix, HasRoom, RoomFor;
    SettledOpenOK(s, now, offset);
    var before, c := Settled(s, now, offset), cs[k];
    var was := DevOf(before.devs, c.mac);
    d := ReachDecision(before, cs, now, offset, k);
    WasOpenOK(before, c.mac);
    OpenOKFromList(before.day.value, d, was, c.mac);
    if c.shown == was.shown {
      SameShown(d, was, c, now, offset);
    } else {
      var l := OtherShown(d, was, c, now, offset);
    }
  }

  lemma WasOpenOK(s: State, mac: Mac)
    requires AllOpenOK(s) && s.day.Some?
    ensures OpenOK(s.day.value, DevOf(s.devs, mac), mac)
  {
  }

  // ----- While an application stays shown -----

  /** A tick without a reset and on the same day as the state before. */
  predicate SameDay(s: State, now: int, offset: int) {
    && s.last.Some? && s.last.value < now <= s.last.value + GAP_RESET
    && s.day.Some? && s.day.value.date == Midnight(now, offset)
  }

  lemma SettledSame(s: State, now: int, offset: int)
    requires SameDay(s, now, offset)
    ensures Settled(s, now, offset) == s.(last := Some(now))
  {
    hide Midnight, CutDay, Reopened, Reset;
  }

  /** The decision of a tick for a device. */
  function DecisionOn(cs: seq<Decision>, mac: Mac): Option<Decision> {
    if cs == [] then None else if cs[0].mac == mac then Some(cs[0]) else DecisionOn(cs[1..], mac)
  }

  lemma {:induction false} DecisionPlace(cs: seq<Decision>, mac: Mac) returns (k: nat)
    requires DecisionOn(cs, mac).Some?
    ensures k < |cs| && cs[k].mac == mac && cs[k] == DecisionOn(cs, mac).value
  {
    if cs[0].mac == mac {
      k := 0;
    } else {
      k := DecisionPlace(cs[1..], mac);
      k := k + 1;
    }
  }

  /** Every event of the run is a tick of the same day that shows `app` for the device. */
  predicate StaysShown(s: State, es: seq<Event>, mac: Mac, app: string, offset: int)
    decreases |es|
  {
    es != [] ==>
      && es[0].TickE? && SameDay(s, es[0].now, offset) && OncePerDevice(es[0].cs)
      && DecisionOn(es[0].cs, mac).Some? && DecisionOn(es[0].cs, mac).value.shown == app
      && StaysShown(Next(s, es[0], offset), es[1..], mac, app, offset)
  }

  /** The second in which the application shown was last active, as a tick sees it. */
  function ActiveAt(e: Event, mac: Mac): int
    requires e.TickE? && DecisionOn(e.cs, mac).Some?
  {
    Unix(DecisionOn(e.cs, mac).value.active.GetOr(e.now))
  }

  /** The latest of a second and those of the run. */
  function Latest(s: State, es: seq<Event>, mac: Mac, app: string, offset: int, u: int): int
    requires StaysShown(s, es, mac, app, offset)
    decreases |es|
  {
    if es == [] then u
    else Latest(Next(s, es[0], offset), es[1..], mac, app, offset, Max(u, ActiveAt(es[0], mac)))
  }

  lemma {:induction false} LatestIs(s: State, es: seq<Event>, mac: Mac, app: string, offset: int, u: int)
    requires StaysShown(s, es, mac, app, offset)
    ensures var m := Latest(s, es, mac, app, offset, u);
      && u <= m && (forall e <- es :: e.TickE? && DecisionOn(e.cs, mac).Some? && ActiveAt(e, mac) <= m)
      && (m == u || exists e :: e in es && m == ActiveAt(e, mac))
    decreases |es|
  {
    hide Tick, SameDay, Unix;
    if es != [] {
      LatestIs(Next(s, es[0], offset), es[1..], mac, app, offset, Max(u, ActiveAt(es[0], mac)));
      assert forall e <- es :: e == es[0] || e in es[1..];
      assert es[0] in es && forall e <- es[1..] :: e in es;
    }
  }

  /** One tick more: the open session goes on until the application was last active. */
  lemma StaysOne(s: State, e: Event, mac: Mac, app: string, offset: int)
    requires AllOpenOK(s) && StaysShown(s, [e], mac, app, offset) && mac in s.devs && s.devs[mac].open
            && s.devs[mac].shown == app
    ensures e.TickE? && DecisionOn(e.cs, mac).Some?
    ensures var r := Next(s, e, offset);
      && AllOpenOK(r) && s.day.Some? && r.day.Some? && mac in r.devs && r.devs[mac].open && r.devs[mac].shown == app
      && GoesOn(ListOf(s.day.value, mac), ActiveAt(e, mac), ListOf(r.day.value, mac))
  {
    assert [e][0] == e;
    SettledSame(s, e.now, offset);
    NextOpenOK(s, e, offset);
    hide Midnight, AllOpenOK, Decided, Unix, Rolled, Clocked, DecidedAll, OpenOK, RoomFor;
    var k := DecisionPlace(e.cs, mac);
    var before := Settled(s, e.now, offset);
    var d := ReachDecision(before, e.cs, e.now, offset, k);
    SettledOpenOK(s, e.now, offset);
    WasOpenOK(before, mac);
    OpenOKFromList(before.day.value, d, s.devs[mac], mac);
    ShownNotEmpty(s, mac);
    SameShown(d, s.devs[mac], e.cs[k], e.now, offset);
  }

  lemma ShownNotEmpty(s: State, mac: Mac)
    requires AllOpenOK(s) && mac in s.devs && s.devs[mac].open
    ensures s.day.Some? && s.devs[mac].shown != "" && ListOf(s.day.value, mac) != []
  {
  }

  lemma GoesOnTwice(l: seq<Session>, u: int, r: seq<Session>, v: int, t: seq<Session>)
    requires l != [] && GoesOn(l, u, r) && GoesOn(r, v, t)
    ensures GoesOn(l, Max(u, v), t)
  {
  }

  /** While an application stays shown its session, once open, goes on until the latest second in which it
      was active, or its end before; it stays the same session, and all others stay as they are. */
  lemma {:induction false} GoesOnWhileShown(s: State, es: seq<Event>, mac: Mac, app: string, offset: int)
    requires AllOpenOK(s) && StaysShown(s, es, mac, app, offset)
    requires mac in s.devs && s.devs[mac].open && s.devs[mac].shown == app
    ensures s.day.Some? && ListOf(s.day.value, mac) != []
    ensures var r, l := Run(s, es, offset), ListOf(s.day.value, mac);
      && r.day.Some? && mac in r.devs && r.devs[mac].open && r.devs[mac].shown == app
      && GoesOn(l, Latest(s, es, mac, app, offset, Last(l).end), ListOf(r.day.value, mac))
    decreases |es|
  {
    hide AllOpenOK, Tick, SameDay, Unix;
    ShownNotEmpty(s, mac);
    if es != [] {
      var e := es[0];
      assert StaysShown(Next(s, e, offset), [], mac, app, offset);
      assert [e][1..] == [];
      StaysOne(s, e, mac, app, offset);
      var n, l := Next(s, e, offset), ListOf(s.day.value, mac);
      GoesOnWhileShown(n, es[1..], mac, app, offset);
      assert Last(ListOf(n.day.value, mac)).end == Max(Last(l).end, ActiveAt(e, mac));
      GoesOnTwice(l, ActiveAt(e, mac), ListOf(n.day.value, mac), Latest(s, es, mac, app, offset, Last(l).end),
                  ListOf(Run(s, es, offset).day.value, mac));
      LatestIs(n, es[1..], mac, app, offset, Max(Last(l).end, ActiveAt(e, mac)));
    }
  }

  /** The second of the last activity in a run. */
  function LastActivity(es: seq<Event>, mac: Mac, u: int): int {
    if es == [] then u
    else LastActivity(es[1..], mac, if es[0].TickE? && DecisionOn(es[0].cs, mac).Some? then ActiveAt(es[0], mac) else u)
  }

  /** From a second on activity is never seen earlier than before. */
  predicate Growing(es: seq<Event>, mac: Mac, u: int)
    decreases |es|
  {
    es != [] ==>
      es[0].TickE? && DecisionOn(es[0].cs, mac).Some? && u <= ActiveAt(es[0], mac)
        && Growing(es[1..], mac, ActiveAt(es[0], mac))
  }

  lemma {:induction false} LatestOfGrowing(s: State, es: seq<Event>, mac: Mac, app: string, offset: int, a: int, u: int)
    requires StaysShown(s, es, mac, app, offset) && Growing(es, mac, u)
    ensures Latest(s, es, mac, app, offset, Max(a, u)) == Max(a, LastActivity(es, mac, u))
    decreases |es|
  {
    hide Tick, SameDay, Unix;
    if es != [] {
      var v := ActiveAt(es[0], mac);
      LatestOfGrowing(Next(s, es[0], offset), es[1..], mac, app, offset, a, v);
      assert Max(Max(a, u), v) == Max(a, v);
    }
  }

  /** The length of a session, while its application stays shown and its activity is not seen going back:
      it ends at the later of its start and that activity. */
  lemma SessionLength(s: State, es: seq<Event>, mac: Mac, app: string, offset: int, u: int)
    requires AllOpenOK(s) && StaysShown(s, es, mac, app, offset) && Growing(es, mac, u)
    requires mac in s.devs && s.devs[mac].open && s.devs[mac].shown == app
    requires s.day.Some? && ListOf(s.day.value, mac) != []
    requires var x := Last(ListOf(s.day.value, mac)); x.end == Max(x.start, u)
    ensures var r := Run(s, es, offset);
      && r.day.Some? && ListOf(r.day.value, mac) != []
      && var x := Last(ListOf(s.day.value, mac));
        Last(ListOf(r.day.value, mac)) == Session(x.app, x.start, Max(x.start, LastActivity(es, mac, u)))
  {
    hide AllOpenOK, Run, StaysShown, Growing, Latest, LastActivity;
    GoesOnWhileShown(s, es, mac, app, offset);
    LatestOfGrowing(s, es, mac, app, offset, Last(ListOf(s.day.value, mac)).start, u);
    LatestIs(s, es, mac, app, offset, Last(ListOf(s.day.value, mac)).end);
  }

  /** What a tick makes of the list of a device for which it shows another application than before. */
  lemma NewlyShown(s: State, now: int, cs: seq<Decision>, gone: set<Mac>, offset: int, k: nat)
    returns (l: seq<Session>, d: Day)
    requires AllOpenOK(s) && OncePerDevice(cs) && k < |cs|
    requires cs[k].shown != "" && cs[k].shown != DevOf(Settled(s, now, offset).devs, cs[k].mac).shown
    ensures var before, c := Settled(s, now, offset), cs[k];
      && before.day.Some? && RoomFor(before.day.value, d, c.mac, k)
      && (DevOf(before.devs, c.mac).open ==>
          GoesOn(ListOf(before.day.value, c.mac), Unix(c.prevActive.GetOr(now)), l))
      && (!DevOf(before.devs, c.mac).open ==> l == ListOf(before.day.value, c.mac))
    ensures var r, c := Tick(s, now, cs, gone, offset), cs[k];
      && r.day.Some? && c.mac in r.devs && (r.devs[c.mac].open <==> HasRoom(d, c.mac))
      && (r.devs[c.mac].open ==>
          Begins(l, c.shown, Unix(Min(c.since.GetOr(now), now)), Midnight(now, offset), Unix(c.active.GetOr(now)),
                 ListOf(r.day.value, c.mac)))
      && (!r.devs[c.mac].open ==> ListOf(r.day.value, c.mac) == l)
  {
    hide Clocked, Rolled, DecidedAll, Midnight, AllOpenOK, Decided, Unix, HasRoom, RoomFor, GoesOn, Begins;
    SettledOpenOK(s, now, offset);
    var before, c := Settled(s, now, offset), cs[k];
    var was := DevOf(before.devs, c.mac);
    d := ReachDecision(before, cs, now, offset, k);
    WasOpenOK(before, c.mac);
    OpenOKFromList(before.day.value, d, was, c.mac);
    l := OtherShown(d, was, c, now, offset);
  }

  /** A tick that shows nothing for a device ends its session when the application was last active. */
  lemma NoLongerShown(s: State, now: int, cs: seq<Decision>, gone: set<Mac>, offset: int, k: nat)
    requires AllOpenOK(s) && OncePerDevice(cs) && k < |cs| && cs[k].shown == ""
    ensures Settled(s, now, offset).day.Some?
    ensures var before, c, r := Settled(s, now, offset), cs[k], Tick(s, now, cs, gone, offset);
      && r.day.Some? && (c.mac in r.devs ==> !r.devs[c.mac].open)
      && (DevOf(before.devs, c.mac).open ==>
          GoesOn(ListOf(before.day.value, c.mac), Unix(c.prevActive.GetOr(now)), ListOf(r.day.value, c.mac)))
      && (!DevOf(before.devs, c.mac).open ==> ListOf(r.day.value, c.mac) == ListOf(before.day.value, c.mac))
  {
    hide Clocked, Rolled, DecidedAll, Midnight, AllOpenOK, Decided, Unix, HasRoom, RoomFor, GoesOn, Begins;
    SettledOpenOK(s, now, offset);
    var before, c := Settled(s, now, offset), cs[k];
    var was := DevOf(before.devs, c.mac);
    var d := ReachDecision(before, cs, now, offset, k);
    WasOpenOK(before, c.mac);
    OpenOKFromList(before.day.value, d, was, c.mac);
    if was.shown == "" {
      SameShown(d, was, c, now, offset);
    } else {
      var l := OtherShown(d, was, c, now, offset);
    }
  }

  // ----- Over midnight and over a reset -----

  /** At the first tick of a new day, without a reset, an open session that reaches to within 30 seconds of
      midnight ends there, and goes on from there on the new day; any other stays as it is, but for
      ending at midnight at the latest, is closed, and leaves the new day without a session. */
  lemma OverMidnight(s: State, now: int, offset: int, mac: Mac)
    requires AllOpenOK(s) && s.last.Some? && s.last.value < now <= s.last.value + GAP_RESET
    requires s.day.Some? && s.day.value.date != Midnight(now, offset) && mac in s.devs && s.devs[mac].open
    ensures var r, l, mid := Settled(s, now, offset), ListOf(s.day.value, mac), Midnight(now, offset);
      && l != [] && r.day.Some? && mac in r.devs && r.devs[mac].shown == s.devs[mac].shown
      && |r.past| == |s.past| + 1 && r.past[..|s.past|] == s.past && r.past[|s.past|].date == s.day.value.date
      && var done, next := ListOf(r.past[|s.past|], mac), ListOf(r.day.value, mac);
        && |done| == |l| && done[..|l| - 1] == l[..|l| - 1]
        && (r.devs[mac].open <==> Last(l).end >= mid - 30)
        && (r.devs[mac].open ==>
            && Last(done) == Session(Last(l).app, Last(l).start, mid)
            && next == [Session(Last(l).app, mid, Max(mid, Last(l).end))])
        && (!r.devs[mac].open ==> done == l && next == [])
  {
    hide Midnight;
    var mid, d := Midnight(now, offset), s.day.value;
    assert Clocked(s, now) == s.(last := Some(now));
    assert OpenOK(d, s.devs[mac], mac);
    var r := Settled(s, now, offset);
    assert mac in d.lists;
    assert r.past == s.past + [CutDay(d, s.devs, mid)];
    assert ListOf(CutDay(d, s.devs, mid), mac) == Cut(d.lists[mac], s.devs[mac], mid);
  }

  /** A reset ends every open session when its application was last active, or at the reset if that is
      earlier, and forgets all devices. */
  lemma ResetEnds(s: State, at: int, mac: Mac)
    requires AllOpenOK(s) && s.day.Some?
    ensures var r := Reset(s, at);
      && r.last.None? && r.devs == map[] && r.day.Some?
      && (mac in s.devs && s.devs[mac].open ==>
          var end := if s.devs[mac].active.Some? then Min(s.devs[mac].active.value, at) else at;
          GoesOn(ListOf(s.day.value, mac), Unix(end), ListOf(r.day.value, mac)))
      && (!(mac in s.devs && s.devs[mac].open) ==> ListOf(r.day.value, mac) == ListOf(s.day.value, mac))
  {
    hide Unix, Extended;
    if mac in s.devs && s.devs[mac].open {
      assert mac in s.day.value.lists;
      ExtendedIs(s.day.value.lists[mac], Unix(EndAt(s.devs[mac], at)));
    }
  }

  /** A clock that goes back or stands still resets at the last tick, a gap of more than 90 seconds ten
      seconds after it. */
  lemma WhenReset(s: State, now: int)
    ensures s.last.Some? && now <= s.last.value ==> Clocked(s, now) == Reset(s, s.last.value).(last := Some(now))
    ensures s.last.Some? && now > s.last.value + 90_000_000_000 ==>
              Clocked(s, now) == Reset(s, s.last.value + 10_000_000_000).(last := Some(now))
    ensures s.last.None? || s.last.value < now <= s.last.value + 90_000_000_000 ==>
            Clocked(s, now) == s.(last := Some(now))
  {
    hide Reset;
  }

  lemma {:induction false} AlwaysOpenOK(es: seq<Event>, offset: int)
    ensures AllOpenOK(Run(INITIAL, es, offset))
  {
    StaysOpenOK(INITIAL, es, offset);
  }

  lemma {:induction false} StaysOpenOK(s: State, es: seq<Event>, offset: int)
    requires AllOpenOK(s)
    ensures AllOpenOK(Run(s, es, offset))
    decreases |es|
  {
    hide AllOpenOK, Next;
    if es != [] {
      NextOpenOK(s, es[0], offset);
      StaysOpenOK(Next(s, es[0], offset), es[1..], offset);
    }
  }

  // ----- A session that is not carried on -----

  /** An application in use at a tick. */
  function InUseAt(now: int): seq<Decision> { [Decision("m", "a", Some(now - 10 * SECOND), Some(now), None)] }

  /** After two ticks a minute apart, 45 seconds before midnight and 15 after it, with an application in use
      at both. */
  function AroundMidnight(): State {
    Tick(Tick(INITIAL, 86355 * SECOND, InUseAt(86355 * SECOND), {}, 0), 86415 * SECOND, InUseAt(86415 * SECOND), {}, 0)
  }

  /** Its session is not carried on, and as long as it stays shown none begins on the new day. */
  lemma NotCarriedOn(es: seq<Event>)
    requires StaysShown(AroundMidnight(), es, "m", "a", 0)
    ensures var r := Run(AroundMidnight(), es, 0);
      && r.day.Some? && r.day.value.date == 86400 && ListOf(r.day.value, "m") == []
      && "m" in r.devs && r.devs["m"].shown == "a" && !r.devs["m"].open
  {
    hide Tick, AllOpenOK, StaysShown, Run;
    var s1 := FirstInUse();
    var s2 := SecondInUse(s1);
    StaysUnrecorded(s2, es, "m", "a", 0);
  }

  lemma FirstInUse() returns (s: State)
    ensures s == Tick(INITIAL, 86355 * SECOND, InUseAt(86355 * SECOND), {}, 0) && AllOpenOK(s)
    ensures s.last == Some(86355 * SECOND) && s.day.Some? && s.day.value.date == 0 && "m" in s.devs && s.devs["m"].open
    ensures s.devs["m"].shown == "a" && ListOf(s.day.value, "m") != [] && Last(ListOf(s.day.value, "m")).end == 86355
  {
    var now := 86355 * SECOND;
    var cs := InUseAt(now);
    s := Tick(INITIAL, now, cs, {}, 0);
    NextOpenOK(INITIAL, TickE(now, cs, {}), 0);
    assert Settled(INITIAL, now, 0) == State(Some(now), Some(Day(0, map[])), map[], []);
    hide Tick, Settled, AllOpenOK;
    NoneOpen();
    var l, d := NewlyShown(INITIAL, now, cs, {}, 0, 0);
    var e := ShownIsRecorded(INITIAL, now, cs, {}, 0, 0);
  }

  lemma NoneOpen()
    ensures AllOpenOK(INITIAL)
  {
  }

  lemma SecondInUse(s: State) returns (r: State)
    requires AllOpenOK(s) && s.last == Some(86355 * SECOND) && s.day.Some? && s.day.value.date == 0 && "m" in s.devs
    requires s.devs["m"].open && s.devs["m"].shown == "a"
    requires ListOf(s.day.value, "m") != [] && Last(ListOf(s.day.value, "m")).end == 86355
    ensures r == Tick(s, 86415 * SECOND, InUseAt(86415 * SECOND), {}, 0) && AllOpenOK(r)
    ensures r.day.Some? && r.day.value.date == 86400 && ListOf(r.day.value, "m") == []
    ensures "m" in r.devs && r.devs["m"].shown == "a" && !r.devs["m"].open
  {
    var now := 86415 * SECOND;
    var cs := InUseAt(now);
    r := Tick(s, now, cs, {}, 0);
    NextOpenOK(s, TickE(now, cs, {}), 0);
    assert Midnight(now, 0) == 86400;
    hide Tick, Settled, AllOpenOK, Midnight;
    OverMidnight(s, now, 0, "m");
    var e := ShownIsRecorded(s, now, cs, {}, 0, 0);
  }

  /** A device without an open session stays so while the same application stays shown. */
  lemma {:induction false} StaysUnrecorded(s: State, es: seq<Event>, mac: Mac, app: string, offset: int)
    requires AllOpenOK(s) && StaysShown(s, es, mac, app, offset) && app != ""
    requires s.day.Some? && mac in s.devs && !s.devs[mac].open && s.devs[mac].shown == app
    ensures var r := Run(s, es, offset);
      && r.day.Some? && r.day.value.date == s.day.value.date && ListOf(r.day.value, mac) == ListOf(s.day.value, mac)
      && mac in r.devs && r.devs[mac].shown == app && !r.devs[mac].open
    decreases |es|
  {
    if es != [] {
      var e := es[0];
      SettledSame(s, e.now, offset);
      NextOpenOK(s, e, offset);
      hide AllOpenOK, Tick, Settled, Unix, Midnight, RoomFor;
      var k := DecisionPlace(e.cs, mac);
      var d := ShownIsRecorded(s, e.now, e.cs, e.gone, offset, k);
      StaysUnrecorded(Next(s, e, offset), es[1..], mac, app, offset);
    }
  }
}
