/** Runs of the foreground timeline: sessions stay in order, apart and bounded. */
module FgRuns {
  import opened Common
  import opened FgTimeline

  // ----- Lists -----

  /** In order, not overlapping, none ending before it starts, and not too many. */
  predicate Ordered(l: seq<Session>) {
    && |l| <= MAX_SESSIONS
    && (forall i :: 0 <= i < |l| ==> l[i].start <= l[i].end)
    && (forall i, j :: 0 <= i < j < |l| ==> l[i].end <= l[j].start)
  }

  lemma LastToOrdered(l: seq<Session>, end: int)
    requires Ordered(l) && l != []
    ensures Ordered(LastTo(l, end)) <==> l[|l| - 1].start <= end
  {
    var r := LastTo(l, end);
    assert r[|r| - 1].start == l[|l| - 1].start && r[|r| - 1].end == end;
  }

  lemma ExtendedOrdered(l: seq<Session>, end: int)
    requires Ordered(l)
    ensures Ordered(Extended(l, end))
  {
    if l != [] {
      LastToOrdered(l, Max(l[|l| - 1].end, end));
    }
  }

  lemma {:induction false} ShortestIs(l: seq<Session>, n: nat, i: nat)
    requires 1 <= n <= |l| && i < n
    ensures Length(l[Shortest(l, n)]) <= Length(l[i])
            && (i < Shortest(l, n) ==> Length(l[Shortest(l, n)]) < Length(l[i]))
  {
    if n > 1 {
      ShortestIs(l, n - 1, if i < n - 1 then i else 0);
      ShortestIs(l, n - 1, Shortest(l, n - 1));
    }
  }

  /** One session goes, the first of the shortest ones but never the last; the rest stay as they are. */
  lemma DropsTheShortest(l: seq<Session>)
    requires |l| >= 2
    ensures exists k :: 0 <= k < |l| - 1 && DropShortest(l) == l[..k] + l[k + 1..]
                        && (forall i :: 0 <= i < |l| - 1 ==> Length(l[k]) <= Length(l[i]))
                        && (forall i :: 0 <= i < k ==> Length(l[k]) < Length(l[i]))
  {
    var k := Shortest(l, |l| - 1);
    forall i | 0 <= i < |l| - 1 ensures Length(l[k]) <= Length(l[i]) && (i < k ==> Length(l[k]) < Length(l[i])) {
      ShortestIs(l, |l| - 1, i);
    }
    assert DropShortest(l) == l[..k] + l[k + 1..];
  }

  lemma WithoutOne(l: seq<Session>, k: nat)
    requires Ordered(l) && k < |l|
    ensures Ordered(l[..k] + l[k + 1..]) && forall s <- l[..k] + l[k + 1..] :: s in l
  {
    var r := l[..k] + l[k + 1..];
    forall i | 0 <= i < |r| ensures r[i] == l[if i < k then i else i + 1] {
    }
    forall i, j | 0 <= i < j < |r| ensures r[i].end <= r[j].start {
      var a, b := if i < k then i else i + 1, if j < k then j else j + 1;
      assert r[i] == l[a] && r[j] == l[b] && a < b;
    }
  }

  lemma RoomMade(l: seq<Session>, base: seq<Session>)
    requires Ordered(l) && base == if |l| >= MAX_SESSIONS then DropShortest(l) else l
    ensures Ordered(base) && |base| < MAX_SESSIONS && forall s <- base :: s in l
  {
    if |l| >= MAX_SESSIONS {
      WithoutOne(l, Shortest(l, |l| - 1));
    }
  }

  lemma EndsBefore(l: seq<Session>, at: int)
    requires Ordered(l) && (l != [] ==> l[|l| - 1].end <= at)
    ensures forall s <- l :: s.end <= at
  {
    forall i | 0 <= i < |l| ensures l[i].end <= at {
      assert i < |l| - 1 ==> l[i].end <= l[|l| - 1].start;
    }
  }

  lemma AppendOrdered(l: seq<Session>, s: Session)
    requires Ordered(l) && |l| < MAX_SESSIONS && s.start <= s.end && forall t <- l :: t.end <= s.start
    ensures Ordered(l + [s])
  {
    var r := l + [s];
    forall i, j | 0 <= i < j < |r| ensures r[i].end <= r[j].start {
      assert j == |l| ==> l[i] in l;
    }
  }

  /** Opening keeps the list in order: a new session starts neither before midnight nor before
      the end of the one before. */
  lemma OpenedOrdered(l: seq<Session>, app: string, st: int, mid: int)
    requires Ordered(l)
    ensures Ordered(Opened(l, app, st, mid)) && Opened(l, app, st, mid) != []
  {
    var at := StartAt(l, st, mid);
    var base := if |l| >= MAX_SESSIONS then DropShortest(l) else l;
    EndsBefore(l, at);
    RoomMade(l, base);
    hide Ordered, DropShortest, StartAt;
    forall s <- base ensures s.end <= at {
      assert s in l;
    }
    AppendOrdered(base, Session(app, at, at));
  }

  /** An open session that the cut at midnight puts out of order: it starts after it. */
  predicate StartsLate(l: seq<Session>, dev: Dev, mid: int) {
    dev.open && l != [] && l[|l| - 1].end > mid && l[|l| - 1].start > mid
  }

  /** The cut at midnight is the only step that can put a list out of order, and does so exactly
      if the open session ends and starts after it. */
  lemma CutOrdered(l: seq<Session>, dev: Dev, mid: int)
    requires Ordered(l)
    ensures Ordered(Cut(l, dev, mid)) <==> !StartsLate(l, dev, mid)
  {
    if l != [] {
      LastToOrdered(l, mid);
    }
  }

  // ----- Days -----

  predicate DayOrdered(d: Day) { |d.lists| <= MAX_DEVICES && forall mac <- d.lists :: Ordered(d.lists[mac]) }

  lemma PutOrdered(d: Day, mac: Mac, l: seq<Session>)
    requires DayOrdered(d) && HasRoom(d, mac) && Ordered(l)
    ensures DayOrdered(Put(d, mac, l)) && HasRoom(Put(d, mac, l), mac)
  {
    var m := d.lists[mac := l];
    assert m.Keys == d.lists.Keys + {mac};
    hide Ordered;
  }

  lemma ListOrdered(d: Day, mac: Mac)
    requires DayOrdered(d)
    ensures Ordered(ListOf(d, mac)) && (ListOf(d, mac) != [] ==> HasRoom(d, mac))
  {
  }

  lemma CloseOrdered(d: Day, dev: Dev, mac: Mac, end: int)
    requires DayOrdered(d)
    ensures DayOrdered(CloseOne(d, dev, mac, end))
  {
    hide Ordered, Extended, DayOrdered, HasRoom;
    ListOrdered(d, mac);
    if ListOf(d, mac) != [] {
      ExtendedOrdered(ListOf(d, mac), Unix(end));
      PutOrdered(d, mac, Extended(ListOf(d, mac), Unix(end)));
    }
  }

  lemma SwitchedOrdered(d: Day, dev: Dev, c: Decision, now: int, offset: int)
    requires DayOrdered(d)
    ensures DayOrdered(Switched(d, dev, c, now, offset).0)
  {
    hide Ordered, DayOrdered, CloseOne, Opened, HasRoom, ListOf, Midnight, Unix;
    if c.shown != dev.shown {
      var end := c.prevActive.GetOr(now);
      CloseOrdered(d, dev, c.mac, end);
      var d1 := if dev.shown != "" then CloseOne(d, dev, c.mac, end) else d;
      if c.shown != "" && HasRoom(d1, c.mac) {
        var since := c.since.GetOr(now);
        var start := if since > now then now else since;
        ListOrdered(d1, c.mac);
        OpenedOrdered(ListOf(d1, c.mac), c.shown, Unix(start), Midnight(now, offset));
        PutOrdered(d1, c.mac, Opened(ListOf(d1, c.mac), c.shown, Unix(start), Midnight(now, offset)));
      }
    }
  }

  lemma DecidedOrdered(d: Day, dev: Dev, c: Decision, now: int, offset: int)
    requires DayOrdered(d)
    ensures DayOrdered(Decided(d, dev, c, now, offset).0)
  {
    hide Ordered, DayOrdered, Switched, Extended, HasRoom, ListOf, Unix;
    SwitchedOrdered(d, dev, c, now, offset);
    var r := Switched(d, dev, c, now, offset);
    var l, end := ListOf(r.0, c.mac), Unix(c.active.GetOr(now));
    ListOrdered(r.0, c.mac);
    if l != [] {
      ExtendedOrdered(l, end);
      PutOrdered(r.0, c.mac, Extended(l, end));
    }
  }

  lemma ClosedAllOrdered(d: Day, devs: map<Mac, Dev>, at: int)
    requires DayOrdered(d)
    ensures DayOrdered(ClosedAll(d, devs, at))
  {
    hide Ordered, Extended, Unix;
    var r := ClosedAll(d, devs, at);
    assert r.lists.Keys == d.lists.Keys;
    forall mac <- r.lists ensures Ordered(r.lists[mac]) {
      if mac in devs && devs[mac].open {
        ExtendedOrdered(d.lists[mac], Unix(EndAt(devs[mac], at)));
      }
    }
  }

  /** No open session starts after the new midnight. */
  predicate NoneLate(d: Day, devs: map<Mac, Dev>, mid: int) {
    forall mac <- d.lists :: mac in devs ==> !StartsLate(d.lists[mac], devs[mac], mid)
  }

  lemma CutDayOrdered(d: Day, devs: map<Mac, Dev>, mid: int)
    requires DayOrdered(d)
    ensures DayOrdered(CutDay(d, devs, mid)) <==> NoneLate(d, devs, mid)
  {
    hide Ordered, Cut, StartsLate;
    var r := CutDay(d, devs, mid);
    assert r.lists.Keys == d.lists.Keys;
    forall mac <- d.lists ensures Ordered(r.lists[mac]) <==>
      (mac in devs ==> !StartsLate(d.lists[mac], devs[mac], mid)) {
      if mac in devs {
        CutOrdered(d.lists[mac], devs[mac], mid);
      }
    }
  }

  lemma ReopenedOrdered(d: Day, devs: map<Mac, Dev>, mid: int)
    requires DayOrdered(d)
    ensures DayOrdered(Day(mid, Reopened(d, devs, mid)))
  {
    var r := Reopened(d, devs, mid);
    SubsetSmaller(r.Keys, d.lists.Keys);
    assert |r| == |r.Keys| && |d.lists| == |d.lists.Keys|;
  }

  // ----- Ticks and resets -----

  /** All lists of today and of the days before are in order, and no day has too many. */
  predicate AllOrdered(s: State) {
    (s.day.Some? ==> DayOrdered(s.day.value)) && forall i :: 0 <= i < |s.past| ==> DayOrdered(s.past[i])
  }

  /** A reset keeps the order, wherever it ends the sessions. */
  lemma ResetOrdered(s: State, at: int)
    requires AllOrdered(s)
    ensures AllOrdered(Reset(s, at)) && Reset(s, at).past == s.past
  {
    hide DayOrdered, ClosedAll;
    if s.day.Some? {
      ClosedAllOrdered(s.day.value, s.devs, at);
    }
  }

  lemma ClockedOrdered(s: State, now: int)
    requires AllOrdered(s)
    ensures AllOrdered(Clocked(s, now)) && Clocked(s, now).past == s.past
  {
    hide AllOrdered, Reset;
    if s.last.Some? {
      ResetOrdered(s, s.last.value);
      ResetOrdered(s, s.last.value + TICK);
    }
    KeepsLast(s, now);
    if s.last.Some? {
      KeepsLast(Reset(s, s.last.value), now);
      KeepsLast(Reset(s, s.last.value + TICK), now);
    }
  }

  lemma KeepsLast(s: State, now: int)
    ensures AllOrdered(s.(last := Some(now))) == AllOrdered(s)
  {
    hide DayOrdered;
  }

  /** Whether the roll-over, if there is one, finds no open session that starts after midnight. */
  predicate RollOK(s: State, mid: int) { s.day.Some? && s.day.value.date != mid ==> NoneLate(s.day.value, s.devs, mid) }

  lemma RolledOrdered(s: State, now: int, offset: int)
    requires AllOrdered(s)
    ensures AllOrdered(Rolled(s, now, offset)) <==> RollOK(s, Midnight(now, offset))
    ensures s.past <= Rolled(s, now, offset).past && Rolled(s, now, offset).day.Some?
  {
    hide DayOrdered, CutDay, Reopened, Midnight, NoneLate;
    var mid := Midnight(now, offset);
    EmptyDay(mid);
    if s.day.Some? && s.day.value.date != mid {
      var d, r := s.day.value, Rolled(s, now, offset);
      CutDayOrdered(d, s.devs, mid);
      ReopenedOrdered(d, s.devs, mid);
      assert r.past == s.past + [CutDay(d, s.devs, mid)];
      assert r.past[|s.past|] == CutDay(d, s.devs, mid);
    }
  }

  lemma EmptyDay(mid: int)
    ensures DayOrdered(Day(mid, map[]))
  {
  }

  /** Decisions leave finished days alone, and neither make nor mend disorder in them. */
  lemma {:induction false} DecidedAllOrdered(s: State, cs: seq<Decision>, now: int, offset: int)
    requires s.day.Some? && DayOrdered(s.day.value)
    ensures var r := DecidedAll(s, cs, now, offset); r.past == s.past && r.day.Some? && DayOrdered(r.day.value)
    decreases |cs|
  {
    hide Decided, DayOrdered;
    if cs != [] {
      var c := cs[0];
      DecidedOrdered(s.day.value, DevOf(s.devs, c.mac), c, now, offset);
      var r := Decided(s.day.value, DevOf(s.devs, c.mac), c, now, offset);
      DecidedAllOrdered(s.(day := Some(r.0), devs := s.devs[c.mac := r.1]), cs[1..], now, offset);
    }
  }

  lemma RolledToday(s: State, now: int, offset: int)
    requires AllOrdered(s)
    ensures Rolled(s, now, offset).day.Some? && DayOrdered(Rolled(s, now, offset).day.value)
  {
    hide DayOrdered, Reopened, CutDay, Midnight;
    EmptyDay(Midnight(now, offset));
    if s.day.Some? {
      ReopenedOrdered(s.day.value, s.devs, Midnight(now, offset));
    }
  }

  /** Every tick, whatever the clock does and whatever is shown, keeps all lists in order exactly if
      at a roll-over no open session that ends after the new midnight starts after it. */
  lemma TickOrdered(s: State, now: int, cs: seq<Decision>, gone: set<Mac>, offset: int)
    requires AllOrdered(s)
    ensures AllOrdered(Tick(s, now, cs, gone, offset)) <==> RollOK(Clocked(s, now), Midnight(now, offset))
    ensures s.past <= Tick(s, now, cs, gone, offset).past
  {
    hide AllOrdered, Clocked, Rolled, DecidedAll, DayOrdered, Midnight, RollOK;
    ClockedOrdered(s, now);
    var c := Clocked(s, now);
    RolledOrdered(c, now, offset);
    RolledToday(c, now, offset);
    var r := Rolled(c, now, offset);
    DecidedAllOrdered(r, cs, now, offset);
    var e := DecidedAll(r, cs, now, offset);
    SamePast(r, e, Tick(s, now, cs, gone, offset));
  }

  lemma SamePast(r: State, e: State, f: State)
    requires r.day.Some? && DayOrdered(r.day.value) && e.day.Some? && DayOrdered(e.day.value) && e.past == r.past
    requires f.past == e.past && f.day == e.day
    ensures AllOrdered(f) <==> AllOrdered(r)
  {
    hide DayOrdered;
  }

  // ----- Runs -----

  datatype Event = TickE(now: int, cs: seq<Decision>, gone: set<Mac>) | ResetE(at: int)

  function Next(s: State, e: Event, offset: int): State {
    match e
    case TickE(now, cs, gone) => Tick(s, now, cs, gone, offset)
    case ResetE(at) => Reset(s, at)
  }

  function Run(s: State, es: seq<Event>, offset: int): State
    decreases |es|
  {
    if es == [] then s else Run(Next(s, es[0], offset), es[1..], offset)
  }

  /** No roll-over of the run finds an open session that ends and starts after midnight. */
  predicate RollsOK(s: State, es: seq<Event>, offset: int)
    decreases |es|
  {
    es != [] ==>
      && (es[0].TickE? ==> RollOK(Clocked(s, es[0].now), Midnight(es[0].now, offset)))
      && RollsOK(Next(s, es[0], offset), es[1..], offset)
  }

  lemma NextOrdered(s: State, e: Event, offset: int)
    requires AllOrdered(s)
    ensures AllOrdered(Next(s, e, offset)) <==> (e.TickE? ==> RollOK(Clocked(s, e.now), Midnight(e.now, offset)))
  {
    hide AllOrdered, Tick, Reset, Clocked, RollOK, Midnight;
    match e
    case TickE(now, cs, gone) => TickOrdered(s, now, cs, gone, offset);
    case ResetE(at) => ResetOrdered(s, at);
  }

  lemma {:induction false} DisorderStays(s: State, es: seq<Event>, offset: int, i: nat)
    requires i < |s.past| && !DayOrdered(s.past[i])
    ensures !AllOrdered(Run(s, es, offset))
    decreases |es|
  {
    hide Tick, DayOrdered, Reset;
    if es != [] {
      PastGrows(s, es[0], offset);
      DisorderStays(Next(s, es[0], offset), es[1..], offset, i);
    }
  }

  lemma PastGrows(s: State, e: Event, offset: int)
    ensures s.past <= Next(s, e, offset).past
  {
    hide DecidedAll, ClosedAll, CutDay, Reopened, Midnight;
    match e
    case TickE(now, cs, gone) =>
      var r := Rolled(Clocked(s, now), now, offset);
      DecidedAllPast(r, cs, now, offset);
    case ResetE(at) =>
  }

  lemma {:induction false} DecidedAllPast(s: State, cs: seq<Decision>, now: int, offset: int)
    requires s.day.Some?
    ensures DecidedAll(s, cs, now, offset).past == s.past
    decreases |cs|
  {
    hide Decided;
    if cs != [] {
      var c := cs[0];
      var r := Decided(s.day.value, DevOf(s.devs, c.mac), c, now, offset);
      DecidedAllPast(s.(day := Some(r.0), devs := s.devs[c.mac := r.1]), cs[1..], now, offset);
    }
  }

  /** Where disorder comes from: a finished day. */
  lemma BrokenDay(s: State, now: int, cs: seq<Decision>, gone: set<Mac>, offset: int) returns (i: nat)
    requires AllOrdered(s) && !AllOrdered(Tick(s, now, cs, gone, offset))
    ensures var r := Tick(s, now, cs, gone, offset); i < |r.past| && !DayOrdered(r.past[i])
  {
    hide Clocked, Rolled, DecidedAll, DayOrdered, Midnight;
    ClockedOrdered(s, now);
    var c := Clocked(s, now);
    RolledToday(c, now, offset);
    DecidedAllOrdered(Rolled(c, now, offset), cs, now, offset);
    i :| 0 <= i < |Tick(s, now, cs, gone, offset).past| && !DayOrdered(Tick(s, now, cs, gone, offset).past[i]);
  }

  /** In every run from a timeline in order, with any decisions, clocks and resets: in every list of
      today and of every day before, the sessions are in time order, do not overlap, start no later
      than they end and number at most 600, and no day has more than 128 lists, exactly if no
      roll-over finds an open session that ends and starts after the new midnight. */
  lemma {:induction false} AlwaysInOrder(s: State, es: seq<Event>, offset: int)
    requires AllOrdered(s)
    ensures AllOrdered(Run(s, es, offset)) <==> RollsOK(s, es, offset)
    decreases |es|
  {
    hide Tick, Reset, AllOrdered, RollOK, Clocked, Midnight, DayOrdered;
    if es != [] {
      var e := es[0];
      NextOrdered(s, e, offset);
      if AllOrdered(Next(s, e, offset)) {
        AlwaysInOrder(Next(s, e, offset), es[1..], offset);
      } else {
        var i := BrokenDay(s, e.now, e.cs, e.gone, offset);
        DisorderStays(Next(s, e, offset), es[1..], offset, i);
      }
    }
  }

  lemma StartOrdered()
    ensures AllOrdered(INITIAL)
  {
  }

  // ----- Applications that have been active -----

  /** Sessions that end within their day. */
  predicate WithinList(l: seq<Session>, hi: int) { forall s <- l :: s.end <= hi }

  predicate WithinDay(d: Day) { forall mac <- d.lists :: WithinList(d.lists[mac], d.date + DAY) }

  lemma MidnightOf(t: int, u: int, offset: int)
    ensures Midnight(t, offset) <= Unix(t) < Midnight(t, offset) + DAY
    ensures t <= u ==> Unix(t) <= Unix(u) && Midnight(t, offset) <= Midnight(u, offset)
    ensures t <= u && Midnight(t, offset) != Midnight(u, offset) ==> Midnight(t, offset) + DAY <= Midnight(u, offset)
    ensures t <= u <= t + GAP_RESET ==> Midnight(u, offset) <= Midnight(t, offset) + DAY
  {
    var a, b := Unix(t) + offset, Unix(u) + offset;
    assert t <= u ==> t / SECOND <= u / SECOND;
    assert u <= t + GAP_RESET ==> u / SECOND <= t / SECOND + 90;
    assert a <= b ==> a / DAY <= b / DAY;
    assert a / DAY * DAY + a % DAY == a && b / DAY * DAY + b % DAY == b;
  }

  /** What is shown has been active, and nothing is active later than it is looked at. */
  predicate ActiveDecision(c: Decision, now: int) {
    && (c.shown != "" ==> c.active.Some?) && (c.active.Some? ==> c.active.value <= now)
    && (c.prevActive.Some? ==> c.prevActive.value <= now)
  }

  predicate DevOK(d: Day, dev: Dev, mac: Mac, now: int) {
    dev.open ==> dev.shown != "" && ListOf(d, mac) != [] && dev.active.Some? && dev.active.value <= now
  }

  predicate DevsOK(d: Day, devs: map<Mac, Dev>, now: int) { forall mac <- devs :: DevOK(d, devs[mac], mac, now) }

  /** Without a last tick no device is known; with one, the day is that of the tick, its sessions end
      within it, and open ones are those of applications that have been active. */
  predicate Timely(s: State, offset: int) {
    && (s.last.None? ==> s.devs == map[])
    && (s.last.Some? ==>
        s.day.Some? && s.day.value.date == Midnight(s.last.value, offset) && DevsOK(s.day.value, s.devs, s.last.value))
    && (s.day.Some? ==> WithinDay(s.day.value))
  }

  lemma InTime(t: int, now: int, offset: int)
    requires t <= now
    ensures Unix(t) <= Midnight(now, offset) + DAY && Max(Unix(t), Midnight(now, offset)) <= Midnight(now, offset) + DAY
  {
    MidnightOf(t, now, offset);
    MidnightOf(now, now, offset);
  }

  lemma ExtendedWithin(l: seq<Session>, end: int, hi: int)
    requires WithinList(l, hi) && end <= hi
    ensures WithinList(Extended(l, end), hi)
  {
  }

  lemma OpenedWithin(l: seq<Session>, app: string, st: int, mid: int, hi: int)
    requires WithinList(l, hi) && Max(st, mid) <= hi
    ensures WithinList(Opened(l, app, st, mid), hi) && Opened(l, app, st, mid) != []
  {
    if |l| >= 2 {
      var k := Shortest(l, |l| - 1);
      assert forall s <- l[..k] + l[k + 1..] :: s in l;
    }
  }

  lemma PutWithin(d: Day, mac: Mac, l: seq<Session>)
    requires WithinDay(d) && WithinList(l, d.date + DAY)
    ensures WithinDay(Put(d, mac, l))
  {
    hide WithinList;
  }

  lemma ListWithin(d: Day, mac: Mac)
    requires WithinDay(d)
    ensures WithinList(ListOf(d, mac), d.date + DAY)
  {
  }

  /** Nothing becomes empty. */
  ghost predicate Keeps(d: Day, d2: Day) { d2.date == d.date && forall m :: ListOf(d, m) != [] ==> ListOf(d2, m) != [] }

  lemma CloseWithin(d: Day, dev: Dev, mac: Mac, end: int)
    requires WithinDay(d) && Unix(end) <= d.date + DAY
    ensures WithinDay(CloseOne(d, dev, mac, end)) && Keeps(d, CloseOne(d, dev, mac, end))
  {
    ListWithin(d, mac);
    ExtendedWithin(ListOf(d, mac), Unix(end), d.date + DAY);
    hide WithinList, Unix;
    PutWithin(d, mac, Extended(ListOf(d, mac), Unix(end)));
  }

  lemma SwitchedTimely(d: Day, dev: Dev, c: Decision, now: int, offset: int)
    requires WithinDay(d) && DevOK(d, dev, c.mac, now) && ActiveDecision(c, now) && d.date == Midnight(now, offset)
    ensures var r := Switched(d, dev, c, now, offset);
      && WithinDay(r.0) && Keeps(d, r.0) && r.1.shown == c.shown
      && (r.1.open ==> c.shown != "" && ListOf(r.0, c.mac) != [])
  {
    hide WithinList, Unix, Midnight, WithinDay, CloseOne, Opened, HasRoom;
    if c.shown != dev.shown {
      var end := c.prevActive.GetOr(now);
      InTime(end, now, offset);
      CloseWithin(d, dev, c.mac, end);
      var d1 := if dev.shown != "" then CloseOne(d, dev, c.mac, end) else d;
      if c.shown != "" {
        var since := c.since.GetOr(now);
        var start := if since > now then now else since;
        InTime(start, now, offset);
        ListWithin(d1, c.mac);
        OpenedWithin(ListOf(d1, c.mac), c.shown, Unix(start), Midnight(now, offset), d.date + DAY);
        PutWithin(d1, c.mac, Opened(ListOf(d1, c.mac), c.shown, Unix(start), Midnight(now, offset)));
      }
    }
  }

  lemma DecidedTimely(d: Day, dev: Dev, c: Decision, now: int, offset: int)
    requires WithinDay(d) && DevOK(d, dev, c.mac, now) && ActiveDecision(c, now) && d.date == Midnight(now, offset)
    ensures var r := Decided(d, dev, c, now, offset); WithinDay(r.0) && DevOK(r.0, r.1, c.mac, now) && Keeps(d, r.0)
  {
    hide WithinList, Unix, Midnight, WithinDay, Switched, Extended;
    SwitchedTimely(d, dev, c, now, offset);
    var r := Switched(d, dev, c, now, offset);
    var l, end := ListOf(r.0, c.mac), c.active.GetOr(now);
    InTime(end, now, offset);
    ListWithin(r.0, c.mac);
    ExtendedWithin(l, Unix(end), d.date + DAY);
    PutWithin(r.0, c.mac, Extended(l, Unix(end)));
    ExtendedNonempty(l, Unix(end));
  }

  lemma ExtendedNonempty(l: seq<Session>, end: int)
    ensures l != [] ==> Extended(l, end) != []
  {
  }

  lemma KeepsDevs(d: Day, d2: Day, devs: map<Mac, Dev>, mac: Mac, dev: Dev, now: int)
    requires DevsOK(d, devs, now) && Keeps(d, d2) && DevOK(d2, dev, mac, now)
    ensures DevsOK(d2, devs[mac := dev], now)
  {
    hide ListOf;
  }

  lemma {:induction false} DecidedAllTimely(s: State, cs: seq<Decision>, now: int, offset: int)
    requires Timely(s, offset) && s.last == Some(now) && forall c <- cs :: ActiveDecision(c, now)
    ensures Timely(DecidedAll(s, cs, now, offset), offset) && DecidedAll(s, cs, now, offset).last == s.last
    decreases |cs|
  {
    hide Decided, WithinDay, Midnight, ActiveDecision;
    if cs != [] {
      var c := cs[0];
      var d, dev := s.day.value, DevOf(s.devs, c.mac);
      DecidedTimely(d, dev, c, now, offset);
      var r := Decided(d, dev, c, now, offset);
      KeepsDevs(d, r.0, s.devs, c.mac, r.1, now);
      DecidedAllTimely(s.(day := Some(r.0), devs := s.devs[c.mac := r.1]), cs[1..], now, offset);
    }
  }

  lemma ClosedAllWithin(d: Day, devs: map<Mac, Dev>, at: int, last: int, offset: int)
    requires WithinDay(d) && DevsOK(d, devs, last) && d.date == Midnight(last, offset)
    ensures WithinDay(ClosedAll(d, devs, at))
  {
    hide Midnight, WithinList, Extended;
    var r := ClosedAll(d, devs, at);
    forall mac <- r.lists ensures WithinList(r.lists[mac], d.date + DAY) {
      if mac in devs && devs[mac].open {
        InTime(EndAt(devs[mac], at), last, offset);
        ExtendedWithin(d.lists[mac], Unix(EndAt(devs[mac], at)), d.date + DAY);
      }
    }
  }

  lemma ResetTimely(s: State, at: int, offset: int)
    requires Timely(s, offset)
    ensures Timely(Reset(s, at), offset)
  {
    hide WithinDay, Midnight, ClosedAll;
    if s.last.Some? {
      ClosedAllWithin(s.day.value, s.devs, at, s.last.value, offset);
    } else if s.day.Some? {
      NothingClosed(s.day.value, s.devs, at);
    }
  }

  lemma NothingClosed(d: Day, devs: map<Mac, Dev>, at: int)
    requires devs == map[]
    ensures ClosedAll(d, devs, at) == d
  {
    assert ClosedAll(d, devs, at).lists == d.lists;
  }

  /** After the clock was looked at, either nothing is open or the last tick was shortly before. */
  lemma ClockedTimely(s: State, now: int, offset: int)
    requires Timely(s, offset)
    ensures var r := Clocked(s, now);
      && r.last == Some(now) && (r.day.Some? ==> WithinDay(r.day.value))
      && (r.devs == map[] || (r == s.(last := Some(now)) && s.last.Some?
          && s.last.value < now <= s.last.value + GAP_RESET))
  {
    hide WithinDay, Midnight, DevsOK, ClosedAll;
    if s.last.Some? {
      ResetTimely(s, s.last.value, offset);
      ResetTimely(s, s.last.value + TICK, offset);
    }
  }

  lemma ReopenedWithin(d: Day, devs: map<Mac, Dev>, mid: int)
    requires WithinDay(d) && d.date + DAY <= mid
    ensures WithinDay(Day(mid, Reopened(d, devs, mid)))
  {
    var r := Reopened(d, devs, mid);
    forall mac <- r ensures WithinList(r[mac], mid + DAY) {
      var l := d.lists[mac];
      assert l[|l| - 1] in l;
    }
  }

  lemma ReopenedDevs(d: Day, devs: map<Mac, Dev>, mid: int, last: int, now: int)
    requires DevsOK(d, devs, last) && last <= now
    ensures DevsOK(Day(mid, Reopened(d, devs, mid)),
            map mac | mac in devs :: devs[mac].(open := InUse(d, devs, mac, mid)), now)
  {
  }

  lemma LaterDevs(d: Day, devs: map<Mac, Dev>, p: int, now: int)
    requires DevsOK(d, devs, p) && p <= now
    ensures DevsOK(d, devs, now)
  {
  }

  lemma NoneLateWithin(d: Day, devs: map<Mac, Dev>, mid: int)
    requires WithinDay(d) && d.date + DAY <= mid
    ensures NoneLate(d, devs, mid)
  {
    forall mac <- d.lists ensures mac in devs ==> !StartsLate(d.lists[mac], devs[mac], mid) {
      var l := d.lists[mac];
      assert l != [] ==> l[|l| - 1] in l;
    }
  }

  /** A tick shortly after the last one. */
  lemma RolledTimely(s: State, p: int, now: int, offset: int)
    requires s.last == Some(now) && s.day.Some? && s.day.value.date == Midnight(p, offset) && p < now
    requires WithinDay(s.day.value) && DevsOK(s.day.value, s.devs, p)
    ensures Timely(Rolled(s, now, offset), offset) && RollOK(s, Midnight(now, offset))
  {
    MidnightOf(p, now, offset);
    var d, mid := s.day.value, Midnight(now, offset);
    hide WithinDay, Midnight, DevOK, CutDay, Reopened, InUse, NoneLate;
    if d.date == mid {
      LaterDevs(d, s.devs, p, now);
    } else {
      NoneLateWithin(d, s.devs, mid);
      ReopenedWithin(d, s.devs, mid);
      ReopenedDevs(d, s.devs, mid, p, now);
    }
  }

  /** A tick after a reset, or the first one. */
  lemma RolledAfresh(s: State, now: int, offset: int)
    requires s.last == Some(now) && s.devs == map[] && (s.day.Some? ==> WithinDay(s.day.value))
    ensures Timely(Rolled(s, now, offset), offset) && RollOK(s, Midnight(now, offset))
  {
    hide Midnight, WithinDay, CutDay, Reopened, NoneLate;
    EmptyWithin(Midnight(now, offset));
    if s.day.Some? {
      NothingOpen(s.day.value, s.devs, Midnight(now, offset));
    }
  }

  lemma EmptyWithin(mid: int)
    ensures WithinDay(Day(mid, map[]))
  {
  }

  lemma NothingOpen(d: Day, devs: map<Mac, Dev>, mid: int)
    requires devs == map[]
    ensures Reopened(d, devs, mid) == map[] && NoneLate(d, devs, mid)
  {
  }

  lemma TickTimely(s: State, now: int, cs: seq<Decision>, gone: set<Mac>, offset: int)
    requires Timely(s, offset) && forall c <- cs :: ActiveDecision(c, now)
    ensures Timely(Tick(s, now, cs, gone, offset), offset) && RollOK(Clocked(s, now), Midnight(now, offset))
  {
    ClockedTimely(s, now, offset);
    var r := Clocked(s, now);
    hide Clocked, Rolled, DecidedAll, WithinDay, Midnight, ActiveDecision, DevsOK, RollOK;
    if r.devs == map[] {
      RolledAfresh(r, now, offset);
    } else {
      RolledTimely(r, s.last.value, now, offset);
    }
    RolledKeepsLast(r, now, offset);
    DecidedAllTimely(Rolled(r, now, offset), cs, now, offset);
    GoneTimely(DecidedAll(Rolled(r, now, offset), cs, now, offset), gone, offset);
  }

  lemma RolledKeepsLast(s: State, now: int, offset: int)
    ensures Rolled(s, now, offset).last == s.last
  {
  }

  lemma GoneTimely(s: State, gone: set<Mac>, offset: int)
    requires Timely(s, offset) && s.last.Some?
    ensures Timely(s.(devs := Remaining(s.devs, gone)), offset)
  {
    hide WithinDay, Midnight, DevOK;
  }

  predicate ActiveEvent(e: Event) { e.TickE? ==> forall c <- e.cs :: ActiveDecision(c, e.now) }

  /** When every application shown has been active the order needs no condition: no clock jump, reset
      or decision breaks it. */
  lemma {:induction false} ActiveRunsInOrder(s: State, es: seq<Event>, offset: int)
    requires Timely(s, offset) && AllOrdered(s) && forall e <- es :: ActiveEvent(e)
    ensures RollsOK(s, es, offset) && AllOrdered(Run(s, es, offset)) && Timely(Run(s, es, offset), offset)
    decreases |es|
  {
    AlwaysInOrder(s, es, offset);
    hide Tick, Reset, AllOrdered, Timely, RollOK, Clocked, Midnight;
    if es != [] {
      assert ActiveEvent(es[0]);
      NextTimely(s, es[0], offset);
      NextOrdered(s, es[0], offset);
      ActiveRunsInOrder(Next(s, es[0], offset), es[1..], offset);
    }
  }

  lemma NextTimely(s: State, e: Event, offset: int)
    requires Timely(s, offset) && ActiveEvent(e)
    ensures Timely(Next(s, e, offset), offset) && (e.TickE? ==> RollOK(Clocked(s, e.now), Midnight(e.now, offset)))
  {
    hide Timely, Tick, Reset, Clocked, RollOK, Midnight;
    match e
    case TickE(now, cs, gone) => TickTimely(s, now, cs, gone, offset);
    case ResetE(at) => ResetTimely(s, at, offset);
  }

  lemma StartTimely(offset: int)
    ensures Timely(INITIAL, offset)
  {
  }

  /** A session in use at midnight is split there: the finished day's part ends at the end of the
      day, the new day's part starts at the same moment, for the same application. */
  lemma MidnightSplit(s: State, now: int, offset: int, mac: Mac)
    requires Timely(s, offset) && s.last.Some? && s.last.value < now <= s.last.value + GAP_RESET
    requires Midnight(now, offset) != s.day.value.date && InUse(s.day.value, s.devs, mac, Midnight(now, offset))
    ensures var r := Rolled(Clocked(s, now), now, offset);
      var before, after := r.past[|s.past|].lists, r.day.value.lists;
      && |r.past| == |s.past| + 1 && mac in before && mac in after && before[mac] != [] && |after[mac]| == 1
      && before[mac][|before[mac]| - 1].end == s.day.value.date + DAY == after[mac][0].start
      && before[mac][|before[mac]| - 1].app == after[mac][0].app && r.devs[mac].open
  {
    MidnightOf(s.last.value, now, offset);
    var d, mid := s.day.value, Midnight(now, offset);
    hide Midnight, WithinDay, DevsOK;
    assert mac in d.lists && Cut(d.lists[mac], s.devs[mac], mid) == LastTo(d.lists[mac], mid);
  }

  // ----- A run that breaks the order -----

  const DEVICE: Mac := "m"

  function Show(app: string): seq<Decision> { [Decision(DEVICE, app, None, None, None)] }

  /** One device, with an application shown that was never active. */
  function Showing(last: int, date: int, app: string, l: seq<Session>): State {
    State(Some(last), Some(Day(date, map[DEVICE := l])), map[DEVICE := Dev(app, true, None)], [])
  }

  function Forgotten(date: int, l: seq<Session>): State { State(None, Some(Day(date, map[DEVICE := l])), map[], []) }

  /** A tick with one decision, once the clock and the day are settled. */
  lemma TickOne(s: State, s1: State, app: string, now: int, offset: int, d: Day, dev: Dev)
    requires s1 == Rolled(Clocked(s, now), now, offset) && s1.day.Some? && s1.devs.Keys <= {DEVICE}
    requires (d, dev) == Decided(s1.day.value, DevOf(s1.devs, DEVICE), Show(app)[0], now, offset)
    ensures Tick(s, now, Show(app), {}, offset) == s1.(day := Some(d), devs := map[DEVICE := dev])
  {
    hide Rolled, Clocked, Decided, Midnight;
    DecidedOne(s1, Show(app), now, offset);
    var s2 := s1.(day := Some(d), devs := s1.devs[DEVICE := dev]);
    assert Show(app)[1..] == [];
    NoneDecided(s2, now, offset);
    assert s2.devs == map[DEVICE := dev];
    assert Remaining(s2.devs, {}) == s2.devs;
  }

  lemma ShowFirst(now: int, date: int, offset: int, app: string)
    requires date == Midnight(now, offset) && app != ""
    ensures Tick(INITIAL, now, Show(app), {}, offset) == Showing(now, date, app, [Session(app, Unix(now), Unix(now))])
  {
    DecideFirst(now, date, offset, app);
    hide Midnight, Unix, Decided;
    var s1 := State(Some(now), Some(Day(date, map[])), map[], []);
    assert s1 == Rolled(Clocked(INITIAL, now), now, offset);
    var d := Day(date, map[DEVICE := [Session(app, Unix(now), Unix(now))]]);
    TickOne(INITIAL, s1, app, now, offset, d, Dev(app, true, None));
  }

  lemma DecideFirst(now: int, date: int, offset: int, app: string)
    requires date == Midnight(now, offset) && app != ""
    ensures Decided(Day(date, map[]), Dev("", false, None), Show(app)[0], now, offset) ==
            (Day(date, map[DEVICE := [Session(app, Unix(now), Unix(now))]]), Dev(app, true, None))
  {
    MidnightOf(now, now, offset);
    hide Midnight, Unix;
    var u := Unix(now);
    var l := [Session(app, u, u)];
    assert Opened([], app, u, date) == l;
    assert Extended(l, u) == l;
    hide Opened, Extended;
    var day := Day(date, map[]);
    var d := day.(lists := map[DEVICE := l]);
    assert HasRoom(day, DEVICE) && ListOf(day, DEVICE) == [] && Put(day, DEVICE, l) == d && Put(d, DEVICE, l) == d;
    assert Switched(day, Dev("", false, None), Show(app)[0], now, offset) == (d, Dev(app, true, None));
  }

  lemma ResetShown(last: int, date: int, app: string, l: seq<Session>, at: int)
    ensures Reset(Showing(last, date, app, l), at) == Forgotten(date, Extended(l, Unix(at)))
  {
    hide Extended, Unix;
    var d := Day(date, map[DEVICE := l]);
    assert ClosedAll(d, map[DEVICE := Dev(app, true, None)], at).lists == map[DEVICE := Extended(l, Unix(at))];
  }

  /** Another application is shown while the last session ends in the future. */
  lemma ShowOther(now: int, date: int, offset: int, app: string, l: seq<Session>, e: int)
    requires date == Midnight(now, offset) && app != "" && 0 < |l| < MAX_SESSIONS
    requires l[|l| - 1].app != app && l[|l| - 1].end == e && Unix(now) <= e
    ensures Tick(Forgotten(date, l), now, Show(app), {}, offset) == Showing(now, date, app, l + [Session(app, e, e)])
  {
    MidnightOf(now, now, offset);
    hide Midnight, Unix;
    var day := Day(date, map[DEVICE := l]);
    var s := Forgotten(date, l);
    var s1 := s.(last := Some(now));
    assert s1 == Rolled(Clocked(s, now), now, offset);
    var l2 := l + [Session(app, e, e)];
    assert Opened(l, app, Unix(now), date) == l2;
    assert Extended(l2, Unix(now)) == l2;
    var d, dev := day.(lists := map[DEVICE := l2]), Dev(app, true, None);
    assert ListOf(day, DEVICE) == l && HasRoom(day, DEVICE) && Put(day, DEVICE, l2) == d;
    assert Switched(day, Dev("", false, None), Show(app)[0], now, offset) == (d, dev);
    assert Put(d, DEVICE, l2) == d;
    TickOne(s, s1, app, now, offset, d, dev);
  }

  lemma ShowOn(last: int, now: int, date: int, offset: int, app: string, l: seq<Session>)
    requires last < now <= last + GAP_RESET && date == Midnight(now, offset) && app != ""
    requires l != [] && Unix(now) <= l[|l| - 1].end
    ensures Tick(Showing(last, date, app, l), now, Show(app), {}, offset) == Showing(now, date, app, l)
  {
    hide Midnight, Unix;
    var s := Showing(last, date, app, l);
    var s1 := s.(last := Some(now));
    assert s1 == Rolled(Clocked(s, now), now, offset);
    assert Extended(l, Unix(now)) == l;
    var d, dev := s.day.value, Dev(app, true, None);
    assert Put(d, DEVICE, l) == d;
    TickOne(s, s1, app, now, offset, d, dev);
  }

  lemma CutLate(last: int, now: int, date: int, mid: int, offset: int, app: string, l: seq<Session>)
    requires last < now <= last + GAP_RESET && mid == Midnight(now, offset) && date != mid && app != ""
    requires l != [] && mid <= l[|l| - 1].end
    ensures Tick(Showing(last, date, app, l), now, [], {}, offset).past == [Day(date, map[DEVICE := LastTo(l, mid)])]
  {
    hide Midnight, LastTo;
    var s := Showing(last, date, app, l);
    var s0 := Clocked(s, now);
    assert s0 == s.(last := Some(now));
    assert Cut(l, Dev(app, true, None), mid) == LastTo(l, mid);
    assert CutDay(s.day.value, s.devs, mid).lists == map[DEVICE := LastTo(l, mid)];
    NoneDecided(Rolled(s0, now, offset), now, offset);
  }

  /** A finished session that ends before it starts. */
  predicate Backwards(s: State, i: nat, mac: Mac, k: nat) {
    && i < |s.past| && mac in s.past[i].lists && k < |s.past[i].lists[mac]|
    && s.past[i].lists[mac][k].end < s.past[i].lists[mac][k].start
  }

  lemma Breaks(a: int, b: int, c: int, d: int, e: int, day: int, far: int) returns (es: seq<Event>)
    requires a < c < d <= c + GAP_RESET && d < e <= d + GAP_RESET
    requires Midnight(a, 0) == Midnight(c, 0) == Midnight(d, 0) == day && Midnight(e, 0) == day + DAY
    requires Unix(b) == far && Unix(a) <= far && Unix(c) <= far && Unix(d) <= far && day + DAY < far
    ensures Backwards(Run(INITIAL, es, 0), 0, DEVICE, 1)
  {
    hide Midnight, Unix, Tick, Reset;
    var ta, tc, td, te := TickE(a, Show("a"), {}), TickE(c, Show("b"), {}), TickE(d, Show("b"), {}), TickE(e, [], {});
    es := [ta, ResetE(b), tc, td, te];
    var start := [Session("a", Unix(a), Unix(a))];
    var first, second := Session("a", Unix(a), far), Session("b", far, far);
    ShowFirst(a, day, 0, "a");
    ResetShown(a, day, "a", start, b);
    assert Extended(start, far) == [first];
    ShowOther(c, day, 0, "b", [first], far);
    assert [first] + [second] == [first, second];
    ShowOn(c, d, day, 0, "b", [first, second]);
    CutLate(d, e, day, day + DAY, 0, "b", [first, second]);
    RunFive(ta, ResetE(b), tc, td, te);
  }

  lemma RunCons(s: State, e: Event, es: seq<Event>)
    ensures Run(s, [e] + es, 0) == Run(Next(s, e, 0), es, 0)
  {
    assert ([e] + es)[1..] == es;
  }

  lemma RunFive(a: Event, b: Event, c: Event, d: Event, e: Event)
    ensures Run(INITIAL, [a, b, c, d, e], 0) == Next(Next(Next(Next(Next(INITIAL, a, 0), b, 0), c, 0), d, 0), e, 0)
  {
    hide Next;
    var s1 := Next(INITIAL, a, 0);
    var s2 := Next(s1, b, 0);
    var s3 := Next(s2, c, 0);
    RunCons(INITIAL, a, [b, c, d, e]);
    RunCons(s1, b, [c, d, e]);
    RunCons(s2, c, [d, e]);
    RunCons(s3, d, [e]);
    RunCons(Next(s3, d, 0), e, []);
    assert [a] + [b, c, d, e] == [a, b, c, d, e] && [b] + [c, d, e] == [b, c, d, e] && [c] + [d, e] == [c, d, e];
    assert [d] + [e] == [d, e] && [e] + [] == [e];
  }

  /** A run whose roll-over finds such a session.  Two minutes before midnight an application is
      shown that was never active, which only the experimental engine does, on a start event alone;
      the clock jumps three days ahead and back, and another one is shown: at midnight its session
      ends before it starts. */
  lemma JumpsCanBreakOrder()
    ensures exists es: seq<Event>, i: nat, k: nat :: Backwards(Run(INITIAL, es, 0), i, DEVICE, k)
  {
    var day := 20000 * DAY;
    var t := day + DAY - 120;
    var a, b, c, d, e := t * SECOND, (t + 3 * DAY) * SECOND, (t + 10) * SECOND, (t + 90) * SECOND, (t + 150) * SECOND;
    hide Tick, Reset, Backwards, Run;
    assert Unix(a) == t && Unix(b) == t + 3 * DAY && Unix(c) == t + 10 && Unix(d) == t + 90 && Unix(e) == t + 150;
    assert Midnight(a, 0) == day && Midnight(c, 0) == day && Midnight(d, 0) == day && Midnight(e, 0) == day + DAY;
    var es := Breaks(a, b, c, d, e, day, t + 3 * DAY);
  }
}
