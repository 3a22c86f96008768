/**
 The foreground timeline (fg_model.go): per day and device a list of sessions, opened, merged,
 extended, closed and split at midnight as the shown application changes. Which application is
 shown is an input. Clocks are in nanoseconds, sessions in whole seconds.
 */
module FgTimeline {
  import opened Common

  const SECOND := 1_000_000_000
  const DAY := 86400
  const PAUSE_HOLD := 30
  const GAP_RESET := 90 * SECOND
  const TICK := 10 * SECOND
  const MERGE_GAP := 120
  const MAX_SESSIONS := 600
  const MAX_DEVICES := 128

  type Mac = string

  function Unix(t: int): int { t / SECOND }

  /** Local midnight, with a fixed offset from UTC in seconds. */
  function Midnight(t: int, offset: int): int { (Unix(t) + offset) / DAY * DAY - offset }

  datatype Session = Session(app: string, start: int, end: int)

  /** A day is named by its midnight. */
  datatype Day = Day(date: int, lists: map<Mac, seq<Session>>)

  /** `active` is when the shown application was last active, if ever. */
  datatype Dev = Dev(shown: string, open: bool, active: Option<int>)

  /** What is decided for a device in a tick: the application to show, since when it has been
      active, when it and the one shown before were last active. */
  datatype Decision = Decision(mac: Mac, shown: string, since: Option<int>, active: Option<int>,
                               prevActive: Option<int>)

  datatype State = State(last: Option<int>, day: Option<Day>, devs: map<Mac, Dev>, past: seq<Day>)

  const INITIAL := State(None, None, map[], [])

  function ListOf(d: Day, mac: Mac): seq<Session> { if mac in d.lists then d.lists[mac] else [] }

  // ----- Sessions -----

  function Length(s: Session): int { s.end - s.start }

  /** The first of the shortest among the first `n`. */
  function Shortest(l: seq<Session>, n: nat): (k: nat)
    requires 1 <= n <= |l|
    ensures k < n
  {
    if n == 1 then 0
    else if Length(l[n - 1]) < Length(l[Shortest(l, n - 1)]) then n - 1
    else Shortest(l, n - 1)
  }

  /** The last session may still be open and is never dropped. */
  function DropShortest(l: seq<Session>): seq<Session> {
    if |l| < 2 then l else
      var k := Shortest(l, |l| - 1);
      l[..k] + l[k + 1..]
  }

  method DropShortestOf(l: seq<Session>) returns (r: seq<Session>)
    ensures r == DropShortest(l)
  {
    if |l| < 2 {
      return l;
    }
    var k := 0;
    for i := 1 to |l| - 1
      invariant k == Shortest(l, i)
    {
      if l[i].end - l[i].start < l[k].end - l[k].start {
        k := i;
      }
    }
    return l[..k] + l[k + 1..];
  }

  function LastTo(l: seq<Session>, end: int): seq<Session>
    requires l != []
  {
    l[..|l| - 1] + [l[|l| - 1].(end := end)]
  }

  /** Moves the end of the last session on, never back. */
  function Extended(l: seq<Session>, end: int): seq<Session> {
    if l == [] then l else LastTo(l, Max(l[|l| - 1].end, end))
  }

  /** Where a session that is to start at `st` starts: not before midnight, not in the last one. */
  function StartAt(l: seq<Session>, st: int, mid: int): int {
    if l != [] then Max(Max(st, mid), l[|l| - 1].end) else Max(st, mid)
  }

  /** The same application after a short gap goes on in its last session. */
  predicate Merges(l: seq<Session>, app: string, st: int) {
    l != [] && l[|l| - 1].app == app && st - l[|l| - 1].end <= MERGE_GAP
  }

  function Opened(l: seq<Session>, app: string, st: int, mid: int): seq<Session> {
    var at := StartAt(l, st, mid);
    if Merges(l, app, at) then l
    else (if |l| >= MAX_SESSIONS then DropShortest(l) else l) + [Session(app, at, at)]
  }

  // ----- One device -----

  predicate HasRoom(d: Day, mac: Mac) { mac in d.lists || |d.lists| < MAX_DEVICES }

  function Put(d: Day, mac: Mac, l: seq<Session>): Day { d.(lists := d.lists[mac := l]) }

  function CloseOne(d: Day, dev: Dev, mac: Mac, end: int): Day {
    if dev.open && ListOf(d, mac) != [] then Put(d, mac, Extended(ListOf(d, mac), Unix(end))) else d
  }

  /** A change of what is shown closes one session and opens another. */
  function Switched(d: Day, dev: Dev, c: Decision, now: int, offset: int): (Day, Dev) {
    if c.shown == dev.shown then (d, dev) else
      var d1 := if dev.shown != "" then CloseOne(d, dev, c.mac, c.prevActive.GetOr(now)) else d;
      var dev1 := dev.(shown := c.shown, open := if dev.shown != "" then false else dev.open);
      if c.shown == "" || !HasRoom(d1, c.mac) then (d1, dev1)
      else
        var since := c.since.GetOr(now);
        var start := if since > now then now else since;
        (Put(d1, c.mac, Opened(ListOf(d1, c.mac), c.shown, Unix(start), Midnight(now, offset))), dev1.(open := true))
  }

  function Decided(d: Day, dev: Dev, c: Decision, now: int, offset: int): (Day, Dev) {
    var r := Switched(d, dev, c, now, offset);
    var dev2 := r.1.(active := c.active);
    if c.shown != "" && r.1.open && ListOf(r.0, c.mac) != [] then
      (Put(r.0, c.mac, Extended(ListOf(r.0, c.mac), Unix(c.active.GetOr(now)))), dev2)
    else (r.0, dev2)
  }

  function DevOf(devs: map<Mac, Dev>, mac: Mac): Dev { if mac in devs then devs[mac] else Dev("", false, None) }

  function DecidedAll(s: State, cs: seq<Decision>, now: int, offset: int): State
    requires s.day.Some?
    decreases |cs|
  {
    if cs == [] then s else
      var r := Decided(s.day.value, DevOf(s.devs, cs[0].mac), cs[0], now, offset);
      DecidedAll(s.(day := Some(r.0), devs := s.devs[cs[0].mac := r.1]), cs[1..], now, offset)
  }

  // ----- All devices -----

  /** Where the session of a device ends at a reset. */
  function EndAt(dev: Dev, at: int): int { if dev.active.Some? && dev.active.value < at then dev.active.value else at }

  function ClosedAll(d: Day, devs: map<Mac, Dev>, at: int): Day {
    d.(lists := map mac | mac in d.lists ::
      if mac in devs && devs[mac].open then Extended(d.lists[mac], Unix(EndAt(devs[mac], at))) else d.lists[mac])
  }

  function Reset(s: State, at: int): State {
    s.(last := None, devs := map[], day := if s.day.None? then None else Some(ClosedAll(s.day.value, s.devs, at)))
  }

  /** In use at midnight: shown, and the last session reaches midnight or nearly so. */
  predicate UsedAt(l: seq<Session>, dev: Dev, mid: int) {
    dev.open && dev.shown != "" && l != [] && l[|l| - 1].end >= mid - PAUSE_HOLD
  }

  /** An open session ends at midnight if in use then, and nowhere after it. */
  function Cut(l: seq<Session>, dev: Dev, mid: int): seq<Session> {
    if UsedAt(l, dev, mid) || (dev.open && l != [] && l[|l| - 1].end > mid) then LastTo(l, mid) else l
  }

  predicate InUse(d: Day, devs: map<Mac, Dev>, mac: Mac, mid: int) {
    mac in devs && UsedAt(ListOf(d, mac), devs[mac], mid)
  }

  function CutDay(d: Day, devs: map<Mac, Dev>, mid: int): Day {
    d.(lists := map mac | mac in d.lists :: if mac in devs then Cut(d.lists[mac], devs[mac], mid) else d.lists[mac])
  }

  function GoOn(l: seq<Session>, mid: int): seq<Session>
    requires l != []
  {
    [Session(l[|l| - 1].app, mid, Max(mid, l[|l| - 1].end))]
  }

  /** The new day: sessions in use go on from midnight. */
  function Reopened(d: Day, devs: map<Mac, Dev>, mid: int): map<Mac, seq<Session>> {
    map mac | mac in d.lists && InUse(d, devs, mac, mid) :: GoOn(d.lists[mac], mid)
  }

  function Rolled(s: State, now: int, offset: int): State {
    var mid := Midnight(now, offset);
    if s.day.None? then s.(day := Some(Day(mid, map[])))
    else if s.day.value.date == mid then s
    else
      var d := s.day.value;
      s.(past := s.past + [CutDay(d, s.devs, mid)],
         day := Some(Day(mid, Reopened(d, s.devs, mid))),
         devs := map mac | mac in s.devs :: s.devs[mac].(open := InUse(d, s.devs, mac, mid)))
  }

  /** Time that stands still or goes back, or a long gap, starts afresh. */
  function Clocked(s: State, now: int): State {
    var s1 := if s.last.None? then s
              else if now <= s.last.value then Reset(s, s.last.value)
              else if now - s.last.value > GAP_RESET then Reset(s, s.last.value + TICK)
              else s;
    s1.(last := Some(now))
  }

  function Tick(s: State, now: int, cs: seq<Decision>, gone: set<Mac>, offset: int): State {
    var s1 := Rolled(Clocked(s, now), now, offset);
    var s2 := DecidedAll(s1, cs, now, offset);
    s2.(devs := Remaining(s2.devs, gone))
  }

  /** Devices without traffic for long are forgotten, unless something is shown for them. */
  function Remaining(devs: map<Mac, Dev>, gone: set<Mac>): map<Mac, Dev> {
    map mac | mac in devs && !(mac in gone && devs[mac].shown == "") :: devs[mac]
  }

  // ----- The timeline -----

  class Timeline {
    const offset: int
    var last: Option<int>
    var day: Option<Day>
    var devs: map<Mac, Dev>
    var past: seq<Day>

    function Now(): State
      reads this
    {
      State(last, day, devs, past)
    }

    constructor (off: int)
      ensures Now() == INITIAL && offset == off
    {
      offset, last, day, devs, past := off, None, None, map[], [];
    }

    method CloseSession(mac: Mac, end: int)
      requires mac in devs
      modifies this
      ensures last == old(last) && past == old(past) && devs == old(devs)[mac := old(devs)[mac].(open := false)]
      ensures day == if old(day).None? then None else Some(CloseOne(old(day).value, old(devs)[mac], mac, end))
    {
      if devs[mac].open && day.Some? {
        var l := ListOf(day.value, mac);
        if l != [] {
          var s := l[|l| - 1];
          if Unix(end) > s.end {
            s := s.(end := Unix(end));
          }
          day := Some(Put(day.value, mac, l[..|l| - 1] + [s]));
        }
      }
      devs := devs[mac := devs[mac].(open := false)];
    }

    method OpenSession(mac: Mac, app: string, start: int)
      requires mac in devs && day.Some? && last.Some?
      modifies this
      ensures last == old(last) && past == old(past)
      ensures var d := old(day).value;
        var room := HasRoom(d, mac);
        && day == Some(if room then Put(d, mac, Opened(ListOf(d, mac), app, Unix(start), Midnight(last.value, offset)))
            else d)
        && devs == (if room then old(devs)[mac := old(devs)[mac].(open := true)] else old(devs))
    {
      var d := day.value;
      if mac !in d.lists && |d.lists| >= MAX_DEVICES {
        return;
      }
      var l := ListOf(d, mac);
      var st := Unix(start);
      var mid := Midnight(last.value, offset);
      if st < mid {
        st := mid;
      }
      devs := devs[mac := devs[mac].(open := true)];
      if l != [] {
        if st < l[|l| - 1].end {
          st := l[|l| - 1].end;
        }
        if l[|l| - 1].app == app && st - l[|l| - 1].end <= MERGE_GAP {
          day := Some(Put(d, mac, l));
          return;
        }
      }
      if |l| >= MAX_SESSIONS {
        l := DropShortestOf(l);
      }
      day := Some(Put(d, mac, l + [Session(app, st, st)]));
    }

    method ExtendSession(mac: Mac, end: int)
      requires day.Some?
      modifies this`day
      ensures var d := old(day).value;
        day == Some(if ListOf(d, mac) != [] then Put(d, mac, Extended(ListOf(d, mac), Unix(end))) else d)
    {
      var l := ListOf(day.value, mac);
      if l != [] {
        day := Some(Put(day.value, mac, l[..|l| - 1] + [l[|l| - 1].(end := Max(l[|l| - 1].end, Unix(end)))]));
      }
    }

    method Decide(c: Decision)
      requires day.Some? && last.Some? && c.mac in devs
      modifies this
      ensures last == old(last) && past == old(past)
      ensures var r := Decided(old(day).value, old(devs)[c.mac], c, last.value, offset);
        day == Some(r.0) && devs == old(devs)[c.mac := r.1]
    {
      hide Opened, Extended, Midnight, HasRoom, Put, CloseOne, ListOf;
      var now := last.value;
      var prev := devs[c.mac].shown;
      if c.shown != prev {
        if prev != "" {
          CloseSession(c.mac, c.prevActive.GetOr(now));
        }
        devs := devs[c.mac := devs[c.mac].(shown := c.shown)];
        if c.shown != "" {
          var start := c.since.GetOr(now);
          if start > now {
            start := now;
          }
          OpenSession(c.mac, c.shown, start);
        }
      }
      assert (day.value, devs[c.mac]) == Switched(old(day).value, old(devs)[c.mac], c, now, offset);
      if c.shown != "" && devs[c.mac].open {
        ExtendSession(c.mac, c.active.GetOr(now));
      }
      devs := devs[c.mac := devs[c.mac].(active := c.active)];
    }

    method ResetAll(at: int)
      modifies this
      ensures Now() == Reset(old(Now()), at)
    {
      if day.Some? {
        var d := day.value;
        var todo := devs.Keys;
        while todo != {}
          invariant todo <= devs.Keys && devs == old(devs) && past == old(past) && day == Some(d)
                    && d.date == old(day).value.date
          invariant d.lists.Keys == old(day).value.lists.Keys
          invariant forall mac <- d.lists ::
                      d.lists[mac] == if mac in todo then old(day).value.lists[mac]
                        else ClosedAll(old(day).value, old(devs), at).lists[mac]
          decreases |todo|
        {
          var mac :| mac in todo;
          var dev := devs[mac];
          var l := ListOf(d, mac);
          if dev.open && l != [] {
            d := Put(d, mac, Extended(l, Unix(EndAt(dev, at))));
            day := Some(d);
          }
          todo := todo - {mac};
        }
        assert d.lists == ClosedAll(old(day).value, old(devs), at).lists;
      }
      devs, last := map[], None;
    }

    method CutSession(l: seq<Session>, dev: Dev, mid: int) returns (cut: seq<Session>, use: bool)
      ensures cut == Cut(l, dev, mid) && use == UsedAt(l, dev, mid)
      ensures l == [] ==> !use
    {
      cut, use := l, false;
      if dev.open && l != [] {
        var end := l[|l| - 1].end;
        if end > mid {
          cut := LastTo(cut, mid);
        }
        if dev.shown != "" && end >= mid - PAUSE_HOLD {
          cut := LastTo(cut, mid);
          use := true;
        }
      }
    }

    method RollDay(now: int)
      modifies this
      ensures Now() == Rolled(old(Now()), now, offset)
    {
      var mid := Midnight(now, offset);
      if day.None? {
        day := Some(Day(mid, map[]));
        return;
      }
      if day.value.date == mid {
        return;
      }
      hide Midnight, RolledSoFar, UsedAt, Cut, GoOn;
      hide CutSoFar, AgainSoFar;
      ghost var d0, devs0 := day.value, devs;
      var d := day.value;
      var again: map<Mac, seq<Session>> := map[];
      var todo := devs.Keys;
      RollStart(d0, devs0, mid);
      while todo != {}
        invariant last == old(last) && past == old(past) && todo <= devs.Keys
        invariant RolledSoFar(d0, devs0, mid, todo, d, devs, again)
        decreases |todo|
      {
        var mac :| mac in todo;
        var dev := devs[mac];
        var l := ListOf(d, mac);
        var cut, use := CutSession(l, dev, mid);
        RollStep(d0, devs0, mid, todo, d, devs, again, mac);
        if mac in d.lists {
          d := Put(d, mac, cut);
        }
        if use {
          again := again[mac := GoOn(l, mid)];
        }
        devs := devs[mac := dev.(open := use)];
        todo := todo - {mac};
      }
      RollEnd(d0, devs0, mid, d, devs, again);
      past := past + [d];
      day := Some(Day(mid, again));
    }

    method Step(now: int, cs: seq<Decision>, gone: set<Mac>)
      modifies this
      ensures Now() == Tick(old(Now()), now, cs, gone, offset)
    {
      hide Rolled, Reset, Decided, DecidedAll;
      if last.Some? {
        var d := now - last.value;
        if d <= 0 {
          ResetAll(last.value);
        } else if d > GAP_RESET {
          ResetAll(last.value + TICK);
        }
      }
      last := Some(now);
      RollDay(now);
      RolledHas(Clocked(old(Now()), now), now, offset);
      ghost var s1 := Now();
      for i := 0 to |cs|
        invariant day.Some? && last == Some(now)
        invariant DecidedAll(s1, cs, now, offset) == DecidedAll(Now(), cs[i..], now, offset)
      {
        DecidedOne(Now(), cs[i..], now, offset);
        ghost var was := Now();
        if cs[i].mac !in devs {
          devs := devs[cs[i].mac := Dev("", false, None)];
        }
        Decide(cs[i]);
        assert devs == was.devs[cs[i].mac := devs[cs[i].mac]];
        assert cs[i..][1..] == cs[i + 1..];
      }
      assert cs[|cs|..] == [];
      NoneDecided(Now(), now, offset);
      devs := Remaining(devs, gone);
    }
  }

  /** The state of a roll-over when the devices in `todo` are still to come. */
  ghost predicate RolledSoFar(d0: Day, devs0: map<Mac, Dev>, mid: int, todo: set<Mac>, d: Day, devs: map<Mac, Dev>,
                              again: map<Mac, seq<Session>>)
  {
    CutSoFar(d0, devs0, mid, todo, d) && DevsSoFar(d0, devs0, mid, todo, devs)
      && AgainSoFar(d0, devs0, mid, todo, again)
  }

  ghost predicate CutSoFar(d0: Day, devs0: map<Mac, Dev>, mid: int, todo: set<Mac>, d: Day) {
    && d.date == d0.date && d.lists.Keys == d0.lists.Keys
    && forall mac <- d.lists :: d.lists[mac] ==
        if mac in devs0 && mac !in todo then Cut(d0.lists[mac], devs0[mac], mid) else d0.lists[mac]
  }

  ghost predicate DevsSoFar(d0: Day, devs0: map<Mac, Dev>, mid: int, todo: set<Mac>, devs: map<Mac, Dev>) {
    && devs.Keys == devs0.Keys
    && forall mac <- devs :: devs[mac] ==
        if mac in todo then devs0[mac] else devs0[mac].(open := InUse(d0, devs0, mac, mid))
  }

  ghost predicate AgainSoFar(d0: Day, devs0: map<Mac, Dev>, mid: int, todo: set<Mac>, again: map<Mac, seq<Session>>) {
    && (forall mac :: mac in again <==> mac !in todo && mac in d0.lists && InUse(d0, devs0, mac, mid))
    && (forall mac <- again :: d0.lists[mac] != [] && again[mac] == GoOn(d0.lists[mac], mid))
  }

  lemma RollStart(d: Day, devs: map<Mac, Dev>, mid: int)
    ensures RolledSoFar(d, devs, mid, devs.Keys, d, devs, map[])
  {
    hide Cut, GoOn, UsedAt;
  }

  lemma RollStep(d0: Day, devs0: map<Mac, Dev>, mid: int, todo: set<Mac>, d: Day, devs: map<Mac, Dev>,
                 again: map<Mac, seq<Session>>, mac: Mac)
    requires RolledSoFar(d0, devs0, mid, todo, d, devs, again) && mac in todo && mac in devs
    ensures var l, dev := ListOf(d, mac), devs[mac];
      var use := UsedAt(l, dev, mid);
      && (use ==> l != [])
      && RolledSoFar(d0, devs0, mid, todo - {mac},
                     if mac in d.lists then Put(d, mac, Cut(l, dev, mid)) else d,
                     devs[mac := dev.(open := use)], if use then again[mac := GoOn(l, mid)] else again)
  {
    assert ListOf(d, mac) == ListOf(d0, mac) && devs[mac] == devs0[mac];
    assert UsedAt(ListOf(d0, mac), devs0[mac], mid) ==> ListOf(d0, mac) != [];
    hide Cut, GoOn, UsedAt, CutSoFar, DevsSoFar, AgainSoFar;
    CutStep(d0, devs0, mid, todo, d, mac);
    DevsStep(d0, devs0, mid, todo, devs, mac);
    AgainStep(d0, devs0, mid, todo, again, mac);
  }

  lemma CutStep(d0: Day, devs0: map<Mac, Dev>, mid: int, todo: set<Mac>, d: Day, mac: Mac)
    requires CutSoFar(d0, devs0, mid, todo, d) && mac in todo && mac in devs0
    ensures CutSoFar(d0, devs0, mid, todo - {mac},
            if mac in d.lists then Put(d, mac, Cut(ListOf(d0, mac), devs0[mac], mid)) else d)
  {
    hide Cut;
  }

  lemma DevsStep(d0: Day, devs0: map<Mac, Dev>, mid: int, todo: set<Mac>, devs: map<Mac, Dev>, mac: Mac)
    requires DevsSoFar(d0, devs0, mid, todo, devs) && mac in todo && mac in devs0
    ensures DevsSoFar(d0, devs0, mid, todo - {mac}, devs[mac := devs0[mac].(open := InUse(d0, devs0, mac, mid))])
  {
    hide InUse;
  }

  lemma AgainStep(d0: Day, devs0: map<Mac, Dev>, mid: int, todo: set<Mac>, again: map<Mac, seq<Session>>, mac: Mac)
    requires AgainSoFar(d0, devs0, mid, todo, again) && mac in todo && mac in devs0
    ensures InUse(d0, devs0, mac, mid) ==> ListOf(d0, mac) != []
    ensures AgainSoFar(d0, devs0, mid, todo - {mac},
            if InUse(d0, devs0, mac, mid) then again[mac := GoOn(ListOf(d0, mac), mid)] else again)
  {
    hide GoOn;
  }

  lemma RollEnd(d0: Day, devs0: map<Mac, Dev>, mid: int, d: Day, devs: map<Mac, Dev>, again: map<Mac, seq<Session>>)
    requires RolledSoFar(d0, devs0, mid, {}, d, devs, again)
    ensures d == CutDay(d0, devs0, mid) && again == Reopened(d0, devs0, mid)
    ensures devs == map mac | mac in devs0 :: devs0[mac].(open := InUse(d0, devs0, mac, mid))
  {
    hide Cut, GoOn, UsedAt;
    assert d.lists == CutDay(d0, devs0, mid).lists;
  }

  lemma RolledHas(s: State, now: int, offset: int)
    requires s.last == Some(now)
    ensures Rolled(s, now, offset).day.Some? && Rolled(s, now, offset).last == Some(now)
  {
  }

  lemma DecidedOne(s: State, cs: seq<Decision>, now: int, offset: int)
    requires s.day.Some? && cs != []
    ensures var r := Decided(s.day.value, DevOf(s.devs, cs[0].mac), cs[0], now, offset);
      DecidedAll(s, cs, now, offset) == DecidedAll(s.(day := Some(r.0), devs := s.devs[cs[0].mac := r.1]), cs[1..], now,
        offset)
  {
    hide Decided;
  }

  lemma NoneDecided(s: State, now: int, offset: int)
    requires s.day.Some?
    ensures DecidedAll(s, [], now, offset) == s
  {
  }
}
