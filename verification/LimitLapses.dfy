/**
 Runs of the reconciler in which an apply fails, or is put off because the device is offline: what is
 caught up later, and what is not.
 */
module LimitLapses {
  import opened Common
  import opened LimitRules
  import opened LimitController
  import opened LimitRuns

  predicate AllValid(es: seq<Event>) { forall e <- es :: ValidEvent(e) }

  lemma {:induction false} ValidRun(live: Rule, es: seq<Event>)
    requires ValidRule(live) && AllValid(es)
    ensures ValidSys(Run(Start(live), es))
  {
    hide ValidSys, ValidEvent, Next;
    if es != [] {
      ValidRun(live, es[..|es| - 1]);
      ValidNext(Run(Start(live), es[..|es| - 1]), es[|es| - 1]);
    } else {
      StartTraced(live);
    }
  }

  /** What was seen in the file last is not the rule that was last brought about in full. */
  predicate Halfway(s: DevState) { s.adopted && s.lastObserved != s.lastDesired }

  /** The file is halfway, nobody has edited it since, and the rule wanted is the one brought about last. */
  predicate Overlooks(y: Sys, i: TickIn) {
    Halfway(y.s) && y.live == y.s.lastObserved && Desired(y.s.base, i) == y.s.lastDesired
  }

  /** In every run, whatever failed before: after a tick that reads the file and whose apply, if it makes
      one, finishes, the rule wanted is in force, exactly unless the file was left halfway and the rule
      wanted is again the one that was brought about last. */
  lemma LiveRuleIff(live: Rule, es: seq<Event>, i: TickIn)
    requires ValidRule(live) && AllValid(es) && ValidEvent(Tick(i))
    requires Wanted(Run(Start(live), es).s, i) && i.rulesOK && Finishes(Run(Start(live), es), i)
    ensures var y := Run(Start(live), es);
      var n := Next(y, Tick(i));
      n.live == Desired(n.s.base, i) <==> !Overlooks(y, i)
  {
    ValidRun(live, es);
    TickIff(Run(Start(live), es), i);
  }

  lemma TickIff(y: Sys, i: TickIn)
    requires ValidSys(y) && ValidEvent(Tick(i)) && Wanted(y.s, i) && i.rulesOK && Finishes(y, i)
    ensures var n := Next(y, Tick(i));
      n.live == Desired(n.s.base, i) <==> !Overlooks(y, i)
  {
    var s1 := Adopt(y.s, y.live);
    DesiredValid(s1.base, i);
    PlanReaches(s1.lastObserved, Desired(s1.base, i));
    hide Desired, Plan, After;
  }

  /** The tick starts to bring a rule about and does not get through with it. */
  predicate Breaks(y: Sys, e: Event) { e.Tick? && Reconciles(y, e.i) && !Finishes(y, e.i) }

  /** A file is left halfway only by a tick that did not get through; none has since. */
  lemma {:induction false} LeftHalfway(live: Rule, es: seq<Event>) returns (k: nat)
    requires ValidRule(live) && AllValid(es) && Halfway(Run(Start(live), es).s)
    ensures k < |es| && Breaks(Run(Start(live), es[..k]), es[k])
    ensures var b, y := Run(Start(live), es[..k]), Run(Start(live), es);
      Adopt(b.s, b.live).base == y.s.base && Adopt(b.s, b.live).lastDesired == y.s.lastDesired
    ensures forall m :: k < m < |es| && es[m].Tick? && Reconciles(Run(Start(live), es[..m]), es[m].i) ==>
              Breaks(Run(Start(live), es[..m]), es[m])
  {
    var n := |es| - 1;
    var p, e := Run(Start(live), es[..n]), es[n];
    ValidRun(live, es[..n]);
    if Breaks(p, e) {
      k := n;
      BrokenTick(p, e.i);
    } else {
      HalfwayBefore(p, e);
      k := LeftHalfway(live, es[..n]);
      assert es[..n][..k] == es[..k];
      forall m | k < m < |es| && es[m].Tick? && Reconciles(Run(Start(live), es[..m]), es[m].i)
        ensures Breaks(Run(Start(live), es[..m]), es[m])
      {
        if m < n {
          assert es[..n][..m] == es[..m];
        } else {
          assert false;
        }
      }
    }
  }

  lemma BrokenTick(y: Sys, i: TickIn)
    requires Breaks(y, Tick(i))
    ensures var s1 := Adopt(y.s, y.live);
      Next(y, Tick(i)).s.base == s1.base && Next(y, Tick(i)).s.lastDesired == s1.lastDesired
  {
    hide Desired, Plan, After;
  }

  lemma HalfwayBefore(y: Sys, e: Event)
    requires ValidSys(y) && ValidEvent(e) && !Breaks(y, e) && Halfway(Next(y, e).s)
    ensures Next(y, e).s == y.s && !(e.Tick? && Reconciles(y, e.i))
  {
    if e.Tick? {
      var s1 := Adopt(y.s, y.live);
      DesiredValid(s1.base, e.i);
      PlanReaches(s1.lastObserved, Desired(s1.base, e.i));
      hide Desired, Plan, After;
    }
  }

  /** Offline, a change of limits is put off, and a block is put in place or lifted all the same. */
  lemma OfflineBlocks(y: Sys, i: TickIn)
    requires ValidSys(y) && ValidEvent(Tick(i)) && Reconciles(y, i) && DevTick(y.s, y.live, i).ok && !i.online
    ensures var n := Next(y, Tick(i));
      var d := Desired(n.s.base, i);
      && n.live == (if y.live.SameLimit(d) then d else Rule(y.live.down, y.live.up, d.blocked))
      && n.s.lastObserved == n.live && (y.live.SameLimit(d) ==> n.s.lastDesired == d)
      && (!y.live.SameLimit(d) ==>
          n.s.lastDesired == Adopt(y.s, y.live).lastDesired && n.s.base == Adopt(y.s, y.live).base)
  {
    var s1 := Adopt(y.s, y.live);
    var d := Desired(s1.base, i);
    DesiredValid(s1.base, i);
    PlanReaches(s1.lastObserved, Target(s1.lastObserved, d, i));
    hide Desired, Plan, After;
  }

  predicate AsksFor(y: Sys, js: seq<Event>, d: Rule) {
    forall e <- js :: e.Tick? && ValidEvent(e) && e.i.policy && Desired(y.s.base, e.i) == d
  }

  /** A device that is offline when a window begins to block it, and whose limits the block would change,
      stays blocked when the window is over, for as many ticks as the rule from before the window is
      wanted, online or not. */
  lemma {:induction false} BlockStays(y: Sys, i: TickIn, js: seq<Event>)
    requires Settled(y) && y.s.adopted && y.live == y.s.lastObserved && !y.live.blocked
    requires ValidEvent(Tick(i)) && Reconciles(y, i) && DevTick(y.s, y.live, i).ok && !i.online
    requires Desired(y.s.base, i).blocked && !y.live.SameLimit(Desired(y.s.base, i))
    requires AsksFor(y, js, y.live)
    ensures var n := Run(Next(y, Tick(i)), js);
      && n.live == Rule(y.live.down, y.live.up, true) == n.s.lastObserved
      && n.s == Next(y, Tick(i)).s && n.s.base == y.s.base
    decreases |js|
  {
    OfflineBlocks(y, i);
    hide Desired, DevTick, Settled;
    if js != [] {
      var n := |js| - 1;
      assert AsksFor(y, js[..n], y.live);
      BlockStays(y, i, js[..n]);
      Nothing(Run(Next(y, Tick(i)), js[..n]), js[n].i);
    }
  }

  lemma Nothing(y: Sys, i: TickIn)
    requires y.s.adopted && y.live == y.s.lastObserved && Desired(y.s.base, i) == y.s.lastDesired
    ensures Next(y, Tick(i)) == y
  {
    hide Desired;
  }

  // ----- Such a device -----

  /** A monthly quota is used up and throttles, and a window blocks from Monday to Tuesday. */
  predicate UsedUp(i: TickIn) {
    && i.policy && i.quota == Some(Quota(0.0, 1.0, "throttle", 0.0, 0.0)) && i.usedMonth == 1073741824
    && i.windows == [MONDAY_TEN] && ValidEvent(Tick(i))
  }

  predicate InWindow(i: TickIn) { Covers(MONDAY_TEN, i.now) }

  function UsedUpAt(now: Instant, online: bool): TickIn {
    TickIn(true, true, Some(Quota(0.0, 1.0, "throttle", 0.0, 0.0)), [MONDAY_TEN], 0, 1073741824, now, online,
           Fate(2, NO_RULE), true)
  }

  lemma UsedUpRule(i: TickIn)
    requires UsedUp(i)
    ensures Desired(NO_RULE, i) == if InWindow(i) then Rule(0, 0, true) else Rule(1000, 500, false)
  {
    assert Exceeded(i.quota, i.usedDay, i.usedMonth);
    EffectiveExactly(NO_RULE, i.quota, i.usedDay, i.usedMonth, i.windows, i.now, if InWindow(i) then 0 else -1);
    hide EffectiveRule, VerdictOf, Exceeded, Covers;
  }

  /** The device is throttled, goes offline, and Monday comes: it stays blocked for the rest of the
      month, where it is to be throttled only. */
  lemma MonthBlocked(js: seq<Event>)
    requires forall e <- js :: e.Tick? && UsedUp(e.i) && !InWindow(e.i)
    ensures var es := [Tick(UsedUpAt(Instant(0, 600), true)), Tick(UsedUpAt(Instant(1, 60), false))] + js;
      var y := Run(Start(NO_RULE), es);
      && y.live == Rule(1000, 500, true) && y.s.base == NO_RULE
      && forall e <- js :: Desired(y.s.base, e.i) == Rule(1000, 500, false)
  {
    hide Desired, DevTick, Next, Run, UsedUp, InWindow, Settled;
    var i, j := UsedUpAt(Instant(0, 600), true), UsedUpAt(Instant(1, 60), false);
    var y0 := Start(NO_RULE);
    var y := Throttled(i, j);
    forall e <- js ensures ValidEvent(e) && e.i.policy && Desired(NO_RULE, e.i) == Rule(1000, 500, false) {
      UsedUpRule(e.i);
      UsedUpValid(e.i);
    }
    BlockStays(y, j, js);
    TwoTicks(y0, i, j);
    RunSplit(y0, [Tick(i), Tick(j)], js);
  }

  lemma UsedUpValid(i: TickIn)
    requires UsedUp(i)
    ensures ValidEvent(Tick(i)) && i.policy
  {
  }

  lemma TwoTicks(y: Sys, i: TickIn, j: TickIn)
    ensures Run(y, [Tick(i), Tick(j)]) == Next(Next(y, Tick(i)), Tick(j))
  {
    hide Next;
    var es := [Tick(i), Tick(j)];
    assert es[..1] == [Tick(i)] && es[..1][..0] == [];
    assert Run(y, es[..1]) == Next(Run(y, es[..1][..0]), Tick(i));
  }

  /** Throttled on Sunday, and about to be blocked on Monday. */
  lemma Throttled(i: TickIn, j: TickIn) returns (y: Sys)
    requires i == UsedUpAt(Instant(0, 600), true) && j == UsedUpAt(Instant(1, 60), false)
    ensures y == Next(Start(NO_RULE), Tick(i)) && y.s.adopted && y.s.base == NO_RULE && Settled(y)
    ensures y.live == y.s.lastObserved == Rule(1000, 500, false)
    ensures ValidEvent(Tick(j)) && Reconciles(y, j) && DevTick(y.s, y.live, j).ok && !j.online
    ensures Desired(NO_RULE, j) == Rule(0, 0, true)
  {
    y := Next(Start(NO_RULE), Tick(i));
    Wants(i, j);
    hide Desired, InWindow, Plan, After, Covers;
    PlanReaches(NO_RULE, Rule(1000, 500, false));
    PlanLength(NO_RULE, Rule(1000, 500, false));
    PlanLength(Rule(1000, 500, false), Rule(1000, 500, true));
  }

  lemma Wants(i: TickIn, j: TickIn)
    requires i == UsedUpAt(Instant(0, 600), true) && j == UsedUpAt(Instant(1, 60), false)
    ensures UsedUp(i) && UsedUp(j) && Desired(NO_RULE, i) == Rule(1000, 500, false)
    ensures Desired(NO_RULE, j) == Rule(0, 0, true)
  {
    MondayFromMidnight();
    HitIsCovers(MONDAY_TEN, Instant(1, 60));
    SundayIsOutside();
    hide Desired;
    UsedUpRule(i);
    UsedUpRule(j);
  }

  lemma PlanLength(from: Rule, to: Rule)
    ensures |Plan(from, to)| <= 2
  {
  }

  lemma SundayIsOutside()
    ensures !Covers(MONDAY_TEN, Instant(0, 600))
  {
    assert HhmmToMin("22:00") == Some(22 * 60);
    HitIsCovers(MONDAY_TEN, Instant(0, 600));
  }

  lemma {:induction false} RunSplit(y: Sys, a: seq<Event>, b: seq<Event>)
    ensures Run(y, a + b) == Run(Run(y, a), b)
    decreases |b|
  {
    hide Next;
    if b == [] {
      assert a + b == a;
    } else {
      assert (a + b)[..|a + b| - 1] == a + b[..|b| - 1];
      RunSplit(y, a, b[..|b| - 1]);
    }
  }
}
