/**
 Whole runs of the reconciler for one device: ticks, edits by somebody else, and policy
 changes (a tick carries the policy it sees).
 */
module LimitRuns {
  import opened Common
  import opened LimitRules
  import opened LimitController

  datatype Event = Tick(i: TickIn) | Edit(rule: Rule)

  /** The device, the rules file, and the rules that were there at the first adoption or were
      written by an outside edit. */
  datatype Sys = Sys(s: DevState, live: Rule, outside: set<Rule>)

  function Start(live: Rule): Sys { Sys(FRESH, live, {}) }

  function Next(y: Sys, e: Event): Sys {
    match e
    case Edit(r) => Sys(y.s, r, y.outside + {r})
    case Tick(i) =>
      var o := DevTick(y.s, y.live, i);
      Sys(o.s, o.live, if !y.s.adopted && o.s.adopted then y.outside + {y.live} else y.outside)
  }

  function Run(y: Sys, es: seq<Event>): Sys {
    if es == [] then y else Next(Run(y, es[..|es| - 1]), es[|es| - 1])
  }

  /** Rules are read from the file within their bounds, whoever wrote them and however an apply
      that failed left them. */
  predicate ValidEvent(e: Event) {
    match e
    case Edit(r) => ValidRule(r)
    case Tick(i) => i.now.Valid() && ValidRule(i.fate.torn)
  }

  predicate ValidSys(y: Sys) {
    ValidRule(y.live) && (y.s.adopted ==> ValidRule(y.s.base) && ValidRule(y.s.lastObserved))
  }

  lemma DesiredValid(base: Rule, i: TickIn)
    requires ValidRule(base) && i.now.Valid()
    ensures ValidRule(Desired(base, i))
  {
    var q, ws := if i.policy then i.quota else None, if i.policy then i.windows else [];
    EffectiveMeaning(base, VerdictOf(q, i.usedDay, i.usedMonth), ws, i.now);
  }

  lemma ValidNext(y: Sys, e: Event)
    requires ValidSys(y) && ValidEvent(e)
    ensures ValidSys(Next(y, e))
  {
    hide Desired, Plan, After;
    if e.Tick? {
      var s1 := Adopt(y.s, y.live);
      var desired := Desired(s1.base, e.i);
      DesiredValid(s1.base, e.i);
      PlanReaches(s1.lastObserved, Target(s1.lastObserved, desired, e.i));
    }
  }

  // ----- The base is never the controller's own rule -----

  /** The tick reads the rules file after an apply that failed. */
  predicate Rereads(y: Sys, i: TickIn) { var o := DevTick(y.s, y.live, i); o.applied && !o.ok ==> i.reread }

  ghost predicate RereadsAll(y: Sys, es: seq<Event>) {
    es != [] ==>
      var e := es[|es| - 1];
      RereadsAll(y, es[..|es| - 1]) && ValidEvent(e) && (e.Tick? ==> Rereads(Run(y, es[..|es| - 1]), e.i))
  }

  predicate Traced(y: Sys) {
    y.s.adopted ==> y.s.base in y.outside && (y.live == y.s.lastObserved || y.live in y.outside)
  }

  lemma TracedStep(y: Sys, e: Event)
    requires Traced(y) && ValidSys(y) && ValidEvent(e) && (e.Tick? ==> Rereads(y, e.i))
    ensures Traced(Next(y, e))
  {
    if e.Tick? {
      var s1 := Adopt(y.s, y.live);
      var desired := Desired(s1.base, e.i);
      DesiredValid(s1.base, e.i);
      PlanReaches(s1.lastObserved, Target(s1.lastObserved, desired, e.i));
    }
  }

  /** Over every run of ticks, edits and policy changes, with applies that fail or stop halfway,
      the base is a rule that was there at the first adoption or that somebody else wrote, as long
      as the file can be read after an apply that failed. */
  lemma {:induction false} BaseIsNeverOwnRule(live: Rule, es: seq<Event>)
    requires ValidRule(live) && RereadsAll(Start(live), es)
    ensures Traced(Run(Start(live), es)) && ValidSys(Run(Start(live), es))
  {
    hide Traced, ValidSys, Rereads, ValidEvent;
    if es != [] {
      BaseIsNeverOwnRule(live, es[..|es| - 1]);
      TracedStep(Run(Start(live), es[..|es| - 1]), es[|es| - 1]);
      ValidNext(Run(Start(live), es[..|es| - 1]), es[|es| - 1]);
    } else {
      StartTraced(live);
    }
  }

  lemma StartTraced(live: Rule)
    requires ValidRule(live)
    ensures Traced(Start(live)) && ValidSys(Start(live))
  {
  }

  /** Without the read after the apply, a rule that a failed apply left behind is taken for somebody
      else's just when it differs from the rule seen before. In terms of a run that was traced until
      then: the next tick that reads the file has a base that somebody else wrote exactly if the rule
      left behind is the one seen before, or one that somebody else wrote. */
  lemma UnreadFailureBecomesBase(y: Sys, i: TickIn, j: TickIn)
    requires Traced(y) && ValidSys(y) && ValidEvent(Tick(i)) && i.rulesOK && j.rulesOK
    requires DevTick(y.s, y.live, i).applied && !DevTick(y.s, y.live, i).ok && !i.reread
    requires Wanted(Next(y, Tick(i)).s, j)
    ensures var seen := Adopt(y.s, y.live);
      var torn := Next(y, Tick(i));
      var next := Next(torn, Tick(j));
      && next.s.base == (if torn.live == seen.lastObserved then seen.base else torn.live)
      && (next.s.base in next.outside <==> torn.live == seen.lastObserved || torn.live in torn.outside)
  {
  }

  // ----- Runs in which every apply finishes -----

  /** The tick brings the device to a rule other than the one it wanted last. */
  predicate Reconciles(y: Sys, i: TickIn) {
    Wanted(y.s, i) && i.rulesOK && Desired(Adopt(y.s, y.live).base, i) != Adopt(y.s, y.live).lastDesired
  }

  /** If the tick reconciles, it can do all of it and no action fails. */
  predicate Finishes(y: Sys, i: TickIn) {
    Reconciles(y, i) ==>
      var s1 := Adopt(y.s, y.live);
      !Partial(s1.lastObserved, Desired(s1.base, i), i) && DevTick(y.s, y.live, i).ok
  }

  /** Every apply of the run finished in full. */
  ghost predicate AllFinish(y: Sys, es: seq<Event>) {
    es != [] ==>
      var e := es[|es| - 1];
      AllFinish(y, es[..|es| - 1]) && ValidEvent(e) && (e.Tick? ==> Finishes(Run(y, es[..|es| - 1]), e.i))
  }

  predicate Settled(y: Sys) {
    ValidSys(y) && (y.s.adopted ==> y.s.lastDesired == y.s.lastObserved)
  }

  /** A tick that finishes keeps things settled; with the file readable it leaves the desired rule in
      force for a device in the controller's care. */
  lemma FinishedTick(y: Sys, i: TickIn)
    requires Settled(y) && ValidEvent(Tick(i)) && Finishes(y, i)
    ensures var n := Next(y, Tick(i));
      && Settled(n)
      && (Wanted(y.s, i) && i.rulesOK ==>
            && n.s.adopted && n.live == n.s.lastObserved == Desired(n.s.base, i)
            && n.s.base == (if y.s.adopted && y.live == y.s.lastObserved then y.s.base else y.live))
      && (!Wanted(y.s, i) ==> n.s == y.s && n.live == y.live)
  {
    var s1 := Adopt(y.s, y.live);
    var desired := Desired(s1.base, i);
    DesiredValid(s1.base, i);
    PlanReaches(s1.lastObserved, desired);
  }

  lemma {:induction false} SettledRun(live: Rule, es: seq<Event>)
    requires ValidRule(live) && AllFinish(Start(live), es)
    ensures Settled(Run(Start(live), es))
  {
    hide Finishes;
    if es != [] {
      var n := |es| - 1;
      SettledRun(live, es[..n]);
      if es[n].Tick? {
        FinishedTick(Run(Start(live), es[..n]), es[n].i);
      }
    }
  }

  lemma LastTick(live: Rule, es: seq<Event>, i: TickIn)
    requires ValidRule(live) && AllFinish(Start(live), es + [Tick(i)])
    ensures var y := Run(Start(live), es);
      Settled(y) && ValidEvent(Tick(i)) && Finishes(y, i) && Run(Start(live), es + [Tick(i)]) == Next(y, Tick(i))
  {
    var all := es + [Tick(i)];
    assert all[..|all| - 1] == es;
    SettledRun(live, es);
    hide Finishes, Settled, Next;
  }

  /** In every run in which each apply finished, after a tick that can read the file it holds, for a
      device with a policy, the rule that follows from base, quota and windows; that is the base
      itself when nothing overrides it. */
  lemma LiveRuleIsEffective(live: Rule, es: seq<Event>, i: TickIn)
    requires ValidRule(live) && AllFinish(Start(live), es + [Tick(i)]) && i.policy && i.rulesOK
    ensures var y := Run(Start(live), es + [Tick(i)]);
      var v := VerdictOf(i.quota, i.usedDay, i.usedMonth);
      && y.live == EffectiveRule(y.s.base, v, i.windows, i.now).rule
      && (NoOverride(v, i.windows, i.now) ==> y.live == y.s.base)
  {
    LastTick(live, es, i);
    var before := Run(Start(live), es);
    FinishedTick(before, i);
    var y := Next(before, Tick(i));
    if NoOverride(VerdictOf(i.quota, i.usedDay, i.usedMonth), i.windows, i.now) {
      EffectiveWithoutOverride(y.s.base, VerdictOf(i.quota, i.usedDay, i.usedMonth), i.windows, i.now);
    }
  }

  /** The live rule itself, in such runs: with `i` the first window that covers now, or none, a device is
      blocked exactly if base, that window or a block quota of which a limit is reached says so; else its
      limits are those of the window or the base, and the stricter ones of these and the throttle if a
      throttle quota has a limit reached. */
  lemma LiveRuleExactly(live: Rule, es: seq<Event>, i: TickIn, w: int)
    requires ValidRule(live) && AllFinish(Start(live), es + [Tick(i)]) && i.policy && i.rulesOK
    requires FirstOrNone(i.windows, i.now, w)
    ensures var y := Run(Start(live), es + [Tick(i)]);
      var over := Exceeded(i.quota, i.usedDay, i.usedMonth);
      var down := if w >= 0 then MbpsToKbit(i.windows[w].downMbps) else y.s.base.down;
      var up := if w >= 0 then MbpsToKbit(i.windows[w].upMbps) else y.s.base.up;
      && (y.live.blocked <==>
          y.s.base.blocked || (over && i.quota.value.action == "block") || (w >= 0 && i.windows[w].block))
      && (y.live.blocked ==> y.live.SameLimit(y.s.base))
      && (!y.live.blocked ==>
          && y.live.down == (if over then StricterKbit(down, ThrottleTo(i.quota.value.throttleDown, 1000)) else down)
          && y.live.up == (if over then StricterKbit(up, ThrottleTo(i.quota.value.throttleUp, 500)) else up))
  {
    LiveRuleIsEffective(live, es, i);
    LastTick(live, es, i);
    var y := Run(Start(live), es + [Tick(i)]);
    hide AllFinish, Run, EffectiveRule, MbpsToKbit, Exceeded, FirstOrNone, VerdictOf, StricterKbit, ThrottleTo,
      Finishes, Settled;
    EffectiveExactly(y.s.base, i.quota, i.usedDay, i.usedMonth, i.windows, i.now, w);
  }

  /** A policy that is taken away leaves no trace: the next tick that can read the file puts the
      base back. */
  lemma ClearedPolicyRestoresBase(live: Rule, es: seq<Event>, i: TickIn)
    requires ValidRule(live) && AllFinish(Start(live), es + [Tick(i)]) && !i.policy && i.rulesOK
    ensures var before, y := Run(Start(live), es), Run(Start(live), es + [Tick(i)]);
      before.s.adopted && before.live == before.s.lastObserved ==>
        y.live == y.s.base == before.s.base && y.outside == before.outside
  {
    LastTick(live, es, i);
    var before := Run(Start(live), es);
    FinishedTick(before, i);
    if Wanted(before.s, i) {
      EffectiveWithoutOverride(Adopt(before.s, before.live).base, VerdictOf(None, i.usedDay, i.usedMonth), [], i.now);
    }
  }

  /** After a tick that took care of the device, any tick that asks for the same rule changes nothing
      and issues no apply, whatever the time, the traffic and the policy are by then. */
  lemma QuietTick(live: Rule, es: seq<Event>, i: TickIn, j: TickIn)
    requires ValidRule(live) && AllFinish(Start(live), es + [Tick(i)]) && Wanted(Run(Start(live), es).s, i) && i.rulesOK
    requires Desired(Run(Start(live), es + [Tick(i)]).s.base, j) == Desired(Run(Start(live), es + [Tick(i)]).s.base, i)
    ensures var y := Run(Start(live), es + [Tick(i)]);
      var later := DevTick(y.s, y.live, j);
      !later.applied && later.s == y.s && later.live == y.live
  {
    LastTick(live, es, i);
    FinishedTick(Run(Start(live), es), i);
  }
}
