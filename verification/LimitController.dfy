/**
 The reconciler of the quota and schedule controller (limit_policy.go).  Each minute it reads
 the rules file, takes a rule it did not leave there for the user's own ("base"), and brings
 the file to the rule that quota and windows ask for.
 */
module LimitController {
  import opened Common
  import opened LimitRules
  import opened RateText

  type Mac = string

  const NO_RULE := Rule(0, 0, false)

  datatype DevState = DevState(adopted: bool, base: Rule, lastDesired: Rule, lastObserved: Rule)

  const FRESH := DevState(false, NO_RULE, NO_RULE, NO_RULE)

  // ----- Applying a change through the device actions -----

  datatype Act = RuleSet(down: nat, up: nat) | RuleClear | BlockAdd | BlockDel

  /** The rules file after an action, as the next read sees it. */
  function Effect(a: Act, r: Rule): Rule {
    match a
    case RuleSet(d, u) => Rule(ReadBack(d).GetOr(d), ReadBack(u).GetOr(u), r.blocked)
    case RuleClear => Rule(0, 0, r.blocked)
    case BlockAdd => Rule(r.down, r.up, true)
    case BlockDel => Rule(r.down, r.up, false)
  }

  function LimitActs(from: Rule, to: Rule): seq<Act> {
    if from.SameLimit(to) then [] else if to.down == 0 && to.up == 0 then [RuleClear] else [RuleSet(to.down, to.up)]
  }

  /** Blocking comes first, unblocking last. */
  function Plan(from: Rule, to: Rule): seq<Act> {
    if to.blocked && !from.blocked then [BlockAdd] + LimitActs(from, to)
    else LimitActs(from, to) + (if !to.blocked && from.blocked then [BlockDel] else [])
  }

  function After(acts: seq<Act>, r: Rule): Rule {
    if acts == [] then r else After(acts[1..], Effect(acts[0], r))
  }

  /** How an apply goes: `done` actions succeed; if one fails, whatever it left is `torn`. */
  datatype Fate = Fate(done: nat, torn: Rule)

  datatype Applied = Applied(live: Rule, ok: bool)

  function Execute(acts: seq<Act>, live: Rule, fate: Fate): Applied {
    if fate.done >= |acts| then Applied(After(acts, live), true) else Applied(fate.torn, false)
  }

  lemma LimitActsReach(from: Rule, to: Rule, live: Rule)
    requires live.SameLimit(from) && ValidRule(to)
    ensures After(LimitActs(from, to), live) == Rule(to.down, to.up, live.blocked)
  {
    RateRoundTrip(to.down);
    RateRoundTrip(to.up);
    var acts := LimitActs(from, to);
    if acts != [] {
      assert After(acts, live) == After(acts[1..], Effect(acts[0], live));
    }
  }

  lemma {:induction false} AfterAppend(a: seq<Act>, b: seq<Act>, r: Rule)
    ensures After(a + b, r) == After(b, After(a, r))
  {
    if a == [] {
      assert a + b == b;
    } else {
      assert (a + b)[1..] == a[1..] + b;
      AfterAppend(a[1..], b, Effect(a[0], r));
    }
  }

  lemma AfterOne(a: Act, r: Rule)
    ensures After([a], r) == Effect(a, r)
  {
    assert After([a][1..], Effect(a, r)) == Effect(a, r);
  }

  /** A plan carried out in full brings the file to the target. */
  lemma PlanReaches(from: Rule, to: Rule)
    requires ValidRule(to)
    ensures After(Plan(from, to), from) == to
  {
    if to.blocked && !from.blocked {
      AfterAppend([BlockAdd], LimitActs(from, to), from);
      AfterOne(BlockAdd, from);
      LimitActsReach(from, to, Effect(BlockAdd, from));
    } else {
      LimitActsReach(from, to, from);
      if !to.blocked && from.blocked {
        AfterAppend(LimitActs(from, to), [BlockDel], from);
        AfterOne(BlockDel, Rule(to.down, to.up, true));
      } else {
        assert LimitActs(from, to) + [] == LimitActs(from, to);
      }
    }
  }

  /** However far a plan gets, the device is never open with limits of neither the old nor the
      new rule, and never open with the old limits when it comes out of a block. */
  lemma NeverExposed(from: Rule, to: Rule, n: nat)
    requires ValidRule(to) && n <= |Plan(from, to)|
    ensures var mid := After(Plan(from, to)[..n], from);
      !mid.blocked ==> mid.SameLimit(to) || (mid == from && !from.blocked)
  {
    var plan := Plan(from, to);
    if n == 0 {
      assert plan[..0] == [];
    } else if n == |plan| {
      assert plan[..n] == plan;
      PlanReaches(from, to);
    } else {
      assert n == 1 && |plan| == 2;
      assert plan[..1] == [plan[0]];
      AfterOne(plan[0], from);
    }
  }

  // ----- One device in one tick -----

  datatype TickIn = TickIn(
    rulesOK: bool,            // the rules file could be read at the start of the tick
    policy: bool,             // the device has a policy
    quota: Option<Quota>, windows: seq<Window>, usedDay: nat, usedMonth: nat,
    now: Instant, online: bool,
    fate: Fate,               // how an apply goes
    reread: bool              // the rules file could be read after the apply
  )

  datatype Outcome = Outcome(s: DevState, live: Rule, applied: bool, ok: bool)

  predicate Wanted(s: DevState, i: TickIn) { i.policy || (s.adopted && s.lastDesired != s.base) }

  /** A rule that differs from what was last observed is somebody else's: it becomes the base. */
  function Adopt(s: DevState, live: Rule): DevState {
    if !s.adopted || live != s.lastObserved then DevState(true, live, live, live) else s
  }

  function Desired(base: Rule, i: TickIn): Rule {
    if i.policy then EffectiveRule(base, VerdictOf(i.quota, i.usedDay, i.usedMonth), i.windows, i.now).rule
    else EffectiveRule(base, VerdictOf(None, i.usedDay, i.usedMonth), [], i.now).rule
  }

  /** An offline device can only have its block changed. */
  predicate Partial(cur: Rule, desired: Rule, i: TickIn) { !i.online && !cur.SameLimit(desired) }

  function Target(cur: Rule, desired: Rule, i: TickIn): Rule {
    if Partial(cur, desired, i) then Rule(cur.down, cur.up, desired.blocked) else desired
  }

  function Reconcile(s: DevState, live: Rule, desired: Rule, i: TickIn): Outcome {
    var cur := s.lastObserved;
    var target := Target(cur, desired, i);
    var a := if target != cur then Execute(Plan(cur, target), live, i.fate) else Applied(live, true);
    var observed := if i.reread then a.live else if a.ok then target else cur;
    var settled := a.ok && !Partial(cur, desired, i);
    Outcome(s.(lastObserved := observed, lastDesired := if settled then desired else s.lastDesired),
            a.live, target != cur, a.ok)
  }

  function DevTick(s: DevState, live: Rule, i: TickIn): Outcome {
    if !Wanted(s, i) then Outcome(s, live, false, true) else
      var s1 := if i.rulesOK then Adopt(s, live) else s;
      var desired := Desired(s1.base, i);
      if i.rulesOK && s1.adopted && desired != s1.lastDesired then Reconcile(s1, live, desired, i)
      else Outcome(s1, live, false, true)
  }

  function DevOf(devs: map<Mac, DevState>, m: Mac): DevState { if m in devs then devs[m] else FRESH }

  function LiveOf(live: map<Mac, Rule>, m: Mac): Rule { if m in live then live[m] else NO_RULE }

  /** The controller and the rules file it shares with everybody else. */
  class LimitCtl {
    var devs: map<Mac, DevState>
    var live: map<Mac, Rule>

    constructor (file: map<Mac, Rule>)
      ensures devs == map[] && live == file
    {
      devs, live := map[], file;
    }

    /** Brings one device to its desired rule and notes what is there afterwards. */
    method ReconcileDevice(m: Mac, desired: Rule, i: TickIn) returns (applied: bool)
      requires m in devs
      modifies this
      ensures var r := Reconcile(old(devs)[m], LiveOf(old(live), m), desired, i);
        && devs == old(devs)[m := r.s] && applied == r.applied && LiveOf(live, m) == r.live
        && forall x :: x != m ==> LiveOf(live, x) == LiveOf(old(live), x)
    {
      var s := devs[m];
      var cur, target, partial, ok := s.lastObserved, desired, false, true;
      if !i.online && !cur.SameLimit(desired) {
        target := Rule(cur.down, cur.up, desired.blocked);
        partial := true;
      }
      applied := target != cur;
      if applied {
        var a := Execute(Plan(cur, target), LiveOf(live, m), i.fate);
        live := live[m := a.live];
        ok := a.ok;
      }
      if i.reread {
        s := s.(lastObserved := LiveOf(live, m));
      } else if ok {
        s := s.(lastObserved := target);
      }
      if ok && !partial {
        s := s.(lastDesired := desired);
      }
      devs := devs[m := s];
    }

    /** One round over all devices; `ins` has what the round sees of each of them. */
    method Tick(ins: map<Mac, TickIn>) returns (changed: set<Mac>)
      modifies this
      ensures forall m :: m in ins ==>
        var r := DevTick(DevOf(old(devs), m), LiveOf(old(live), m), ins[m]);
        DevOf(devs, m) == r.s && LiveOf(live, m) == r.live && (m in changed <==> r.applied)
      ensures forall m :: m !in ins ==>
        DevOf(devs, m) == DevOf(old(devs), m) && LiveOf(live, m) == LiveOf(old(live), m) && m !in changed
    {
      changed := {};
      var todo := ins.Keys;
      while todo != {}
        invariant todo <= ins.Keys && changed <= ins.Keys - todo
        invariant forall m :: m !in ins || m in todo ==>
          DevOf(devs, m) == DevOf(old(devs), m) && LiveOf(live, m) == LiveOf(old(live), m)
        invariant forall m :: m in ins && m !in todo ==>
          var r := DevTick(DevOf(old(devs), m), LiveOf(old(live), m), ins[m]);
          DevOf(devs, m) == r.s && LiveOf(live, m) == r.live && (m in changed <==> r.applied)
        decreases todo
      {
        var m :| m in todo;
        todo := todo - {m};
        var i := ins[m];
        var s := DevOf(devs, m);
        if i.policy || (s.adopted && s.lastDesired != s.base) {
          var o := LiveOf(live, m);
          if i.rulesOK && (!s.adopted || o != s.lastObserved) {
            s := DevState(true, o, o, o);
          }
          devs := devs[m := s];
          var desired := Desired(s.base, i);
          if i.rulesOK && s.adopted && desired != s.lastDesired {
            var applied := ReconcileDevice(m, desired, i);
            if applied {
              changed := changed + {m};
            }
          }
        }
      }
    }
  }
}
