/**
 The DNS takeover controller (dns_takeover.go): a forwarder on the hotspot address, redirect
 rules towards it, and a fail-open policy with backoff. Times are in nanoseconds; what scripts,
 sockets and probes answer during a tick is an input of the tick.
 */
module DnsTakeover {
  import opened Common

  const MINUTE := 60_000_000_000
  const BACKOFF_MIN := MINUTE
  const BACKOFF_MAX := 30 * MINUTE
  const HEALTHY_RESET := 10 * MINUTE

  // ----- Health -----

  datatype Health = Health(selfOK: bool, up: int, upErr: int, pkts: int, client: int)

  function HealthOK(h: Health): bool {
    if !h.selfOK then false
    else if h.up >= 20 && h.upErr * 2 >= h.up then false
    else !(h.pkts >= 10 && h.client == 0)
  }

  // ----- Upstreams -----

  datatype Kind = NoKind | Custom | Tether | System

  function At53(a: string): (r: string)
    ensures r != ""
  {
    if ':' in a then "[" + a + "]:53" else a + ":53"
  }

  function FirstOK(hosts: seq<string>, skip: seq<string>, ok: string -> bool): string {
    if hosts == [] then ""
    else if hosts[0] !in skip && ok(At53(hosts[0])) then At53(hosts[0])
    else FirstOK(hosts[1..], skip, ok)
  }

  /** A custom resolver alone if one is set; otherwise the tether's addresses, then the system's. */
  function Choose(custom: string, v4: seq<string>, sys: seq<string>, ok: string -> bool): (string, Kind) {
    if custom != "" then (if ok(custom) then (custom, Custom) else ("", NoKind))
    else if FirstOK(v4, [], ok) != "" then (FirstOK(v4, [], ok), Tether)
    else if FirstOK(sys, v4, ok) != "" then (FirstOK(sys, v4, ok), System)
    else ("", NoKind)
  }

  // ----- A tick's inputs -----

  datatype Stats = Stats(upstream: int, upstreamErrs: int, queries: int)

  /** `failAt` is the clock read while failing open, `applyOK` whether the apply script reports
      success, `removeOK` whether the remove script removes the rules. */
  datatype TickIn = TickIn(now: int, failAt: int, enabled: bool, custom: string,
                           iface: string, v4: seq<string>, v6: seq<string>, sys: seq<string>,
                           openAll: bool, openFirst: bool, ok: string -> bool,
                           self1: bool, self2: bool, applyOK: bool, removeOK: bool,
                           countersRan: bool, countersOK: bool, present: bool, pkts: int, stats: Stats)

  predicate Hotspot(i: TickIn) { i.iface != "" && i.v4 != [] }

  function ListenOn(i: TickIn): seq<string>
    requires Hotspot(i)
  {
    [i.v4[0]] + i.v6
  }

  /** How many addresses a new forwarder listens on; if not all can be had, the first may do. */
  function Opened(i: TickIn): nat
    requires Hotspot(i)
  {
    if i.openAll then |ListenOn(i)| else if |ListenOn(i)| > 1 && i.openFirst then 1 else 0
  }

  predicate SelfOK(i: TickIn) { i.self1 || i.self2 }

  /** What the rules are for; without a v6 listener the v6 addresses are left alone. */
  datatype Sig = Sig(iface: string, listen: string, v4: seq<string>, v6: seq<string>)

  function SigOf(i: TickIn, listeners: nat): Sig
    requires Hotspot(i)
  {
    Sig(i.iface, i.v4[0], i.v4, if listeners == 1 then [] else i.v6)
  }

  // ----- State -----

  datatype Phase = Off | Waiting | Active | FailOpen | Broken | Stopped

  /** `rules` is the external rule set; `listeners` is 0 without a forwarder. */
  datatype State = State(booted: bool, active: bool, healthy: bool, phase: Phase, listeners: nat, listen: seq<string>,
                         upstream: string, kind: Kind, checkedAt: Option<int>, retryAt: Option<int>, backoff: int,
                         healthySince: Option<int>, sig: Option<Sig>, prev: Option<Stats>, prevPkts: int, rules: bool)

  const INITIAL := State(false, false, false, Off, 0, [], "", NoKind, None, None, BACKOFF_MIN, None, None, None, 0,
    false)

  function SetPhase(s: State, p: Phase): State {
    s.(phase := p, healthy := if p != Active then false else s.healthy)
  }

  function Remove(s: State, removeOK: bool): State {
    s.(active := false, sig := None, prev := None, rules := s.rules && !removeOK)
  }

  function Stop(s: State, p: Phase, removeOK: bool): State {
    var s1 := s.(listeners := 0, listen := []);
    SetPhase(if s.active then Remove(s1, removeOK) else s1, p)
  }

  function Backoff(b: int): int { if b < BACKOFF_MAX then Min(2 * b, BACKOFF_MAX) else b }

  function FailedOpen(s: State, i: TickIn): State {
    var s1 := s.(retryAt := Some(i.failAt + s.backoff), backoff := Backoff(s.backoff), healthySince := None);
    SetPhase(if s.active then Remove(s1, i.removeOK) else s1, FailOpen)
  }

  function Applied(s: State, sig: Sig, i: TickIn): State {
    if i.applyOK then
      s.(active := true, healthy := true, phase := Active, sig := Some(sig), prev := None, healthySince := Some(i.now),
        rules := true)
    else SetPhase(Remove(s.(rules := true), i.removeOK), Broken)
  }

  // ----- A tick -----

  function Since(s: State, i: TickIn): Health {
    if s.prev.None? then Health(SelfOK(i), 0, 0, -1, 0)
    else
      var p := s.prev.value;
      Health(SelfOK(i), i.stats.upstream - p.upstream, i.stats.upstreamErrs - p.upstreamErrs,
             if i.countersOK && s.prevPkts >= 0 && i.pkts >= s.prevPkts then i.pkts - s.prevPkts else -1,
             i.stats.queries - p.queries)
  }

  /** The health check of an active controller. */
  function Checked(s: State, i: TickIn): State {
    var s1 := s.(prev := Some(i.stats), prevPkts := if i.countersOK then i.pkts else -1);
    if !HealthOK(Since(s, i)) then FailedOpen(s1, i)
    else
      s1.(healthy := true, phase := Active,
          backoff := if s.healthySince.Some? && i.now - s.healthySince.value > HEALTHY_RESET then BACKOFF_MIN
            else s.backoff)
  }

  predicate Cooling(s: State, i: TickIn) { s.retryAt.Some? && i.now < s.retryAt.value }

  predicate RulesMissing(i: TickIn) { i.countersRan && i.countersOK && !i.present }

  /** With a forwarder and an upstream. */
  function Served(s: State, i: TickIn): State
    requires Hotspot(i)
  {
    var sig := SigOf(i, s.listeners);
    if !s.active then
      if Cooling(s, i) then SetPhase(s, FailOpen)
      else if !SelfOK(i) then SetPhase(s, Broken)
      else Applied(s, sig, i)
    else if s.sig != Some(sig) || RulesMissing(i) then Applied(s, sig, i)
    else Checked(s, i)
  }

  predicate MustChoose(s: State, i: TickIn) {
    || s.upstream == "" || (i.custom != "" && s.upstream != i.custom) || (i.custom == "" && s.kind == Custom)
    || (s.kind != Tether && (s.checkedAt.None? || i.now - s.checkedAt.value > MINUTE))
  }

  function Chosen(s: State, i: TickIn): State {
    if !MustChoose(s, i) then s else
      var c := Choose(i.custom, i.v4, i.sys, i.ok);
      var s1 := s.(checkedAt := Some(i.now));
      if c.0 != "" then s1.(upstream := c.0, kind := c.1) else s1
  }

  function Routed(s: State, i: TickIn): State
    requires Hotspot(i)
  {
    var s1 := Chosen(s, i);
    if s1.upstream == "" then FailedOpen(s1, i) else Served(s1, i)
  }

  /** Without its forwarder, before a new one is opened. */
  function Closed(s: State): State { s.(listeners := 0, listen := [], upstream := "", kind := NoKind) }

  function Tick(s: State, i: TickIn): State {
    var s0 := s.(booted := true);
    if !i.enabled || !Hotspot(i) then
      Stop(if s.booted then s0 else Remove(s0, i.removeOK), if i.enabled then Waiting else Off, i.removeOK)
    else if s.listeners == 0 || s.listen != ListenOn(i) then
      if Opened(i) == 0 then FailedOpen(Closed(s0), i)
      else Routed(Closed(s0).(listeners := Opened(i), listen := ListenOn(i)), i)
    else Routed(s0, i)
  }

  /** A user action clears the backoff and ticks at once. */
  function Act(s: State, i: TickIn): State { Tick(s.(retryAt := None, backoff := BACKOFF_MIN), i) }

  function ShutDown(s: State, removeOK: bool): State { Stop(s, Stopped, removeOK) }

  // ----- The controller -----

  class Takeover {
    var booted: bool
    var active: bool
    var healthy: bool
    var phase: Phase
    var listeners: nat
    var listen: seq<string>
    var upstream: string
    var kind: Kind
    var checkedAt: Option<int>
    var retryAt: Option<int>
    var backoff: int
    var healthySince: Option<int>
    var ruleSig: Option<Sig>
    var prev: Option<Stats>
    var prevPkts: int
    var rules: bool

    function Now(): State
      reads this
    {
      State(booted, active, healthy, phase, listeners, listen, upstream, kind, checkedAt, retryAt, backoff,
        healthySince,
            ruleSig, prev, prevPkts, rules)
    }

    constructor ()
      ensures Now() == INITIAL
    {
      booted, active, healthy, phase := false, false, false, Off;
      listeners, listen, upstream, kind := 0, [], "", NoKind;
      checkedAt, retryAt, backoff, healthySince := None, None, BACKOFF_MIN, None;
      ruleSig, prev, prevPkts, rules := None, None, 0, false;
    }

    method RemoveRules(removeOK: bool)
      modifies this
      ensures Now() == Remove(old(Now()), removeOK)
    {
      if removeOK {
        rules := false;
      }
      active, ruleSig, prev := false, None, None;
    }

    method SetState(p: Phase)
      modifies this
      ensures Now() == SetPhase(old(Now()), p)
    {
      phase := p;
      if p != Active {
        healthy := false;
      }
    }

    method StopAll(p: Phase, removeOK: bool)
      modifies this
      ensures Now() == Stop(old(Now()), p, removeOK)
    {
      hide Remove, SetPhase;
      var wasActive := active;
      listeners, listen := 0, [];
      if wasActive {
        RemoveRules(removeOK);
      }
      SetState(p);
    }

    method GoFailOpen(i: TickIn)
      modifies this
      ensures Now() == FailedOpen(old(Now()), i)
    {
      hide Remove, SetPhase;
      var wasActive := active;
      retryAt := Some(i.failAt + backoff);
      if backoff < BACKOFF_MAX {
        backoff := backoff * 2;
        if backoff > BACKOFF_MAX {
          backoff := BACKOFF_MAX;
        }
      }
      healthySince := None;
      if wasActive {
        RemoveRules(i.removeOK);
      }
      SetState(FailOpen);
    }

    /** A failed apply may leave rules behind, so they are removed. */
    method Apply(sig: Sig, i: TickIn)
      modifies this
      ensures Now() == Applied(old(Now()), sig, i)
    {
      hide Remove, SetPhase;
      rules := true;
      if !i.applyOK {
        RemoveRules(i.removeOK);
        SetState(Broken);
        return;
      }
      active, healthy, phase, ruleSig, prev, healthySince := true, true, Active, Some(sig), None, Some(i.now);
    }

    method FindFirst(hosts: seq<string>, skip: seq<string>, ok: string -> bool) returns (r: string)
      ensures r == FirstOK(hosts, skip, ok)
    {
      for k := 0 to |hosts|
        invariant FirstOK(hosts, skip, ok) == FirstOK(hosts[k..], skip, ok)
      {
        if hosts[k] !in skip {
          var up := At53(hosts[k]);
          if ok(up) {
            return up;
          }
        }
      }
      return "";
    }

    method ChooseUpstream(i: TickIn) returns (r: (string, Kind))
      ensures r == Choose(i.custom, i.v4, i.sys, i.ok)
    {
      if i.custom != "" {
        return if i.ok(i.custom) then (i.custom, Custom) else ("", NoKind);
      }
      var up := FindFirst(i.v4, [], i.ok);
      if up != "" {
        return (up, Tether);
      }
      up := FindFirst(i.sys, i.v4, i.ok);
      return if up != "" then (up, System) else ("", NoKind);
    }

    method HealthCheck(i: TickIn)
      modifies this
      ensures Now() == Checked(old(Now()), i)
    {
      hide FailedOpen, HealthOK;
      var h := Health(SelfOK(i), 0, 0, -1, 0);
      if prev.Some? {
        var p := prev.value;
        h := h.(up := i.stats.upstream - p.upstream, upErr := i.stats.upstreamErrs - p.upstreamErrs,
          client := i.stats.queries - p.queries);
        if i.countersOK && prevPkts >= 0 && i.pkts >= prevPkts {
          h := h.(pkts := i.pkts - prevPkts);
        }
      }
      prev := Some(i.stats);
      prevPkts := if i.countersOK then i.pkts else -1;
      if !HealthOK(h) {
        GoFailOpen(i);
        return;
      }
      healthy, phase := true, Active;
      if healthySince.Some? && i.now - healthySince.value > HEALTHY_RESET {
        backoff := BACKOFF_MIN;
      }
    }

    method DoTick(i: TickIn)
      modifies this
      ensures Now() == Tick(old(Now()), i)
    {
      hide Stop, FailedOpen, Routed, Remove, Opened, ListenOn;
      var first := !booted;
      booted := true;
      if !i.enabled {
        if first {
          RemoveRules(i.removeOK);
        }
        StopAll(Off, i.removeOK);
        return;
      }
      if i.iface == "" || i.v4 == [] {
        if first {
          RemoveRules(i.removeOK);
        }
        StopAll(Waiting, i.removeOK);
        return;
      }
      var want := ListenOn(i);
      if listeners == 0 || listen != want {
        listeners, listen, upstream, kind := 0, [], "", NoKind;
        var got := Opened(i);
        if got == 0 {
          GoFailOpen(i);
          return;
        }
        listeners, listen := got, want;
      }
      Route(i);
    }

    method PickUpstream(i: TickIn)
      modifies this
      ensures Now() == Chosen(old(Now()), i)
    {
      hide Choose;
      if MustChoose(Now(), i) {
        var c := ChooseUpstream(i);
        checkedAt := Some(i.now);
        if c.0 != "" {
          upstream, kind := c.0, c.1;
        }
      }
    }

    method Route(i: TickIn)
      requires Hotspot(i)
      modifies this
      ensures Now() == Routed(old(Now()), i)
    {
      hide FailedOpen, Applied, SetPhase, Checked, Chosen, SigOf;
      PickUpstream(i);
      if upstream == "" {
        GoFailOpen(i);
        return;
      }
      if retryAt.Some? && i.now < retryAt.value && !active {
        SetState(FailOpen);
        return;
      }
      var self := i.self1;
      if !self {
        self := i.self2;
      }
      var sig := SigOf(i, listeners);
      if !active {
        if !self {
          SetState(Broken);
          return;
        }
        Apply(sig, i);
        return;
      }
      if ruleSig != Some(sig) {
        Apply(sig, i);
        return;
      }
      if i.countersRan && i.countersOK && !i.present {
        Apply(sig, i);
        return;
      }
      HealthCheck(i);
    }

    method SetConfig(i: TickIn)
      modifies this
      ensures Now() == Act(old(Now()), i)
    {
      hide Tick;
      retryAt, backoff := None, BACKOFF_MIN;
      DoTick(i);
    }

    method Shutdown(removeOK: bool)
      modifies this
      ensures Now() == ShutDown(old(Now()), removeOK)
    {
      StopAll(Stopped, removeOK);
    }
  }
}
