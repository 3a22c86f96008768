/** Runs of the takeover controller: rules without a controller behind them do not stay. */
module DnsTakeoverRuns {
  import opened Common
  import opened DnsTakeover

  /** At every boundary: rules only while active, active only with a forwarder, an upstream and
      known rules, the three signs of being active agree, and the backoff is within its bounds. */
  predicate Sound(s: State) {
    && (s.rules ==> s.active)
    && (s.active ==> s.booted && s.listeners > 0 && s.upstream != "" && s.sig.Some?)
    && (s.active <==> s.phase == Active) && (s.active <==> s.healthy)
    && BACKOFF_MIN <= s.backoff <= BACKOFF_MAX
  }

  // ----- One step -----

  lemma FailedOpenSound(s: State, i: TickIn)
    requires (s.rules ==> s.active) && BACKOFF_MIN <= s.backoff <= BACKOFF_MAX && i.removeOK
    ensures Sound(FailedOpen(s, i)) && !FailedOpen(s, i).active && FailedOpen(s, i).backoff >= s.backoff
    ensures FailedOpen(s, i).retryAt == Some(i.failAt + s.backoff)
  {
  }

  lemma ServedSound(s: State, i: TickIn)
    requires Sound(s.(phase := if s.active then Active else FailOpen, healthy := s.active)) && Hotspot(i)
            && s.upstream != ""
    requires s.listeners > 0 && s.booted && i.removeOK
    ensures Sound(Served(s, i))
    ensures Served(s, i).active ==>
            Served(s, i).sig == Some(SigOf(i, s.listeners)) && Served(s, i).listeners == s.listeners
    ensures Served(s, i).active && !s.active ==> !Cooling(s, i) && SelfOK(i) && i.applyOK
  {
    hide SigOf, HealthOK, Since;
    if s.active && s.sig == Some(SigOf(i, s.listeners)) && !RulesMissing(i) && !HealthOK(Since(s, i)) {
      FailedOpenSound(s.(prev := Some(i.stats), prevPkts := if i.countersOK then i.pkts else -1), i);
    }
  }

  /** The state before the upstream is chosen, with a forwarder. */
  predicate Ready(s: State) {
    && (s.rules ==> s.active) && (s.active ==> s.sig.Some?) && BACKOFF_MIN <= s.backoff <= BACKOFF_MAX
    && s.listeners > 0 && s.booted && (s.active <==> s.phase == Active) && (s.active <==> s.healthy)
  }

  lemma RoutedSound(s: State, i: TickIn)
    requires Ready(s) && Hotspot(i) && i.removeOK
    ensures Sound(Routed(s, i))
    ensures Routed(s, i).active ==>
            Routed(s, i).sig == Some(SigOf(i, s.listeners)) && Routed(s, i).listeners == s.listeners
    ensures Routed(s, i).active && !s.active ==> !Cooling(s, i) && SelfOK(i) && i.applyOK
  {
    hide SigOf, Choose, MustChoose, Served, FailedOpen;
    var s1 := Chosen(s, i);
    if s1.upstream == "" {
      FailedOpenSound(s1, i);
    } else {
      ServedSound(s1, i);
    }
  }

  /** Every tick keeps the boundary conditions, and goes from inactive to active only when
      enabled, past the retry time, with an upstream and a self-test passed in this tick. */
  lemma TickSound(s: State, i: TickIn)
    requires Sound(s) && i.removeOK
    ensures var r := Tick(s, i);
      && Sound(r)
      && (r.active && !s.active ==>
          i.enabled && Hotspot(i) && !Cooling(s, i) && r.upstream != "" && SelfOK(i) && i.applyOK)
  {
    hide Routed, Opened, ListenOn, FailedOpen;
    var s0 := s.(booted := true);
    if i.enabled && Hotspot(i) {
      if s.listeners == 0 || s.listen != ListenOn(i) {
        var c := Closed(s0);
        if Opened(i) == 0 {
          FailedOpenSound(c, i);
        } else {
          RoutedSound(c.(listeners := Opened(i), listen := ListenOn(i)), i);
        }
      } else {
        RoutedSound(s0, i);
      }
    }
  }

  lemma RoutedKeepsListen(s: State, i: TickIn)
    requires Hotspot(i)
    ensures Routed(s, i).listen == s.listen
  {
    hide Choose, MustChoose, FailedOpen, Served;
    FailedKeepsListen(Chosen(s, i), i);
    ServedKeepsListen(Chosen(s, i), i);
  }

  lemma ServedKeepsListen(s: State, i: TickIn)
    requires Hotspot(i)
    ensures Served(s, i).listen == s.listen
  {
    hide SigOf, HealthOK, Since, FailedOpen, RulesMissing, Cooling;
    FailedKeepsListen(s.(prev := Some(i.stats), prevPkts := if i.countersOK then i.pkts else -1), i);
  }

  lemma FailedKeepsListen(s: State, i: TickIn)
    ensures FailedOpen(s, i).listen == s.listen
  {
  }

  lemma CurrentListen(i: TickIn, n: nat)
    requires Hotspot(i)
    ensures ListenOn(i) == [i.v4[0]] + i.v6 && SigOf(i, n) == Sig(i.iface, i.v4[0], i.v4, if n == 1 then [] else i.v6)
  {
  }

  /** While active after a tick, the takeover was asked for, the forwarder was opened for the
      hotspot's present addresses and the rules are for them. */
  lemma ActiveIsCurrent(s: State, i: TickIn)
    requires Sound(s) && i.removeOK && Tick(s, i).active
    ensures i.enabled && Hotspot(i)
    ensures var r := Tick(s, i);
      && r.listen == [i.v4[0]] + i.v6
      && r.sig == Some(Sig(i.iface, i.v4[0], i.v4, if r.listeners == 1 then [] else i.v6))
  {
    CurrentListen(i, Tick(s, i).listeners);
    hide Routed, Opened, ListenOn, SigOf, FailedOpen;
    var s0 := s.(booted := true);
    if i.enabled && Hotspot(i) {
      if s.listeners == 0 || s.listen != ListenOn(i) {
        var c := Closed(s0);
        if Opened(i) == 0 {
          FailedOpenSound(c, i);
        } else {
          var t := c.(listeners := Opened(i), listen := ListenOn(i));
          RoutedSound(t, i);
          RoutedKeepsListen(t, i);
        }
      } else {
        RoutedSound(s0, i);
        RoutedKeepsListen(s0, i);
      }
    }
  }

  // ----- Runs -----

  datatype Event = TickE(i: TickIn) | ActE(i: TickIn) | ShutdownE(removeOK: bool)

  function Next(s: State, e: Event): State {
    match e
    case TickE(i) => Tick(s, i)
    case ActE(i) => Act(s, i)
    case ShutdownE(ok) => ShutDown(s, ok)
  }

  function Run(s: State, es: seq<Event>): State
    decreases |es|
  {
    if es == [] then s else Run(Next(s, es[0]), es[1..])
  }

  predicate Removes(e: Event) { if e.ShutdownE? then e.removeOK else e.i.removeOK }

  /** In every run from a start without leftover rules, with a remove script that works, the
      boundary conditions hold at the end; a shutdown leaves no rules and no forwarder. */
  lemma {:induction false} AlwaysSound(s: State, es: seq<Event>)
    requires Sound(s) && forall e <- es :: Removes(e)
    ensures Sound(Run(s, es))
    ensures es != [] && es[|es| - 1].ShutdownE? ==> !Run(s, es).rules && !Run(s, es).active && Run(s, es).listeners == 0
    decreases |es|
  {
    hide Tick;
    if es != [] {
      var e := es[0];
      assert Removes(e);
      match e {
        case TickE(i) => TickSound(s, i);
        case ActE(i) => TickSound(s.(retryAt := None, backoff := BACKOFF_MIN), i);
        case ShutdownE(ok) =>
      }
      AlwaysSound(Next(s, e), es[1..]);
    }
  }

  lemma StartSound()
    ensures Sound(INITIAL)
  {
  }

  // ----- The retry time -----

  /** Ticks only, clocks not going back, all of them before `until`. */
  predicate QuietTicks(es: seq<Event>, from: int, until: int)
    decreases |es|
  {
    es != [] ==>
      && es[0].TickE? && es[0].i.removeOK && from <= es[0].i.now <= es[0].i.failAt && es[0].i.now < until
      && QuietTicks(es[1..], es[0].i.failAt, until)
  }

  lemma StaysCool(s: State, i: TickIn, from: int, b: int)
    requires Sound(s) && !s.active && i.removeOK && b <= s.backoff && s.retryAt.Some? && from + b <= s.retryAt.value
    requires from <= i.now <= i.failAt && i.now < from + b
    ensures var r := Tick(s, i);
      Sound(r) && !r.active && b <= r.backoff && r.retryAt.Some? && from + b <= r.retryAt.value
  {
    TickSound(s, i);
    hide Routed, Opened, ListenOn, FailedOpen;
    var s0 := s.(booted := true);
    if i.enabled && Hotspot(i) {
      if s.listeners == 0 || s.listen != ListenOn(i) {
        var c := Closed(s0);
        if Opened(i) == 0 {
          FailedOpenSound(c, i);
        } else {
          RoutedStays(c.(listeners := Opened(i), listen := ListenOn(i)), i);
        }
      } else {
        RoutedStays(s0, i);
      }
    }
  }

  lemma RoutedStays(s: State, i: TickIn)
    requires Ready(s) && Hotspot(i) && i.removeOK && !s.active && Cooling(s, i)
    ensures var r := Routed(s, i);
      r.backoff >= s.backoff && (r.retryAt == s.retryAt || r.retryAt == Some(i.failAt + s.backoff))
  {
    hide Choose, MustChoose, SigOf, HealthOK, Since;
  }

  /** After failing open at `from` with backoff `b`, nothing but a user action makes the
      controller active again before `from + b`. */
  lemma {:induction false} RetryRespected(s: State, es: seq<Event>, from: int, at: int, b: int)
    requires Sound(s) && !s.active && b <= s.backoff && s.retryAt.Some? && from + b <= s.retryAt.value
    requires from <= at && QuietTicks(es, at, from + b)
    ensures !Run(s, es).active && !Run(s, es).rules
    decreases |es|
  {
    hide Tick;
    if es != [] {
      var i := es[0].i;
      StaysCool(s, i, from, b);
      RetryRespected(Tick(s, i), es[1..], from, i.failAt, b);
    }
  }

  lemma RoutedCools(s: State, i: TickIn)
    requires Ready(s) && Hotspot(i) && i.removeOK && s.active && !Routed(s, i).active && Routed(s, i).phase == FailOpen
    ensures Routed(s, i).retryAt == Some(i.failAt + s.backoff) && s.backoff <= Routed(s, i).backoff
  {
    hide Choose, MustChoose, SigOf, HealthOK, Since;
  }

  /** Failing open sets such a retry time. */
  lemma FailingOpenCools(s: State, i: TickIn)
    requires Sound(s) && i.removeOK && s.active && !Tick(s, i).active && Tick(s, i).phase == FailOpen
    ensures Tick(s, i).retryAt == Some(i.failAt + s.backoff) && s.backoff <= Tick(s, i).backoff
  {
    hide Routed, Opened, ListenOn, FailedOpen;
    var s0 := s.(booted := true);
    if i.enabled && Hotspot(i) {
      if s.listeners == 0 || s.listen != ListenOn(i) {
        var c := Closed(s0);
        if Opened(i) == 0 {
          FailedOpenSound(c, i);
        } else {
          RoutedCools(c.(listeners := Opened(i), listen := ListenOn(i)), i);
        }
      } else {
        RoutedCools(s0, i);
      }
    }
  }

  function Backoffs(k: nat): int { if k == 0 then BACKOFF_MIN else Backoff(Backoffs(k - 1)) }

  function Doubled(k: nat): nat { if k == 0 then 1 else 2 * Doubled(k - 1) }

  /** The backoff after `k` failures in a row: 1, 2, 4, 8, 16, 30, 30 ... minutes. */
  lemma {:induction false} BackoffDoubles(k: nat)
    ensures Backoffs(k) == Min(Doubled(k) * MINUTE, BACKOFF_MAX) && Doubled(k) >= 1
  {
    if k > 0 {
      BackoffDoubles(k - 1);
    }
  }

  /** The tick fails open: no forwarder, no upstream, or the health check of rules in place fails. */
  predicate Fails(s: State, i: TickIn) {
    && i.enabled && Hotspot(i)
    && var t := Opening(s, i);
      || t.listeners == 0 || Chosen(t, i).upstream == ""
      || (t.active && t.sig == Some(SigOf(i, t.listeners)) && !RulesMissing(i) && !HealthOK(Since(t, i)))
  }

  /** Only a tick that fails open moves the backoff up; ending in the fail-open state while the retry
      time has not come does not. */
  lemma FailingDoubles(s: State, i: TickIn)
    requires Sound(s) && i.removeOK && Tick(s, i).phase == FailOpen
    ensures Tick(s, i).backoff == if Fails(s, i) then Backoff(s.backoff) else s.backoff
  {
    hide Routed, Opened, ListenOn, SigOf, Chosen, Sound, HealthOK, Since, RulesMissing;
    if i.enabled && Hotspot(i) {
      var t := Opening(s, i);
      if t.listeners > 0 {
        OpeningReady(s, i);
        RoutedFails(t, i);
      }
      OpeningKeepsBackoff(s, i);
      TickStarts(s, i);
    }
  }

  lemma OpeningKeepsBackoff(s: State, i: TickIn)
    requires Hotspot(i)
    ensures Opening(s, i).backoff == s.backoff
  {
    hide ListenOn, Opened;
  }

  /** A tick on a hotspot goes on from the opened forwarder, or fails open at once. */
  lemma TickStarts(s: State, i: TickIn)
    requires i.enabled && Hotspot(i)
    ensures Tick(s, i) == if Opening(s, i).listeners > 0 then Routed(Opening(s, i), i)
            else FailedOpen(Closed(s.(booted := true)), i)
  {
    hide Routed, FailedOpen;
  }

  lemma RoutedFails(t: State, i: TickIn)
    requires Ready(t) && Hotspot(i) && i.removeOK && Routed(t, i).phase == FailOpen
    ensures Routed(t, i).backoff ==
            if Chosen(t, i).upstream == ""
               || (t.active && t.sig == Some(SigOf(i, t.listeners)) && !RulesMissing(i) && !HealthOK(Since(t, i)))
            then Backoff(t.backoff) else t.backoff
  {
    hide Choose, MustChoose, SigOf, HealthOK;
  }

  /** Ticks that end in the fail-open state, and how many of them failed open. */
  predicate StayOpen(s: State, ins: seq<TickIn>)
    decreases |ins|
  {
    ins != [] ==> ins[0].removeOK && Tick(s, ins[0]).phase == FailOpen && StayOpen(Tick(s, ins[0]), ins[1..])
  }

  function Failures(s: State, ins: seq<TickIn>): nat
    decreases |ins|
  {
    if ins == [] then 0 else (if Fails(s, ins[0]) then 1 else 0) + Failures(Tick(s, ins[0]), ins[1..])
  }

  function TickAll(s: State, ins: seq<TickIn>): State
    decreases |ins|
  {
    if ins == [] then s else TickAll(Tick(s, ins[0]), ins[1..])
  }

  /** In a row of ticks that end in the fail-open state, the backoff is that of the failures so far:
      1, 2, 4, 8, 16, 30, 30 ... minutes from a fresh one. */
  lemma {:induction false} BackoffOfFailures(s: State, ins: seq<TickIn>, m: nat)
    requires Sound(s) && StayOpen(s, ins) && s.backoff == Backoffs(m)
    ensures TickAll(s, ins).backoff == Backoffs(m + Failures(s, ins)) ==
            Min(Doubled(m + Failures(s, ins)) * MINUTE, BACKOFF_MAX)
    decreases |ins|
  {
    hide Tick, Fails, Sound;
    if ins == [] {
      BackoffDoubles(m);
    } else {
      TickSound(s, ins[0]);
      FailingDoubles(s, ins[0]);
      BackoffOfFailures(Tick(s, ins[0]), ins[1..], if Fails(s, ins[0]) then m + 1 else m);
    }
  }

  // ----- What the self-test does and does not guard -----

  /** The forwarder is there or could be opened, and there is an upstream to use. */
  predicate CanServe(s: State, i: TickIn)
    requires Hotspot(i)
  {
    var t := Opening(s, i);
    t.listeners > 0 && Chosen(t, i).upstream != ""
  }

  function Opening(s: State, i: TickIn): State
    requires Hotspot(i)
  {
    var s0 := s.(booted := true);
    if s.listeners == 0 || s.listen != ListenOn(i)
      then Closed(s0).(listeners := Opened(i), listen := if Opened(i) == 0 then [] else ListenOn(i)) else s0
  }

  lemma FailedInactive(s: State, i: TickIn)
    ensures !FailedOpen(s, i).active
  {
  }

  lemma ServedActive(t: State, i: TickIn)
    requires Hotspot(i)
    ensures Served(t, i).active <==>
            if !t.active then !Cooling(t, i) && SelfOK(i) && i.applyOK
            else if t.sig != Some(SigOf(i, t.listeners)) || RulesMissing(i) then i.applyOK
            else HealthOK(Since(t, i))
  {
    hide SigOf, HealthOK, Since, FailedOpen, RulesMissing, Cooling, SelfOK;
    FailedInactive(t.(prev := Some(i.stats), prevPkts := if i.countersOK then i.pkts else -1), i);
  }

  lemma ChosenKeeps(t: State, i: TickIn)
    ensures var c := Chosen(t, i);
      && c.active == t.active && c.sig == t.sig && c.listeners == t.listeners
      && Since(c, i) == Since(t, i) && (Cooling(c, i) <==> Cooling(t, i))
  {
    hide Choose, MustChoose;
  }

  lemma RoutedActive(t: State, i: TickIn)
    requires Hotspot(i)
    ensures Routed(t, i).active <==>
            Chosen(t, i).upstream != "" &&
            if !t.active then !Cooling(t, i) && SelfOK(i) && i.applyOK
            else if t.sig != Some(SigOf(i, t.listeners)) || RulesMissing(i) then i.applyOK
            else HealthOK(Since(t, i))
  {
    hide Chosen, Served, FailedOpen, SigOf, HealthOK, Since, RulesMissing, Cooling, SelfOK;
    ChosenKeeps(t, i);
    ServedActive(Chosen(t, i), i);
    FailedInactive(Chosen(t, i), i);
  }

  /** The counters were read and the rules are not among them. */
  predicate RulesGone(i: TickIn) { i.countersRan && i.countersOK && !i.present }

  lemma GoneIff(i: TickIn)
    ensures RulesGone(i) <==> RulesMissing(i)
  {
  }

  /** When a tick ends active, from any state: enabled on a hotspot, with a forwarder and an upstream;
      then, if it was inactive, past the retry time with self-test and apply in order; if it was active
      and new rules are due, with the apply in order; otherwise with its health in order. */
  lemma ActiveExactly(s: State, i: TickIn)
    ensures Tick(s, i).active <==>
            i.enabled && Hotspot(i) && CanServe(s, i) &&
            if !s.active then (s.retryAt.Some? ==> i.now >= s.retryAt.value) && (i.self1 || i.self2) && i.applyOK
            else if s.sig != Some(SigOf(i, Opening(s, i).listeners)) || RulesGone(i) then i.applyOK
            else (i.self1 || i.self2) && !UpstreamFails(s, i) && !PathBroken(s, i)
  {
    HealthIff(s, i);
    GoneIff(i);
    hide Routed, Chosen, SigOf, HealthOK, Since, ListenOn, Opened, FailedOpen;
    hide UpstreamFails, PathBroken;
    if i.enabled && Hotspot(i) {
      TickStarts(s, i);
      FailedInactive(Closed(s.(booted := true)), i);
      RoutedActive(Opening(s, i), i);
      SameSince(s, i);
    }
  }

  /** A user action does not wait for the retry time: an inactive controller becomes active at once exactly if
      it can serve, its self-test is in order and the rules can be put in place; if it fails open it tries
      again after a minute, however often it has failed before. */
  lemma UserActsAtOnce(s: State, i: TickIn)
    requires !s.active
    ensures var r := Act(s, i);
      && (r.active <==> i.enabled && Hotspot(i) && CanServe(s, i) && (i.self1 || i.self2) && i.applyOK)
      && (r.phase == FailOpen ==> r.retryAt == Some(i.failAt + 60_000_000_000))
  {
    hide Routed, Chosen, ListenOn, Opened, FailedOpen;
    var t := s.(retryAt := None, backoff := BACKOFF_MIN);
    ActiveExactly(t, i);
    if i.enabled && Hotspot(i) {
      TickStarts(t, i);
      Afresh(s, i);
      RoutedAfresh(Opening(t, i), i);
      FailedAfresh(Closed(t.(booted := true)), i);
    }
  }

  lemma Afresh(s: State, i: TickIn)
    requires Hotspot(i)
    ensures var t := s.(retryAt := None, backoff := BACKOFF_MIN);
      && (CanServe(t, i) <==> CanServe(s, i)) && Opening(t, i).active == s.active
      && Opening(t, i).retryAt.None? && Opening(t, i).backoff == BACKOFF_MIN
  {
    hide ListenOn, Opened, Chosen;
    ChosenAfresh(Opening(s, i), i);
  }

  lemma ChosenAfresh(t: State, i: TickIn)
    ensures Chosen(t.(retryAt := None, backoff := BACKOFF_MIN), i).upstream == Chosen(t, i).upstream
  {
    hide Choose;
  }

  lemma FailedAfresh(t: State, i: TickIn)
    requires t.backoff == BACKOFF_MIN
    ensures FailedOpen(t, i).retryAt == Some(i.failAt + 60_000_000_000)
  {
  }

  lemma RoutedAfresh(t: State, i: TickIn)
    requires Hotspot(i) && !t.active && t.retryAt.None? && t.backoff == BACKOFF_MIN
    ensures Routed(t, i).phase == FailOpen ==> Routed(t, i).retryAt == Some(i.failAt + 60_000_000_000)
  {
    hide Choose, MustChoose, SigOf;
  }

  /** A forwarder is there if the one before listens on the present addresses, or a new one can be opened on
      all of them, or on the first alone; an upstream is there if one answers, the custom one if it is set,
      or the one before may stay. */
  lemma CanServeIff(s: State, i: TickIn)
    requires Hotspot(i)
    ensures var same := s.listeners > 0 && s.listen == [i.v4[0]] + i.v6;
      CanServe(s, i) <==>
        && (same || i.openAll || (i.openFirst && i.v6 != []))
        && ((same && s.upstream != "")
            || if i.custom != "" then i.ok(i.custom) else exists a <- i.v4 + i.sys :: i.ok(At53(a)))
  {
    ChosenIff(Opening(s, i), i);
    hide Chosen;
  }

  lemma ChosenIff(t: State, i: TickIn)
    ensures Chosen(t, i).upstream != "" <==>
            t.upstream != "" || if i.custom != "" then i.ok(i.custom) else exists a <- i.v4 + i.sys :: i.ok(At53(a))
  {
    ChooseAnswers(i.custom, i.v4, i.sys, i.ok);
    hide Choose, At53;
    if a :| a in i.v4 + i.sys && i.ok(At53(a)) {
      assert a in i.v4 || a in i.sys;
    }
    assert forall a <- i.v4 :: a in i.v4 + i.sys;
    assert forall a <- i.sys :: a in i.v4 + i.sys;
  }

  /** What has been counted since the last check, if there was one. */
  predicate UpstreamFails(s: State, i: TickIn) {
    s.prev.Some? &&
    var sent, failed := i.stats.upstream - s.prev.value.upstream, i.stats.upstreamErrs - s.prev.value.upstreamErrs;
    sent >= 20 && 2 * failed >= sent
  }

  /** Redirected packets do not come to queries: at least 10 of them, counted by both checks, and none. */
  predicate PathBroken(s: State, i: TickIn) {
    && s.prev.Some? && i.countersOK && s.prevPkts >= 0 && i.pkts - s.prevPkts >= 10
    && i.stats.queries == s.prev.value.queries
  }

  /** An active controller whose rules are as they should be fails open exactly if its self-test failed,
      or of 20 or more upstream queries at least half failed, or 10 or more redirected packets came to no
      query; and with its health in order it stays as it is. */
  lemma FailsOpenExactly(s: State, i: TickIn)
    requires s.active && i.enabled && Hotspot(i) && CanServe(s, i)
    requires s.sig == Some(SigOf(i, Opening(s, i).listeners)) && !RulesGone(i)
    ensures var r := Tick(s, i);
      var failed := !(i.self1 || i.self2) || UpstreamFails(s, i) || PathBroken(s, i);
      && (r.phase == FailOpen <==> failed) && (r.active <==> !failed)
      && (failed ==> r.retryAt == Some(i.failAt + s.backoff))
      && (!failed ==> r.phase == Active && r.healthy && r.sig == s.sig && r.rules == s.rules)
      && (!failed && HealthyLong(s, i) ==> r.backoff == 60_000_000_000)
      && (!failed && !HealthyLong(s, i) ==> r.backoff == s.backoff)
  {
    hide *;
    GoneIff(i);
    TickStarts(s, i);
    SameSince(s, i);
    OpeningKeepsBackoff(s, i);
    HealthIff(s, i);
    OpeningKeepsRules(s, i);
    RoutedChecks(Opening(s, i), i);
  }

  /** Healthy for more than ten minutes. */
  predicate HealthyLong(s: State, i: TickIn) {
    s.healthySince.Some? && i.now - s.healthySince.value > 600_000_000_000
  }

  lemma OpeningKeepsRules(s: State, i: TickIn)
    requires Hotspot(i)
    ensures Opening(s, i).rules == s.rules && (HealthyLong(Opening(s, i), i) <==> HealthyLong(s, i))
    ensures CanServe(s, i) <==> Opening(s, i).listeners > 0 && Chosen(Opening(s, i), i).upstream != ""
  {
    hide ListenOn, Opened, Chosen;
  }

  lemma RoutedChecks(t: State, i: TickIn)
    requires Hotspot(i) && t.active && t.sig == Some(SigOf(i, t.listeners)) && !RulesMissing(i)
            && Chosen(t, i).upstream != ""
    ensures var r, ok := Routed(t, i), HealthOK(Since(t, i));
      && (r.phase == FailOpen <==> !ok) && (r.active <==> ok)
      && (!ok ==> r.retryAt == Some(i.failAt + t.backoff))
      && (ok ==> r.phase == Active && r.healthy && r.sig == t.sig && r.rules == t.rules)
      && (ok && HealthyLong(t, i) ==> r.backoff == 60_000_000_000)
      && (ok && !HealthyLong(t, i) ==> r.backoff == t.backoff)
  {
    ChosenKeeps(t, i);
    ChosenLeaves(t, i);
    hide Chosen, SigOf, HealthOK, Since, RulesMissing, Backoff;
  }

  lemma ChosenLeaves(t: State, i: TickIn)
    ensures var c := Chosen(t, i); c.rules == t.rules && c.backoff == t.backoff && c.healthySince == t.healthySince
  {
    hide Choose, MustChoose;
  }

  lemma HealthIff(s: State, i: TickIn)
    ensures HealthOK(Since(s, i)) <==> (i.self1 || i.self2) && !UpstreamFails(s, i) && !PathBroken(s, i)
  {
  }

  lemma SameSince(s: State, i: TickIn)
    requires Hotspot(i)
    ensures var t := Opening(s, i);
      Since(t, i) == Since(s, i) && t.active == s.active && t.sig == s.sig && (Cooling(t, i) <==> Cooling(s, i))
  {
    hide ListenOn, Opened;
  }

  /** The upstream behind an active controller: the custom one, if one is set and answers; none that was
      custom before, if it no longer is and another answers; the one before, or one that answered in this
      tick; and unless it is the tether's, it was looked at within the last minute. */
  lemma UpstreamFollows(s: State, i: TickIn)
    requires Tick(s, i).active
    ensures var r := Tick(s, i);
      && r.upstream != ""
      && (i.custom != "" && i.ok(i.custom) ==> r.upstream == i.custom)
      && (i.custom == "" && s.kind == Custom && (exists a <- i.v4 + i.sys :: i.ok(At53(a))) ==> r.kind != Custom)
      && (r.upstream == s.upstream || i.ok(r.upstream))
      && (r.kind != Tether ==> r.checkedAt.Some? && i.now - r.checkedAt.value <= 60_000_000_000)
  {
    ActiveExactly(s, i);
    TickStarts(s, i);
    hide Routed, Chosen, SigOf, HealthOK, Since, RulesMissing, FailedOpen, Cooling, SelfOK, ListenOn, Opened, Tick;
    var t := Opening(s, i);
    RoutedUpstream(t, i);
    ChosenFollows(t, i);
  }

  lemma RoutedUpstream(t: State, i: TickIn)
    requires Hotspot(i) && Routed(t, i).active
    ensures var r, c := Routed(t, i), Chosen(t, i);
      r.upstream == c.upstream != "" && r.kind == c.kind && r.checkedAt == c.checkedAt
  {
    hide Chosen, Served;
    FailedInactive(Chosen(t, i), i);
    hide FailedOpen;
    ServedKeepsUpstream(Chosen(t, i), i);
  }

  lemma ServedKeepsUpstream(t: State, i: TickIn)
    requires Hotspot(i)
    ensures var r := Served(t, i); r.upstream == t.upstream && r.kind == t.kind && r.checkedAt == t.checkedAt
  {
    hide SigOf, HealthOK, Since, RulesMissing, Cooling, SelfOK, FailedOpen;
    FailedKeepsUpstream(t.(prev := Some(i.stats), prevPkts := if i.countersOK then i.pkts else -1), i);
  }

  lemma FailedKeepsUpstream(t: State, i: TickIn)
    ensures var r := FailedOpen(t, i); r.upstream == t.upstream && r.kind == t.kind && r.checkedAt == t.checkedAt
  {
    hide Backoff;
  }

  lemma ChosenFollows(t: State, i: TickIn)
    requires Chosen(t, i).upstream != ""
    ensures var c := Chosen(t, i);
      && (i.custom != "" && i.ok(i.custom) ==> c.upstream == i.custom)
      && (i.custom == "" && (t.kind == Custom || t.upstream == "") && (exists a <- i.v4 + i.sys :: i.ok(At53(a))) ==>
          c.kind != Custom)
      && (c.upstream == t.upstream || i.ok(c.upstream))
      && (c.kind != Tether ==> c.checkedAt.Some? && i.now - c.checkedAt.value <= 60_000_000_000)
  {
    ChooseAnswers(i.custom, i.v4, i.sys, i.ok);
    ChooseKind(i.custom, i.v4, i.sys, i.ok);
    hide Choose, At53;
    if i.custom == "" && exists a <- i.v4 + i.sys :: i.ok(At53(a)) {
      var a :| a in i.v4 + i.sys && i.ok(At53(a));
      assert a in i.v4 || a in i.sys;
    }
  }

  lemma ChooseKind(custom: string, v4: seq<string>, sys: seq<string>, ok: string -> bool)
    ensures var c := Choose(custom, v4, sys, ok);
      && (custom != "" && c.0 != "" ==> c.0 == custom && c.1 == Custom)
      && (custom == "" && c.0 != "" ==> c.1 == Tether || c.1 == System)
  {
  }

  /** With the self-test failed, the controller ends up active exactly if it was active and put
      new rules in place: because the addresses changed or the rules were gone. In every other
      case it fails open. */
  lemma SelfTestGuards(s: State, i: TickIn)
    requires Sound(s) && i.removeOK && !SelfOK(i)
    ensures Tick(s, i).active <==>
            && s.active && i.enabled && Hotspot(i) && CanServe(s, i)
            && (s.sig != Some(SigOf(i, Opening(s, i).listeners)) || RulesGone(i)) && i.applyOK
    ensures !Tick(s, i).active ==> !Tick(s, i).rules
  {
    TickSound(s, i);
    hide Routed, Opened, ListenOn, FailedOpen, SigOf, Chosen, Sound;
    if i.enabled && Hotspot(i) {
      var t := Opening(s, i);
      if t.listeners > 0 {
        OpeningReady(s, i);
        RoutedGuards(t, i);
      }
      TickStarts(s, i);
      FailedOpenSound(Closed(s.(booted := true)), i);
    }
  }

  lemma OpeningReady(s: State, i: TickIn)
    requires Sound(s) && Hotspot(i) && Opening(s, i).listeners > 0
    ensures Ready(Opening(s, i)) && Opening(s, i).active == s.active && Opening(s, i).sig == s.sig
  {
    hide ListenOn, Opened;
  }

  lemma RoutedGuards(t: State, i: TickIn)
    requires Ready(t) && Hotspot(i) && i.removeOK && !SelfOK(i)
    ensures Routed(t, i).active <==>
            t.active && Chosen(t, i).upstream != "" && (t.sig != Some(SigOf(i, t.listeners)) || RulesMissing(i))
              && i.applyOK
  {
    hide Choose, MustChoose, SigOf;
  }

  // ----- Leftover rules -----

  /** Rules left over from an earlier process outlive the first tick exactly if the takeover is
      enabled on a hotspot and the tick gets no further than the forwarder, the upstream or the
      self-test: nothing removes them, since the controller does not think itself active. */
  lemma LeftoversAtStart(i: TickIn)
    requires i.removeOK
    ensures var s := INITIAL.(rules := true);
      var r := Tick(s, i);
      r.rules && !r.active <==> i.enabled && Hotspot(i) && !(CanServe(s, i) && SelfOK(i))
  {
    hide Choose, MustChoose, SigOf, Since, ListenOn, Opened;
  }

  /** From then on not even switching the takeover off removes them. */
  lemma LeftoversSurviveOff(s: State, i: TickIn)
    requires s.booted && !s.active && s.rules && !i.enabled
    ensures Tick(s, i).rules && Act(s, i).rules
  {
  }

  /** A remove script that does not remove leaves rules without a controller; the ticks while it is off do
      not try again. */
  lemma {:induction false} RemoveMustWork(s: State, i: TickIn, js: seq<TickIn>)
    requires Sound(s) && s.rules && !i.enabled && !i.removeOK && forall j <- js :: !j.enabled
    ensures var r := Ticks(Tick(s, i), js); r.rules && !r.active && r.booted
  {
    if js != [] {
      RemoveMustWork(s, i, js[..|js| - 1]);
    }
  }

  function Ticks(s: State, js: seq<TickIn>): State {
    if js == [] then s else Tick(Ticks(s, js[..|js| - 1]), js[|js| - 1])
  }

  // ----- Which upstream -----

  lemma {:induction false} FirstIsOK(hosts: seq<string>, skip: seq<string>, ok: string -> bool)
    ensures var r := FirstOK(hosts, skip, ok);
      if r == "" then forall h <- hosts :: h in skip || !ok(At53(h))
      else ok(r) && exists k :: 0 <= k < |hosts| && r == At53(hosts[k]) && hosts[k] !in skip
                                && forall j :: 0 <= j < k ==> hosts[j] in skip || !ok(At53(hosts[j]))
  {
    if hosts != [] && !(hosts[0] !in skip && ok(At53(hosts[0]))) {
      FirstIsOK(hosts[1..], skip, ok);
      var r := FirstOK(hosts[1..], skip, ok);
      if r != "" {
        var k :| 0 <= k < |hosts| - 1 && r == At53(hosts[1..][k]) && hosts[1..][k] !in skip
                 && forall j :: 0 <= j < k ==> hosts[1..][j] in skip || !ok(At53(hosts[1..][j]));
        assert hosts[k + 1] == hosts[1..][k];
        assert forall j :: 1 <= j < k + 1 ==> hosts[j] == hosts[1..][j - 1];
      }
    }
  }

  /** The resolver chosen answered its probe; a system resolver is chosen only if no address of
      the tether answers, none at all only if nothing answers, and a custom one is never replaced. */
  lemma ChooseAnswers(custom: string, v4: seq<string>, sys: seq<string>, ok: string -> bool)
    ensures var c := Choose(custom, v4, sys, ok);
      && (c.0 != "" ==> ok(c.0))
      && (c.0 == "" <==> if custom != "" then !ok(custom)
                         else (forall a <- v4 :: !ok(At53(a))) && forall a <- sys :: a in v4 || !ok(At53(a)))
      && (c.1 == System ==> custom == "" && forall a <- v4 :: !ok(At53(a)))
      && (custom != "" ==> c.0 == custom || c.0 == "")
  {
    FirstIsOK(v4, [], ok);
    FirstIsOK(sys, v4, ok);
  }
}
