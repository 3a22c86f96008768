/** Runs in which events may be lost: what is recorded never exceeds what is owed. */
module ConnBound {
  import opened Common
  import opened ConnAccounting
  import opened ConnRuns
  import opened ConnExact

  /** The state of one key in any run: `hi` is a generation such that nothing below it can be
      seen again, and what is recorded stays within what is owed up to there, but for `x`. */
  ghost predicate Within(gens: seq<Gen>, t0: Tick, s0: nat, hi: nat, pos: Pos, p: Option<nat>, total: int, x: int) {
    && s0 <= hi <= |gens| && Sensible(gens, t0)
    && (t0.read.Some? ==> t0.read.value == s0)
    && (hi > 0 ==> gens[hi - 1].death <= pos.drainAt && (hi <= pos.lo || gens[hi - 1].death <= pos.readAt))
    && (p.Some? ==> && hi < |gens| && gens[hi].birth <= pos.readAt < gens[hi].death
                    && p.value == gens[hi].count(pos.readAt))
    && total <= Owed(gens, t0, s0, hi) + Open(gens, t0, hi, p) + x
  }

  /** What is forgotten in ticks without the device, and counted again later. */
  function Doubled(gens: seq<Gen>, t0: Tick, kept0: bool, ticks: seq<Tick>, kept: seq<bool>): nat
    requires |kept| == |ticks|
  {
    if ticks == [] then (if kept0 then 0 else Base(gens, t0, FirstOwed(gens, t0))) else
      var n := |ticks| - 1;
      Doubled(gens, t0, kept0, ticks[..n], kept[..n])
      + if kept[n] then 0 else KeyRun(gens, StartReading(gens, t0, kept0), ticks[..n], kept[..n]).prev.GetOr(0)
  }

  /** Two readings taken against each other: saturation loses bytes, it never adds any. */
  lemma OverBound(gens: seq<Gen>, t0: Tick, s0: nat, hi: nat, pos: Pos, p: Option<nat>, total: int, x: int, g: nat,
                  b: nat)
    requires Lifetimes(gens) && Within(gens, t0, s0, hi, pos, p, total, x)
    requires hi <= g < |gens| && (p.Some? && g == hi ==> p.value <= b)
    ensures total + Over(p, b) <= Owed(gens, t0, s0, g) + b - Base(gens, t0, g) + x
  {
    if hi < g {
      UpToNext(gens, t0, s0, hi, pos, p, total, x);
      OwedGrows(gens, t0, s0, hi + 1, g);
    }
  }

  /** Once a generation is over, all it is owed covers what was open. */
  lemma UpToNext(gens: seq<Gen>, t0: Tick, s0: nat, hi: nat, pos: Pos, p: Option<nat>, total: int, x: int)
    requires Lifetimes(gens) && Within(gens, t0, s0, hi, pos, p, total, x) && hi < |gens|
    ensures total <= Owed(gens, t0, s0, hi + 1) + x
  {
    if p.Some? {
      assert gens[hi].count(pos.readAt) <= gens[hi].count(gens[hi].death);
    }
  }

  lemma {:induction false} WithinSettle(gens: seq<Gen>, t0: Tick, s0: nat, hi: nat, pos: Pos, p: Option<nat>,
                                        total: int, x: int, gs: seq<nat>, evs: seq<KeyEvent>)
    requires Lifetimes(gens) && Within(gens, t0, s0, hi, pos, p, total, x) && evs != [] && |gs| == |evs|
    requires forall i :: 0 <= i < |gs| ==> hi <= gs[i] < |gens| && evs[i].bytes == Final(gens[gs[i]])
    requires forall i, j :: 0 <= i < j < |gs| ==> gs[i] < gs[j]
    ensures total + SettleTotal(p, evs) <= Owed(gens, t0, s0, gs[|gs| - 1] + 1) + x
  {
    var n := |gs| - 1;
    var g := gs[n];
    if n == 0 {
      if p.Some? && g == hi {
        assert gens[hi].count(pos.readAt) <= gens[hi].count(gens[hi].death);
      }
      OverBound(gens, t0, s0, hi, pos, p, total, x, g, evs[0].bytes);
    } else {
      WithinSettle(gens, t0, s0, hi, pos, p, total, x, gs[..n], evs[..n]);
      OwedGrows(gens, t0, s0, gs[n - 1] + 1, g);
      assert Base(gens, t0, g) == 0;
    }
  }

  lemma EventsAbove(gens: seq<Gen>, t0: Tick, s0: nat, hi: nat, pos: Pos, p: Option<nat>, total: int, x: int, t: Tick)
    requires Lifetimes(gens) && PosOk(gens, pos) && Within(gens, t0, s0, hi, pos, p, total, x) && Observes(gens, pos, t)
    ensures forall i :: 0 <= i < |t.batch| ==> hi <= t.batch[i].gen
  {
    hide Owed, Open;
    forall i | 0 <= i < |t.batch| ensures hi <= t.batch[i].gen {
      if hi > 0 && hi > pos.lo {
        AliveAbove(gens, t.batch[i].gen, hi - 1, pos.readAt);
      }
    }
  }

  /** After the events of a tick, and before its entry. */
  lemma WithinEvents(gens: seq<Gen>, t0: Tick, s0: nat, hi: nat, pos: Pos, p: Option<nat>, total: int, x: int, t: Tick)
    requires Lifetimes(gens) && PosOk(gens, pos) && Within(gens, t0, s0, hi, pos, p, total, x)
    requires Observes(gens, pos, t) && t.batch != []
    ensures var h := After(pos, t).lo;
      && hi < h <= |gens| && gens[h - 1].death <= t.drainAt
      && total + SettleTotal(p, EvsOf(gens, t)) <= Owed(gens, t0, s0, h) + x
  {
    hide Owed, Open, SettleTotal, Final;
    var evs := EvsOf(gens, t);
    var gs := seq(|evs|, i requires 0 <= i < |evs| => t.batch[i].gen);
    EventsAbove(gens, t0, s0, hi, pos, p, total, x, t);
    hide Within;
    WithinSettle(gens, t0, s0, hi, pos, p, total, x, gs, evs);
  }

  /** An entry that is counted belongs to a generation above all those just settled. */
  lemma EntryAbove(gens: seq<Gen>, hi: nat, pos: Pos, t: Tick)
    requires Lifetimes(gens) && Observes(gens, pos, t) && t.read.Some? && !Stale(EvsOf(gens, t), t.snapAt)
    requires hi <= |gens| && (hi > 0 ==> gens[hi - 1].death <= t.readAt)
    ensures hi <= t.read.value && (t.batch != [] ==> After(pos, t).lo <= t.read.value)
    ensures t.read.value > 0 ==> gens[t.read.value - 1].death <= t.readAt
  {
    var g := t.read.value;
    if hi > 0 {
      AliveAbove(gens, g, hi - 1, t.readAt);
    }
    if g > 0 {
      GoneBelow(gens, g - 1, g, t.readAt);
    }
    if t.batch != [] {
      LastNotStale(gens, pos, t);
      GoneBelow(gens, g, After(pos, t).lo - 1, t.readAt);
    }
  }

  /** Without a stale stamp, the last generation that ended was born, and gone, by the read. */
  lemma LastNotStale(gens: seq<Gen>, pos: Pos, t: Tick)
    requires Lifetimes(gens) && Observes(gens, pos, t) && !Stale(EvsOf(gens, t), t.snapAt) && t.batch != []
    ensures var last := After(pos, t).lo - 1; 0 <= last < |gens| && gens[last].birth <= gens[last].death <= t.readAt
  {
    var evs := EvsOf(gens, t);
    assert evs[|evs| - 1] in evs;
  }

  /** A reading of generation `g`, with everything up to it accounted for. */
  lemma WithinRead(gens: seq<Gen>, t0: Tick, s0: nat, pos: Pos, t: Tick, g: nat, total: int, x: int)
    requires Observes(gens, pos, t) && t.read == Some(g) && s0 <= g < |gens| && Sensible(gens, t0)
            && (t0.read.Some? ==> t0.read.value == s0)
    requires g > 0 ==> gens[g - 1].death <= t.readAt
    requires total <= Owed(gens, t0, s0, g) + gens[g].count(t.readAt) - Base(gens, t0, g) + x
    ensures Within(gens, t0, s0, g, After(pos, t), Some(gens[g].count(t.readAt)), total, x)
  {
    hide Owed, Base;
  }

  /** An entry of a tick without events. */
  lemma QuietEntry(gens: seq<Gen>, t0: Tick, s0: nat, hi: nat, pos: Pos, p: Option<nat>, total: int, x: int, g: nat,
                   time: int)
    requires Lifetimes(gens) && Within(gens, t0, s0, hi, pos, p, total, x) && hi <= g < |gens| && pos.readAt <= time
    ensures var b := gens[g].count(time); total + Over(p, b) <= Owed(gens, t0, s0, g) + b - Base(gens, t0, g) + x
  {
    assert gens[g].count(pos.readAt) <= gens[g].count(time);
    OverBound(gens, t0, s0, hi, pos, p, total, x, g, gens[g].count(time));
  }

  /** An entry of a tick with events belongs to a later generation. */
  lemma BusyEntry(gens: seq<Gen>, t0: Tick, s0: nat, hi: nat, pos: Pos, p: Option<nat>, total: int, x: int, t: Tick,
                  g: nat)
    requires Lifetimes(gens) && PosOk(gens, pos) && Within(gens, t0, s0, hi, pos, p, total, x)
    requires Observes(gens, pos, t) && t.batch != [] && After(pos, t).lo <= g < |gens|
    ensures total + SettleTotal(p, EvsOf(gens, t)) <= Owed(gens, t0, s0, g) - Base(gens, t0, g) + x
  {
    WithinEvents(gens, t0, s0, hi, pos, p, total, x, t);
    BaseBelow(gens, t0, s0, hi, pos, p, total, x, g);
    hide Within, Observes, PosOk, SettleTotal, Owed, Base, EvsOf;
    OwedGrows(gens, t0, s0, After(pos, t).lo, g);
  }

  lemma BaseBelow(gens: seq<Gen>, t0: Tick, s0: nat, hi: nat, pos: Pos, p: Option<nat>, total: int, x: int, g: nat)
    requires Within(gens, t0, s0, hi, pos, p, total, x)
    ensures s0 <= hi <= |gens| && Sensible(gens, t0) && (t0.read.Some? ==> t0.read.value == s0)
            && (hi < g ==> Base(gens, t0, g) == 0)
  {
  }

  /** What is known before a tick is known when its entry is read. */
  lemma BeforeRead(gens: seq<Gen>, t0: Tick, s0: nat, hi: nat, pos: Pos, p: Option<nat>, total: int, x: int, t: Tick)
    requires Within(gens, t0, s0, hi, pos, p, total, x) && PosOk(gens, pos) && Observes(gens, pos, t)
    ensures pos.readAt <= t.readAt && hi <= |gens| && (hi > 0 ==> gens[hi - 1].death <= t.readAt)
  {
    hide Owed, Open;
  }

  lemma WithinEntry(gens: seq<Gen>, t0: Tick, s0: nat, hi: nat, pos: Pos, p: Option<nat>, total: int, x: int, t: Tick)
    requires Lifetimes(gens) && PosOk(gens, pos) && Within(gens, t0, s0, hi, pos, p, total, x)
    requires Observes(gens, pos, t) && t.read.Some? && t.read.value < |gens| && !Stale(EvsOf(gens, t), t.snapAt)
    ensures var b, evs := gens[t.read.value].count(t.readAt), EvsOf(gens, t);
      Within(gens, t0, s0, t.read.value, After(pos, t), Some(b), total + SettleTotal(p, evs) + Over(Pending(p, evs), b),
        x)
  {
    hide Within, Observes, Lifetimes, PosOk, Owed, Base, SettleTotal, After, Stale;
    var g, evs := t.read.value, EvsOf(gens, t);
    var b := gens[g].count(t.readAt);
    BeforeRead(gens, t0, s0, hi, pos, p, total, x, t);
    EntryAbove(gens, hi, pos, t);
    BaseBelow(gens, t0, s0, hi, pos, p, total, x, g);
    if t.batch == [] {
      QuietEntry(gens, t0, s0, hi, pos, p, total, x, g, t.readAt);
      assert evs == [] && SettleTotal(p, []) == 0 by { NothingSettled(p); }
    } else {
      BusyEntry(gens, t0, s0, hi, pos, p, total, x, t, g);
    }
    WithinRead(gens, t0, s0, pos, t, g, total + SettleTotal(p, evs) + Over(Pending(p, evs), b), x);
  }

  lemma NothingSettled(p: Option<nat>)
    ensures SettleTotal(p, []) == 0
  {
  }

  lemma WithinNoEntry(gens: seq<Gen>, t0: Tick, s0: nat, hi: nat, pos: Pos, p: Option<nat>, total: int, x: int, t: Tick)
    returns (h: nat)
    requires Lifetimes(gens) && PosOk(gens, pos) && Within(gens, t0, s0, hi, pos, p, total, x)
    requires Observes(gens, pos, t) && (t.read.None? || Stale(EvsOf(gens, t), t.snapAt))
    ensures Within(gens, t0, s0, h, After(pos, t), None, total + SettleTotal(p, EvsOf(gens, t)), x)
  {
    if t.batch != [] {
      h := After(pos, t).lo;
      WithinEvents(gens, t0, s0, hi, pos, p, total, x, t);
      assert Base(gens, t0, h) == 0;
    } else if p.Some? {
      assert gens[hi].death <= t.readAt;
      UpToNext(gens, t0, s0, hi, pos, p, total, x);
      h := hi + 1;
    } else {
      h := hi;
    }
  }

  /** Without its device the key is forgotten; its last reading can be counted again. */
  lemma WithinGap(gens: seq<Gen>, t0: Tick, s0: nat, hi: nat, pos: Pos, p: Option<nat>, total: int, x: int, t: Tick)
    requires Lifetimes(gens) && PosOk(gens, pos) && Within(gens, t0, s0, hi, pos, p, total, x) && Observes(gens, pos, t)
    ensures Within(gens, t0, s0, hi, After(pos, t), None, total, x + p.GetOr(0))
  {
    PosStays(gens, pos, t);
    hide Owed, Lifetimes;
  }

  lemma WithinTick(gens: seq<Gen>, t0: Tick, s0: nat, hi: nat, pos: Pos, p: Option<nat>, total: int, x: int, t: Tick,
                   kept: bool)
    returns (h: nat)
    requires Lifetimes(gens) && PosOk(gens, pos) && Within(gens, t0, s0, hi, pos, p, total, x) && Observes(gens, pos, t)
    ensures var r := KeyTick(gens, p, t, kept);
      Within(gens, t0, s0, h, After(pos, t), r.prev, total + r.total, x + if kept then 0 else p.GetOr(0))
  {
    hide Within, Observes, Lifetimes, PosOk;
    if !kept {
      WithinGap(gens, t0, s0, hi, pos, p, total, x, t);
      h := hi;
    } else if t.read.Some? && !Stale(EvsOf(gens, t), t.snapAt) {
      ReadAlive(gens, pos, t);
      WithinEntry(gens, t0, s0, hi, pos, p, total, x, t);
      h := t.read.value;
    } else {
      NoEntryOrStale(gens, t);
      h := WithinNoEntry(gens, t0, s0, hi, pos, p, total, x, t);
    }
  }

  lemma NoEntryOrStale(gens: seq<Gen>, t: Tick)
    ensures t.read.None? ==> ReadValue(gens, t) == None
  {
  }

  lemma WithinStart(gens: seq<Gen>, start: Pos, t0: Tick, kept0: bool)
    requires Lifetimes(gens) && PosOk(gens, start) && Observes(gens, start, t0)
    ensures var s0 := FirstOwed(gens, t0);
      Within(gens, t0, s0, s0, After(start, t0), StartReading(gens, t0, kept0), 0,
        if kept0 then 0 else Base(gens, t0, s0))
  {
    hide Lifetimes, PosOk, Observes, ReadValue, Owed;
    TimesOf(gens, start, t0);
    NothingOwed(gens, t0, FirstOwed(gens, t0));
    if t0.read.Some? {
      FirstIsRead(gens, start, t0);
      ReadAlive(gens, start, t0);
    } else {
      NoReading(gens, t0);
    }
  }

  lemma TimesOf(gens: seq<Gen>, pos: Pos, t: Tick)
    requires Observes(gens, pos, t)
    ensures t.readAt <= t.drainAt
  {
  }

  lemma {:induction false} WithinRun(gens: seq<Gen>, start: Pos, t0: Tick, kept0: bool, ticks: seq<Tick>,
                                     kept: seq<bool>)
    returns (hi: nat)
    requires Env(gens, start, t0, ticks) && |kept| == |ticks|
    ensures var r := KeyRun(gens, StartReading(gens, t0, kept0), ticks, kept);
      Within(gens, t0, FirstOwed(gens, t0), hi, PosAfter(After(start, t0), ticks), r.prev, r.total,
             Doubled(gens, t0, kept0, ticks, kept))
  {
    hide Within, Observes, Lifetimes, PosOk, KeyTick, Base, StartReading, After;
    if ticks == [] {
      hi := FirstOwed(gens, t0);
      WithinStart(gens, start, t0, kept0);
    } else {
      var n, pos0 := |ticks| - 1, After(start, t0);
      PosStays(gens, start, t0);
      PosAfterOk(gens, pos0, ticks[..n]);
      hi := WithinRun(gens, start, t0, kept0, ticks[..n], kept[..n]);
      var r := KeyRun(gens, StartReading(gens, t0, kept0), ticks[..n], kept[..n]);
      hi := WithinTick(gens, t0, FirstOwed(gens, t0), hi, PosAfter(pos0, ticks[..n]), r.prev, r.total,
                       Doubled(gens, t0, kept0, ticks[..n], kept[..n]), ticks[n], kept[n]);
    }
  }

  lemma WithinTotal(gens: seq<Gen>, t0: Tick, s0: nat, hi: nat, pos: Pos, p: Option<nat>, total: int, x: int)
    requires Lifetimes(gens) && Within(gens, t0, s0, hi, pos, p, total, x)
    ensures total <= Owed(gens, t0, s0, |gens|) + x
  {
    if hi < |gens| {
      UpToNext(gens, t0, s0, hi, pos, p, total, x);
      OwedGrows(gens, t0, s0, hi + 1, |gens|);
    }
  }

  lemma {:induction false} NothingDoubled(gens: seq<Gen>, t0: Tick, ticks: seq<Tick>, kept: seq<bool>)
    requires |kept| == |ticks| && forall i :: 0 <= i < |kept| ==> kept[i]
    ensures Doubled(gens, t0, true, ticks, kept) == 0
  {
    if ticks != [] {
      NothingDoubled(gens, t0, ticks[..|ticks| - 1], kept[..|ticks| - 1]);
    }
  }

  /** Whatever events are lost, and whatever the baseline was, the bytes recorded never exceed
      the final bytes less the baseline bytes of the connections not gone at the baseline, plus
      the last readings forgotten in ticks in which the device was unknown: none, if it never was. */
  lemma NeverTooMuch(gens: seq<Gen>, start: Pos, t0: Tick, inp0: Input, ticks: seq<Tick>, inputs: seq<Input>, k: Key,
                     d: Direction)
    requires Env(gens, start, t0, ticks) && Shows(gens, t0, inp0, k, d) && ShowsAll(gens, ticks, inputs, k, d)
    ensures Recorded(inp0, inputs, k, d) <=
            Owed(gens, t0, FirstOwed(gens, t0), |gens|) + Doubled(gens, t0, inp0.keep(k.src), ticks, KeptIn(inputs, k))
    ensures AlwaysKnown(inp0, inputs, k) ==> Recorded(inp0, inputs, k, d) <= Owed(gens, t0, FirstOwed(gens, t0), |gens|)
  {
    var kept0, kept := inp0.keep(k.src), KeptIn(inputs, k);
    if AlwaysKnown(inp0, inputs, k) {
      NothingDoubled(gens, t0, ticks, kept);
    }
    RecordedIs(gens, t0, inp0, ticks, inputs, k, d);
    hide Within, Observes, PosOk, KeyRun, Owed, Doubled, Shows, Recorded, StartReading, KeptIn, After;
    var hi := WithinRun(gens, start, t0, kept0, ticks, kept);
    var r := KeyRun(gens, StartReading(gens, t0, kept0), ticks, kept);
    WithinTotal(gens, t0, FirstOwed(gens, t0), hi, PosAfter(After(start, t0), ticks), r.prev, r.total,
                Doubled(gens, t0, kept0, ticks, kept));
  }
}
