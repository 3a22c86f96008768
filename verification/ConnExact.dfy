/**
 Runs in which no event is lost: exactly what is recorded, with a baseline that may be stale
 and a device that may be unknown in some ticks.
 */
module ConnExact {
  import opened Common
  import opened ConnAccounting
  import opened ConnRuns

  /** What the live generation has recorded beyond its baseline reading. */
  function Open(gens: seq<Gen>, t0: Tick, lo: nat, p: Option<nat>): int { p.GetOr(0) - Base(gens, t0, lo) }

  /** The state of one key in a run without loss: what is recorded is what is owed to the
      settled generations, what the live one had sent when it was last read, and an error. */
  ghost predicate Exact(gens: seq<Gen>, t0: Tick, lo0: nat, pos: Pos, p: Option<nat>, total: int, e: int) {
    && lo0 <= pos.lo <= |gens|
    && (t0.read.Some? ==> t0.read.value <= lo0)
    && (p.Some? ==> && pos.lo < |gens| && gens[pos.lo].birth <= pos.readAt < gens[pos.lo].death
                    && p.value == gens[pos.lo].count(pos.readAt))
    && total == Owed(gens, t0, lo0, pos.lo) + Open(gens, t0, pos.lo, p) + e
  }

  // ----- The errors -----

  /** What a reading of an earlier connection takes from the first that is compared with it. */
  function Short(p: nat, evs: seq<KeyEvent>, entry: Option<nat>): nat {
    if evs != [] then Min(p, evs[0].bytes) else if entry.Some? then Min(p, entry.value) else 0
  }

  /** What a tick without the device does: with events, their bytes are missed; without, the
      last reading is forgotten, and as many bytes are counted again. */
  function GapError(p: Option<nat>, evs: seq<KeyEvent>): int {
    if evs == [] then p.GetOr(0) else 0 - SettleTotal(p, evs)
  }

  /** A baseline reading of a connection whose event was drained with the baseline. */
  predicate StaleStart(start: Pos, t0: Tick, kept0: bool) {
    kept0 && t0.read.Some? && t0.read.value < After(start, t0).lo
  }

  /** The error of a tick; `stale` says that `p` is a stale baseline reading. */
  function TickError(gens: seq<Gen>, p: Option<nat>, t: Tick, kept: bool, stale: bool): int {
    if kept then (if stale then 0 - Short(p.GetOr(0), EvsOf(gens, t), ReadValue(gens, t)) else 0)
    else GapError(if stale then None else p, EvsOf(gens, t))
  }

  /** A device unknown at the baseline has the bytes before it counted. */
  function StartError(gens: seq<Gen>, start: Pos, t0: Tick, kept0: bool): int {
    if kept0 then 0 else Base(gens, t0, After(start, t0).lo)
  }

  /** The error of a run: each tick adds its own. */
  function RunError(gens: seq<Gen>, start: Pos, t0: Tick, kept0: bool, ticks: seq<Tick>, kept: seq<bool>): int
    requires |kept| == |ticks|
  {
    if ticks == [] then StartError(gens, start, t0, kept0) else
      var n := |ticks| - 1;
      var p := KeyRun(gens, StartReading(gens, t0, kept0), ticks[..n], kept[..n]).prev;
      RunError(gens, start, t0, kept0, ticks[..n], kept[..n])
      + TickError(gens, p, ticks[n], kept[n], n == 0 && StaleStart(start, t0, kept0))
  }

  // ----- One tick -----

  lemma AfterLossless(gens: seq<Gen>, pos: Pos, t: Tick)
    requires Lossless(gens, pos, t)
    ensures After(pos, t) == Pos(t.readAt, t.drainAt, pos.lo + |t.batch|)
  {
    assert t.batch != [] ==> t.batch[|t.batch| - 1].gen == pos.lo + |t.batch| - 1;
  }

  lemma FinalsInOrder(gens: seq<Gen>, pos: Pos, t: Tick)
    requires Observes(gens, pos, t) && Lossless(gens, pos, t) && PosOk(gens, pos)
    ensures var evs := EvsOf(gens, t);
      pos.lo + |evs| <= |gens| && forall i :: 0 <= i < |evs| ==> evs[i].bytes == Final(gens[pos.lo + i])
  {
    assert t.batch != [] ==> t.batch[|t.batch| - 1].gen == pos.lo + |t.batch| - 1;
  }

  /** The events of a lossless tick settle exactly the generations they end. */
  lemma {:induction false} SettleExact(gens: seq<Gen>, t0: Tick, lo: nat, p: Option<nat>, evs: seq<KeyEvent>)
    requires evs != [] && lo + |evs| <= |gens| && (t0.read.Some? ==> t0.read.value <= lo)
    requires forall i :: 0 <= i < |evs| ==> evs[i].bytes == Final(gens[lo + i])
    requires p.Some? ==> p.value <= Final(gens[lo])
    ensures SettleTotal(p, evs) == Owed(gens, t0, lo, lo + |evs|) - Open(gens, t0, lo, p)
    decreases |evs|
  {
    var n := |evs| - 1;
    if n == 0 {
      assert evs[..0] == [];
      assert Owed(gens, t0, lo, lo) == 0;
    } else {
      SettleExact(gens, t0, lo, p, evs[..n]);
      assert Base(gens, t0, lo + n) == 0;
    }
  }

  /** Where the entry of a lossless tick stands: at the first generation not yet settled, or
      at one that an event in this very batch settles; that event is stamped after the
      snapshot began, so the entry is known to be stale. */
  lemma ReadPlace(gens: seq<Gen>, pos: Pos, t: Tick)
    requires Lifetimes(gens) && PosOk(gens, pos) && Observes(gens, pos, t) && Lossless(gens, pos, t) && t.read.Some?
    ensures pos.lo <= t.read.value <= pos.lo + |t.batch|
    ensures t.read.value < pos.lo + |t.batch| ==> Stale(EvsOf(gens, t), t.snapAt)
  {
    var g, evs := t.read.value, EvsOf(gens, t);
    if pos.lo > 0 {
      AliveAbove(gens, g, pos.lo - 1, t.readAt);
    }
    GoneBelow(gens, pos.lo + |t.batch|, g, t.readAt);
    if g < pos.lo + |t.batch| {
      assert t.batch[g - pos.lo].gen == g;
      assert evs[g - pos.lo] in evs && evs[g - pos.lo].at > t.snapAt;
    }
  }

  /** A connection read before and not settled since is still there. */
  lemma StillThere(gens: seq<Gen>, pos: Pos, t: Tick)
    requires Lifetimes(gens) && PosOk(gens, pos) && Observes(gens, pos, t) && Lossless(gens, pos, t) && t.batch == []
    requires pos.lo < |gens| && gens[pos.lo].birth <= pos.readAt
    ensures t.read == Some(pos.lo)
  {
    assert gens[pos.lo].death > t.readAt;
  }

  lemma ReadAlive(gens: seq<Gen>, pos: Pos, t: Tick)
    requires Observes(gens, pos, t) && t.read.Some?
    ensures var g := t.read.value;
      g < |gens| && gens[g].birth <= t.readAt < gens[g].death && ReadValue(gens, t) == Some(gens[g].count(t.readAt))
  {
  }

  lemma NoReading(gens: seq<Gen>, t: Tick)
    requires t.read.None?
    ensures ReadValue(gens, t) == None
  {
  }

  lemma NoEvents(gens: seq<Gen>, t: Tick, p: Option<nat>)
    requires t.batch == []
    ensures EvsOf(gens, t) == [] && !Stale([], t.snapAt) && SettleTotal(p, []) == 0
  {
  }

  lemma CounterGrows(gens: seq<Gen>, g: nat, s: int, t: int)
    requires Lifetimes(gens) && g < |gens| && s <= t
    ensures gens[g].count(s) <= gens[g].count(t)
  {
  }

  lemma TimeMoves(gens: seq<Gen>, pos: Pos, t: Tick)
    requires PosOk(gens, pos) && Observes(gens, pos, t)
    ensures pos.readAt <= t.readAt
  {
  }

  lemma QuietTick(gens: seq<Gen>, t0: Tick, lo0: nat, pos: Pos, p: Option<nat>, total: int, e: int, t: Tick, kept: bool)
    requires Lifetimes(gens) && PosOk(gens, pos) && Exact(gens, t0, lo0, pos, p, total, e)
    requires Observes(gens, pos, t) && Lossless(gens, pos, t) && t.batch == []
    ensures var r := KeyTick(gens, p, t, kept);
      Exact(gens, t0, lo0, After(pos, t), r.prev, total + r.total, e + TickError(gens, p, t, kept, false))
  {
    hide Lifetimes, PosOk, Observes, Lossless, Owed, Base, SettleTotal, Stale, EvsOf, ReadValue;
    NoEvents(gens, t, p);
    TimeMoves(gens, pos, t);
    if p.Some? {
      StillThere(gens, pos, t);
      CounterGrows(gens, pos.lo, pos.readAt, t.readAt);
    }
    if t.read.Some? {
      ReadPlace(gens, pos, t);
      ReadAlive(gens, pos, t);
    } else {
      NoReading(gens, t);
    }
  }

  lemma LastReading(gens: seq<Gen>, t0: Tick, lo0: nat, pos: Pos, p: Option<nat>, total: int, e: int)
    requires Lifetimes(gens) && Exact(gens, t0, lo0, pos, p, total, e) && p.Some?
    ensures pos.lo < |gens| && p.value <= Final(gens[pos.lo])
  {
    assert gens[pos.lo].count(pos.readAt) <= gens[pos.lo].count(gens[pos.lo].death);
  }

  lemma NoBaseAbove(gens: seq<Gen>, t0: Tick, lo0: nat, pos: Pos, p: Option<nat>, total: int, e: int, lo: nat)
    requires Exact(gens, t0, lo0, pos, p, total, e) && pos.lo < lo
    ensures Base(gens, t0, lo) == 0 && lo0 <= pos.lo && (t0.read.Some? ==> t0.read.value <= lo0)
    ensures total == Owed(gens, t0, lo0, pos.lo) + Open(gens, t0, pos.lo, p) + e
  {
  }

  /** After the events of a tick, and before its entry. */
  lemma BusySettle(gens: seq<Gen>, t0: Tick, lo0: nat, pos: Pos, p: Option<nat>, total: int, e: int, t: Tick)
    requires Lifetimes(gens) && PosOk(gens, pos) && Exact(gens, t0, lo0, pos, p, total, e)
    requires Observes(gens, pos, t) && Lossless(gens, pos, t) && t.batch != []
    ensures var lo := pos.lo + |t.batch|;
      && After(pos, t) == Pos(t.readAt, t.drainAt, lo) && lo0 <= lo <= |gens| && Base(gens, t0, lo) == 0
      && (t0.read.Some? ==> t0.read.value <= lo0)
      && total + SettleTotal(p, EvsOf(gens, t)) == Owed(gens, t0, lo0, lo) + e
  {
    hide Lifetimes, Observes, Lossless, PosOk, Exact, Owed, Base, Final, SettleTotal, Open, EvsOf, After;
    var evs, lo := EvsOf(gens, t), pos.lo + |t.batch|;
    AfterLossless(gens, pos, t);
    FinalsInOrder(gens, pos, t);
    if p.Some? {
      LastReading(gens, t0, lo0, pos, p, total, e);
    }
    NoBaseAbove(gens, t0, lo0, pos, p, total, e, lo);
    SettleExact(gens, t0, pos.lo, p, evs);
    OwedSplit(gens, t0, lo0, pos.lo, lo);
  }

  lemma BusyTick(gens: seq<Gen>, t0: Tick, lo0: nat, pos: Pos, p: Option<nat>, total: int, e: int, t: Tick, kept: bool)
    requires Lifetimes(gens) && PosOk(gens, pos) && Exact(gens, t0, lo0, pos, p, total, e)
    requires Observes(gens, pos, t) && Lossless(gens, pos, t) && t.batch != []
    ensures var r := KeyTick(gens, p, t, kept);
      Exact(gens, t0, lo0, After(pos, t), r.prev, total + r.total, e + TickError(gens, p, t, kept, false))
  {
    hide Lifetimes, Observes, Lossless, PosOk, Owed, Base, SettleTotal, Stale, EvsOf, ReadValue, After, Open;
    BusySettle(gens, t0, lo0, pos, p, total, e, t);
    if t.read.Some? {
      ReadPlace(gens, pos, t);
      ReadAlive(gens, pos, t);
    } else {
      NoReading(gens, t);
    }
    OpenIs(gens, t0, pos.lo + |t.batch|, ReadValue(gens, t));
    OpenIs(gens, t0, pos.lo + |t.batch|, None);
  }

  lemma OpenIs(gens: seq<Gen>, t0: Tick, lo: nat, p: Option<nat>)
    requires Base(gens, t0, lo) == 0
    ensures Open(gens, t0, lo, p) == p.GetOr(0)
  {
  }

  lemma ExactTick(gens: seq<Gen>, t0: Tick, lo0: nat, pos: Pos, p: Option<nat>, total: int, e: int, t: Tick, kept: bool)
    requires Lifetimes(gens) && PosOk(gens, pos) && Exact(gens, t0, lo0, pos, p, total, e)
    requires Observes(gens, pos, t) && Lossless(gens, pos, t)
    ensures var r := KeyTick(gens, p, t, kept);
      Exact(gens, t0, lo0, After(pos, t), r.prev, total + r.total, e + TickError(gens, p, t, kept, false))
  {
    if t.batch == [] {
      QuietTick(gens, t0, lo0, pos, p, total, e, t, kept);
    } else {
      BusyTick(gens, t0, lo0, pos, p, total, e, t, kept);
    }
  }

  /** A stale reading changes the first tick by what it takes away, and nothing later. */
  lemma {:induction false} StaleSettle(p: nat, evs: seq<KeyEvent>)
    requires evs != []
    ensures SettleTotal(Some(p), evs) == SettleTotal(None, evs) - Min(p, evs[0].bytes)
    decreases |evs|
  {
    var n := |evs| - 1;
    if n > 0 {
      StaleSettle(p, evs[..n]);
    } else {
      assert evs[..0] == [];
    }
  }

  lemma StaleTick(gens: seq<Gen>, p: nat, t: Tick, kept: bool)
    ensures var r, s := KeyTick(gens, Some(p), t, kept), KeyTick(gens, None, t, kept);
      && r.prev == s.prev
      && r.total - s.total == TickError(gens, Some(p), t, kept, true) - TickError(gens, None, t, kept, false)
  {
    var evs := EvsOf(gens, t);
    if evs != [] {
      StaleSettle(p, evs);
    }
  }

  // ----- Runs -----

  lemma StartExact(gens: seq<Gen>, start: Pos, t0: Tick, kept0: bool)
    requires Lifetimes(gens) && PosOk(gens, start) && Observes(gens, start, t0) && Lossless(gens, start, t0)
    ensures var lo, p := After(start, t0).lo, StartReading(gens, t0, kept0);
      Exact(gens, t0, lo, After(start, t0), if StaleStart(start, t0, kept0) then None else p, 0,
        StartError(gens, start, t0, kept0))
  {
    hide Lifetimes, PosOk, Observes, Lossless, ReadValue, Owed, After;
    AfterLossless(gens, start, t0);
    FinalsInOrder(gens, start, t0);
    NothingOwed(gens, t0, After(start, t0).lo);
    if t0.read.Some? {
      ReadPlace(gens, start, t0);
      ReadAlive(gens, start, t0);
    } else {
      NoReading(gens, t0);
    }
  }

  lemma NothingOwed(gens: seq<Gen>, t0: Tick, a: nat)
    requires a <= |gens|
    ensures Owed(gens, t0, a, a) == 0
  {
  }

  lemma {:induction false} ExactRun(gens: seq<Gen>, start: Pos, t0: Tick, kept0: bool, ticks: seq<Tick>,
                                    kept: seq<bool>)
    requires Env(gens, start, t0, ticks) && NothingLost(gens, start, t0, ticks) && |kept| == |ticks|
    ensures var r := KeyRun(gens, StartReading(gens, t0, kept0), ticks, kept);
      Exact(gens, t0, After(start, t0).lo, PosAfter(After(start, t0), ticks),
            if ticks == [] && StaleStart(start, t0, kept0) then None else r.prev, r.total,
            RunError(gens, start, t0, kept0, ticks, kept))
  {
    hide Exact, Lossless, Observes, TickError, KeyTick, Owed, Lifetimes, PosOk, StartError, ReadValue, StaleStart,
      StartReading, After;
    var pos0, p0 := After(start, t0), StartReading(gens, t0, kept0);
    if ticks == [] {
      StartExact(gens, start, t0, kept0);
    } else {
      var n := |ticks| - 1;
      PosStays(gens, start, t0);
      PosAfterOk(gens, pos0, ticks[..n]);
      ExactRun(gens, start, t0, kept0, ticks[..n], kept[..n]);
      var stale := n == 0 && StaleStart(start, t0, kept0);
      var r := KeyRun(gens, p0, ticks[..n], kept[..n]);
      StaleIsSome(gens, start, t0, kept0);
      ExactNext(gens, t0, pos0.lo, PosAfter(pos0, ticks[..n]), r.prev, r.total,
                RunError(gens, start, t0, kept0, ticks[..n], kept[..n]), ticks[n], kept[n], stale);
    }
  }

  lemma StaleIsSome(gens: seq<Gen>, start: Pos, t0: Tick, kept0: bool)
    requires Observes(gens, start, t0)
    ensures StaleStart(start, t0, kept0) ==> StartReading(gens, t0, kept0).Some?
  {
  }

  lemma ExactNext(gens: seq<Gen>, t0: Tick, lo0: nat, pos: Pos, p: Option<nat>, total: int, e: int, t: Tick, kept: bool,
                  stale: bool)
    requires Lifetimes(gens) && PosOk(gens, pos) && Exact(gens, t0, lo0, pos, if stale then None else p, total, e)
    requires Observes(gens, pos, t) && Lossless(gens, pos, t) && (stale ==> p.Some?)
    ensures var r := KeyTick(gens, p, t, kept);
      Exact(gens, t0, lo0, After(pos, t), r.prev, total + r.total, e + TickError(gens, p, t, kept, stale))
  {
    ExactTick(gens, t0, lo0, pos, if stale then None else p, total, e, t, kept);
    if stale {
      StaleTick(gens, p.value, t, kept);
    }
    hide KeyTick, TickError, Owed, Lossless, Observes, Lifetimes;
  }

  /** Without loss, once every connection has ended and been drained, what is recorded is what
      is owed, less the connections that ended between the baseline's read and its drain, with
      the errors of stale readings and of ticks in which the device was unknown. */
  lemma RecordedExactly(gens: seq<Gen>, start: Pos, t0: Tick, inp0: Input, ticks: seq<Tick>, inputs: seq<Input>, k: Key,
                        d: Direction)
    requires Env(gens, start, t0, ticks) && NothingLost(gens, start, t0, ticks) && Drained(gens, start, t0, ticks)
    requires Shows(gens, t0, inp0, k, d) && ShowsAll(gens, ticks, inputs, k, d)
    ensures After(start, t0).lo <= |gens| && 0 <= Owed(gens, t0, FirstOwed(gens, t0), After(start, t0).lo)
    ensures Recorded(inp0, inputs, k, d) ==
            Owed(gens, t0, FirstOwed(gens, t0), |gens|) - Owed(gens, t0, FirstOwed(gens, t0), After(start, t0).lo)
            + RunError(gens, start, t0, inp0.keep(k.src), ticks, KeptIn(inputs, k))
  {
    var lo0, f := After(start, t0).lo, FirstOwed(gens, t0);
    PosStays(gens, start, t0);
    FirstBelow(gens, start, t0);
    OwedSplit(gens, t0, f, lo0, |gens|);
    OwedGrows(gens, t0, f, f, lo0);
    ExactRun(gens, start, t0, inp0.keep(k.src), ticks, KeptIn(inputs, k));
    RecordedIs(gens, t0, inp0, ticks, inputs, k, d);
    hide KeyRun, RunError, Recorded, KeptIn, ObservesAll, LosslessAll, Observes, Lossless, Shows, StartReading;
  }

  lemma FirstBelow(gens: seq<Gen>, start: Pos, t0: Tick)
    requires Lifetimes(gens) && PosOk(gens, start) && Observes(gens, start, t0) && Lossless(gens, start, t0)
    ensures FirstOwed(gens, t0) <= After(start, t0).lo && Sensible(gens, t0)
  {
    AfterLossless(gens, start, t0);
    FinalsInOrder(gens, start, t0);
    var f := FirstOwed(gens, t0);
    if f > 0 {
      assert gens[f - 1].death <= t0.readAt;
    }
  }

  // ----- The device always known -----

  predicate AlwaysKnown(inp0: Input, inputs: seq<Input>, k: Key) {
    inp0.keep(k.src) && forall i :: 0 <= i < |inputs| ==> inputs[i].keep(k.src)
  }

  /** What a stale baseline reading takes from the first tick after it. */
  function StaleLoss(gens: seq<Gen>, start: Pos, t0: Tick, ticks: seq<Tick>): nat {
    if ticks == [] || !StaleStart(start, t0, true) then 0
    else Short(StartReading(gens, t0, true).GetOr(0), EvsOf(gens, ticks[0]), ReadValue(gens, ticks[0]))
  }

  lemma {:induction false} ErrorWhenKnown(gens: seq<Gen>, start: Pos, t0: Tick, ticks: seq<Tick>, kept: seq<bool>)
    requires |kept| == |ticks| && forall i :: 0 <= i < |kept| ==> kept[i]
    ensures RunError(gens, start, t0, true, ticks, kept) == 0 - StaleLoss(gens, start, t0, ticks)
  {
    hide Short, EvsOf, ReadValue, StartReading;
    if ticks != [] {
      var n := |ticks| - 1;
      ErrorWhenKnown(gens, start, t0, ticks[..n], kept[..n]);
      if n == 0 {
        assert ticks[..0] == [] && kept[..0] == [];
      } else {
        assert ticks[..n][0] == ticks[0];
      }
    }
  }

  /** Without loss and with the device known throughout, the bytes recorded are exactly the final
      bytes less the baseline bytes of all connections not gone at the baseline, however often the
      key is reused, if and only if the connections that ended between the baseline's read and its
      drain had sent nothing after it, and a stale baseline reading takes nothing from the first tick. */
  lemma ExactIff(gens: seq<Gen>, start: Pos, t0: Tick, inp0: Input, ticks: seq<Tick>, inputs: seq<Input>, k: Key,
                 d: Direction)
    requires Env(gens, start, t0, ticks) && NothingLost(gens, start, t0, ticks) && Drained(gens, start, t0, ticks)
    requires Shows(gens, t0, inp0, k, d) && ShowsAll(gens, ticks, inputs, k, d) && AlwaysKnown(inp0, inputs, k)
    ensures After(start, t0).lo <= |gens|
    ensures Recorded(inp0, inputs, k, d) == Owed(gens, t0, FirstOwed(gens, t0), |gens|) <==>
            Owed(gens, t0, FirstOwed(gens, t0), After(start, t0).lo) == 0 && StaleLoss(gens, start, t0, ticks) == 0
  {
    RecordedExactly(gens, start, t0, inp0, ticks, inputs, k, d);
    ErrorWhenKnown(gens, start, t0, ticks, KeptIn(inputs, k));
  }

  /** No event drained with the baseline ends a connection that was there when it was read. */
  predicate CleanBaseline(gens: seq<Gen>, t0: Tick) {
    forall i :: 0 <= i < |t0.batch| ==> t0.batch[i].gen < |gens| && gens[t0.batch[i].gen].death <= t0.readAt
  }

  /** No byte is lost and none is counted twice, even when the key is reused: with a clean
      baseline the bytes recorded are the final bytes less the baseline bytes. */
  lemma NoByteLostOrDoubled(gens: seq<Gen>, start: Pos, t0: Tick, inp0: Input, ticks: seq<Tick>, inputs: seq<Input>,
                            k: Key, d: Direction)
    requires Env(gens, start, t0, ticks) && NothingLost(gens, start, t0, ticks) && Drained(gens, start, t0, ticks)
    requires Shows(gens, t0, inp0, k, d) && ShowsAll(gens, ticks, inputs, k, d) && AlwaysKnown(inp0, inputs, k)
    requires CleanBaseline(gens, t0)
    ensures Recorded(inp0, inputs, k, d) == Owed(gens, t0, FirstOwed(gens, t0), |gens|)
  {
    CleanStart(gens, start, t0);
    ExactIff(gens, start, t0, inp0, ticks, inputs, k, d);
  }

  lemma CleanStart(gens: seq<Gen>, start: Pos, t0: Tick)
    requires Lifetimes(gens) && PosOk(gens, start) && Observes(gens, start, t0) && Lossless(gens, start, t0)
            && CleanBaseline(gens, t0)
    ensures FirstOwed(gens, t0) == After(start, t0).lo && !StaleStart(start, t0, true)
  {
    AfterLossless(gens, start, t0);
    FirstBelow(gens, start, t0);
    var f, lo := FirstOwed(gens, t0), After(start, t0).lo;
    if f < lo {
      GoneUpTo(gens, start, t0, f);
    }
    if t0.read.Some? {
      FirstIsRead(gens, start, t0);
    }
  }

  lemma GoneUpTo(gens: seq<Gen>, start: Pos, t0: Tick, f: nat)
    requires Lifetimes(gens) && PosOk(gens, start) && Observes(gens, start, t0) && Lossless(gens, start, t0)
            && CleanBaseline(gens, t0)
    requires f < start.lo + |t0.batch|
    ensures f < |gens| && gens[f].death <= t0.readAt
  {
    if f < start.lo {
      assert gens[start.lo - 1].death <= t0.readAt;
    } else {
      assert t0.batch[f - start.lo].gen == f;
    }
  }

  // ----- The device unknown in one tick -----

  lemma {:induction false} ErrorOfOneGap(gens: seq<Gen>, start: Pos, t0: Tick, ticks: seq<Tick>, kept: seq<bool>,
                                         g: nat)
    requires |kept| == |ticks| && g < |kept| && forall i :: 0 <= i < |kept| ==> (kept[i] <==> i != g)
    requires !StaleStart(start, t0, true)
    ensures RunError(gens, start, t0, true, ticks, kept) ==
            GapError(KeyRun(gens, StartReading(gens, t0, true), ticks[..g], kept[..g]).prev, EvsOf(gens, ticks[g]))
    decreases |ticks|
  {
    hide GapError, EvsOf, ReadValue, StartReading, KeyTick;
    var n := |ticks| - 1;
    if g < n {
      ErrorOfOneGap(gens, start, t0, ticks[..n], kept[..n], g);
      assert ticks[..n][..g] == ticks[..g] && kept[..n][..g] == kept[..g];
    } else {
      ErrorWhenKnown(gens, start, t0, ticks[..n], kept[..n]);
    }
  }

  /** With the device unknown in one tick, the count stays exact if and only if the gap is
      harmless: the events of that tick carry nothing that was not recorded, or, if the key has
      none, its last reading was zero or the connection was not there. */
  lemma OneGapIff(gens: seq<Gen>, start: Pos, t0: Tick, inp0: Input, ticks: seq<Tick>, inputs: seq<Input>, k: Key,
                  d: Direction, g: nat)
    requires Env(gens, start, t0, ticks) && NothingLost(gens, start, t0, ticks) && Drained(gens, start, t0, ticks)
    requires Shows(gens, t0, inp0, k, d) && ShowsAll(gens, ticks, inputs, k, d) && CleanBaseline(gens, t0)
    requires inp0.keep(k.src) && g < |inputs| && forall i :: 0 <= i < |inputs| ==> (inputs[i].keep(k.src) <==> i != g)
    ensures var p := KeyRun(gens, StartReading(gens, t0, true), ticks[..g], KeptIn(inputs, k)[..g]).prev;
      var evs := EvsOf(gens, ticks[g]);
      Recorded(inp0, inputs, k, d) == Owed(gens, t0, FirstOwed(gens, t0), |gens|) <==>
        if evs != [] then SettleTotal(p, evs) == 0 else p == None || p == Some(0)
  {
    hide KeyRun, RunError, Recorded, Shows, EvsOf, StartReading, SettleTotal, Lifetimes, PosOk, Observes, ObservesAll,
      Lossless, LosslessAll, CleanBaseline, StaleStart, After, FirstOwed;
    CleanStart(gens, start, t0);
    RecordedExactly(gens, start, t0, inp0, ticks, inputs, k, d);
    ErrorOfOneGap(gens, start, t0, ticks, KeptIn(inputs, k), g);
    NothingOwed(gens, t0, FirstOwed(gens, t0));
  }
}
