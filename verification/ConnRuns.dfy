/**
 Whole runs of the byte accounting against the kernel's connection table.

 The environment of one key is a sequence of connection generations: a five-tuple may be
 reused, lifetimes on it do not overlap, and counters only grow.  Every tick reads the
 table and then drains the DESTROY events received so far.
 */
module ConnRuns {
  import opened Common
  import opened ConnAccounting

  /** One connection: alive from `birth` until just before `death`; `count` is its counter. */
  datatype Gen = Gen(birth: int, death: int, count: int -> nat)

  function Final(g: Gen): nat { g.count(g.death) }

  ghost predicate Monotone(g: Gen) { forall s: int, t: int :: s <= t ==> g.count(s) <= g.count(t) }

  ghost predicate Lifetimes(gens: seq<Gen>) {
    && (forall i :: 0 <= i < |gens| ==> gens[i].birth <= gens[i].death && Monotone(gens[i]))
    && (forall i, j :: 0 <= i < j < |gens| ==> gens[i].death <= gens[j].birth)
  }

  /** An event as received: the generation it ends and the time of receipt. */
  datatype Receipt = Receipt(gen: nat, at: int)

  /** A tick: the snapshot starts at `snapAt`, this key's entry is read at `readAt`, the
      events are drained at `drainAt`. */
  datatype Tick = Tick(snapAt: int, readAt: int, drainAt: int, read: Option<nat>, batch: seq<Receipt>)

  /** Where the observation stands: times of the last read and drain, and one more than the
      last generation whose event was delivered. */
  datatype Pos = Pos(readAt: int, drainAt: int, lo: nat)

  ghost predicate PosOk(gens: seq<Gen>, pos: Pos) {
    && pos.readAt <= pos.drainAt
    && pos.lo <= |gens|
    && (pos.lo > 0 ==> gens[pos.lo - 1].death <= pos.drainAt)
  }

  /** A tick the kernel can produce.  The live connection, if any, is listed; an event is
      received no earlier than the destruction, in order, and an event missing from the batch
      drained after its generation was gone never comes. */
  ghost predicate Observes(gens: seq<Gen>, pos: Pos, t: Tick) {
    && t.snapAt <= t.readAt <= t.drainAt && pos.drainAt <= t.readAt
    && (t.read.Some? ==> t.read.value < |gens|)
    && (forall g :: 0 <= g < |gens| ==> (t.read == Some(g) <==> gens[g].birth <= t.readAt < gens[g].death))
    && (forall i :: 0 <= i < |t.batch| ==>
          && pos.lo <= t.batch[i].gen < |gens|
          && pos.readAt < gens[t.batch[i].gen].death <= t.batch[i].at
          && gens[t.batch[i].gen].death <= t.drainAt)
    && (forall i, j :: 0 <= i < j < |t.batch| ==> t.batch[i].gen < t.batch[j].gen)
  }

  function After(pos: Pos, t: Tick): Pos {
    Pos(t.readAt, t.drainAt, if t.batch == [] then pos.lo else t.batch[|t.batch| - 1].gen + 1)
  }

  /** No event is missing: the batch goes on where the last one stopped and reaches every
      generation that was gone when the entry was read. */
  ghost predicate Lossless(gens: seq<Gen>, pos: Pos, t: Tick) {
    && (forall i :: 0 <= i < |t.batch| ==> t.batch[i].gen == pos.lo + i)
    && (forall g :: 0 <= g < |gens| && gens[g].death <= t.readAt ==> g < pos.lo + |t.batch|)
  }

  function PosAfter(pos: Pos, ticks: seq<Tick>): Pos {
    if ticks == [] then pos else After(PosAfter(pos, ticks[..|ticks| - 1]), ticks[|ticks| - 1])
  }

  ghost predicate ObservesAll(gens: seq<Gen>, pos: Pos, ticks: seq<Tick>) {
    ticks != [] ==>
      && ObservesAll(gens, pos, ticks[..|ticks| - 1])
      && Observes(gens, PosAfter(pos, ticks[..|ticks| - 1]), ticks[|ticks| - 1])
  }

  ghost predicate LosslessAll(gens: seq<Gen>, pos: Pos, ticks: seq<Tick>) {
    ticks != [] ==>
      && LosslessAll(gens, pos, ticks[..|ticks| - 1])
      && Lossless(gens, PosAfter(pos, ticks[..|ticks| - 1]), ticks[|ticks| - 1])
  }

  /** A baseline tick and the ticks after it. */
  ghost predicate Env(gens: seq<Gen>, start: Pos, t0: Tick, ticks: seq<Tick>) {
    && Lifetimes(gens) && PosOk(gens, start) && Observes(gens, start, t0)
    && ObservesAll(gens, After(start, t0), ticks)
  }

  ghost predicate NothingLost(gens: seq<Gen>, start: Pos, t0: Tick, ticks: seq<Tick>) {
    Lossless(gens, start, t0) && LosslessAll(gens, After(start, t0), ticks)
  }

  /** Every connection has ended and its event was drained. */
  predicate Drained(gens: seq<Gen>, start: Pos, t0: Tick, ticks: seq<Tick>) {
    PosAfter(After(start, t0), ticks).lo == |gens|
  }

  lemma PosStays(gens: seq<Gen>, pos: Pos, t: Tick)
    requires Lifetimes(gens) && PosOk(gens, pos) && Observes(gens, pos, t)
    ensures PosOk(gens, After(pos, t)) && pos.lo <= After(pos, t).lo
  {
  }

  lemma {:induction false} PosAfterOk(gens: seq<Gen>, pos: Pos, ticks: seq<Tick>)
    requires Lifetimes(gens) && PosOk(gens, pos) && ObservesAll(gens, pos, ticks)
    ensures PosOk(gens, PosAfter(pos, ticks)) && pos.lo <= PosAfter(pos, ticks).lo
  {
    if ticks != [] {
      PosAfterOk(gens, pos, ticks[..|ticks| - 1]);
      PosStays(gens, PosAfter(pos, ticks[..|ticks| - 1]), ticks[|ticks| - 1]);
    }
  }

  /** A generation alive at a time is not below one that is gone by then. */
  lemma AliveAbove(gens: seq<Gen>, g: nat, h: nat, time: int)
    requires Lifetimes(gens) && g < |gens| && h < |gens| && gens[h].death <= time < gens[g].death
    ensures h < g
  {
  }

  /** A generation below one that is born is gone. */
  lemma GoneBelow(gens: seq<Gen>, h: nat, g: nat, time: int)
    requires Lifetimes(gens)
    ensures h < g < |gens| && gens[g].birth <= time ==> gens[h].death <= time
  {
  }

  // ----- What is owed -----

  /** The baseline reading of a generation. */
  function Base(gens: seq<Gen>, t0: Tick, g: nat): nat {
    if t0.read == Some(g) && g < |gens| then gens[g].count(t0.readAt) else 0
  }

  /** Final bytes less baseline bytes, summed over the generations from `lo` to `hi`. */
  function Owed(gens: seq<Gen>, t0: Tick, lo: nat, hi: nat): int
    requires hi <= |gens|
  {
    if hi <= lo then 0 else Owed(gens, t0, lo, hi - 1) + Final(gens[hi - 1]) - Base(gens, t0, hi - 1)
  }

  /** The first generation not gone at a time. */
  function FirstAlive(gens: seq<Gen>, time: int, i: nat): (r: nat)
    requires i <= |gens|
    ensures i <= r <= |gens|
    ensures r < |gens| ==> gens[r].death > time
    ensures forall j :: i <= j < r ==> gens[j].death <= time
    decreases |gens| - i
  {
    if i == |gens| || gens[i].death > time then i else FirstAlive(gens, time, i + 1)
  }

  /** Everything is owed for the connections that were not gone when the baseline was read. */
  function FirstOwed(gens: seq<Gen>, t0: Tick): (r: nat)
    ensures r <= |gens|
  {
    FirstAlive(gens, t0.readAt, 0)
  }

  lemma FirstIsRead(gens: seq<Gen>, pos: Pos, t: Tick)
    requires Lifetimes(gens) && Observes(gens, pos, t) && t.read.Some?
    ensures FirstOwed(gens, t) == t.read.value
  {
    var g, f := t.read.value, FirstOwed(gens, t);
    if f < g {
      GoneBelow(gens, f, g, t.readAt);
    }
  }

  lemma {:induction false} OwedSplit(gens: seq<Gen>, t0: Tick, a: nat, b: nat, c: nat)
    requires a <= b <= c <= |gens|
    ensures Owed(gens, t0, a, c) == Owed(gens, t0, a, b) + Owed(gens, t0, b, c)
  {
    if b < c {
      OwedSplit(gens, t0, a, b, c - 1);
    }
  }

  /** A baseline reading is that of a connection not gone yet. */
  predicate Sensible(gens: seq<Gen>, t0: Tick) {
    t0.read.Some? ==> t0.read.value < |gens| && t0.readAt <= gens[t0.read.value].death
  }

  lemma {:induction false} OwedGrows(gens: seq<Gen>, t0: Tick, s0: nat, a: nat, b: nat)
    requires Lifetimes(gens) && a <= b <= |gens| && Sensible(gens, t0)
    ensures Owed(gens, t0, s0, a) <= Owed(gens, t0, s0, b)
  {
    if a < b {
      OwedGrows(gens, t0, s0, a, b - 1);
      assert gens[b - 1].birth <= gens[b - 1].death && Monotone(gens[b - 1]);
    }
  }

  // ----- One key in a run of the program -----

  function ReadValue(gens: seq<Gen>, t: Tick): Option<nat> {
    if t.read.Some? && t.read.value < |gens| then Some(gens[t.read.value].count(t.readAt)) else None
  }

  /** The events of a tick as the program sees them. */
  function EvsOf(gens: seq<Gen>, t: Tick): (r: seq<KeyEvent>)
    ensures |r| == |t.batch|
    ensures forall i :: 0 <= i < |r| && t.batch[i].gen < |gens| ==>
              r[i] == KeyEvent(Final(gens[t.batch[i].gen]), t.batch[i].at)
  {
    seq(|t.batch|, i requires 0 <= i < |t.batch| =>
      KeyEvent(if t.batch[i].gen < |gens| then Final(gens[t.batch[i].gen]) else 0, t.batch[i].at))
  }

  /** A tick for one key: without its device the key is neither settled nor counted nor kept. */
  function KeyTick(gens: seq<Gen>, p: Option<nat>, t: Tick, kept: bool): KeyResult {
    if kept then KeyStep(p, EvsOf(gens, t), ReadValue(gens, t), t.snapAt) else KeyResult(None, 0)
  }

  /** The last reading kept and the bytes recorded after the ticks. */
  function KeyRun(gens: seq<Gen>, p0: Option<nat>, ticks: seq<Tick>, kept: seq<bool>): KeyResult
    requires |kept| == |ticks|
  {
    if ticks == [] then KeyResult(p0, 0) else
      var n := |ticks| - 1;
      var r := KeyRun(gens, p0, ticks[..n], kept[..n]);
      var s := KeyTick(gens, r.prev, ticks[n], kept[n]);
      KeyResult(s.prev, r.total + s.total)
  }

  /** The baseline reading, if the device is known then. */
  function StartReading(gens: seq<Gen>, t0: Tick, kept0: bool): Option<nat> {
    if kept0 then ReadValue(gens, t0) else None
  }

  datatype Input = Input(entries: seq<Entry>, snapAt: int, events: seq<Event>, keep: string -> bool)

  /** The input of a tick shows this key as the environment has it; its device may be unknown. */
  predicate Shows(gens: seq<Gen>, t: Tick, inp: Input, k: Key, d: Direction) {
    && UniqueKeys(inp.entries) && inp.snapAt == t.snapAt
    && EntryOf(inp.entries, k, d) == ReadValue(gens, t)
    && EventsOf(inp.events, k, d) == EvsOf(gens, t)
  }

  predicate ShowsAll(gens: seq<Gen>, ticks: seq<Tick>, inputs: seq<Input>, k: Key, d: Direction) {
    |ticks| == |inputs| && forall i :: 0 <= i < |ticks| ==> Shows(gens, ticks[i], inputs[i], k, d)
  }

  /** In which ticks the device of the key is known. */
  function KeptIn(inputs: seq<Input>, k: Key): (r: seq<bool>)
    ensures |r| == |inputs|
  {
    seq(|inputs|, i requires 0 <= i < |inputs| => inputs[i].keep(k.src))
  }

  /** All deltas of a run that starts from a baseline, and the last snapshot kept. */
  function Run(prev: map<Key, Bytes>, inputs: seq<Input>): Counted {
    if inputs == [] then Counted(prev, []) else
      var r := Run(prev, inputs[..|inputs| - 1]);
      var i := inputs[|inputs| - 1];
      var c := Step(r.next, i.entries, i.snapAt, i.events, i.keep);
      Counted(c.next, r.out + c.out)
  }

  lemma {:induction false} TotalAppend(a: seq<Delta>, b: seq<Delta>, k: Key, d: Direction)
    ensures KeyTotal(a + b, k, d) == KeyTotal(a, k, d) + KeyTotal(b, k, d)
  {
    if b == [] {
      assert a + b == a;
    } else {
      assert (a + b)[..|a + b| - 1] == a + b[..|b| - 1];
      TotalAppend(a, b[..|b| - 1], k, d);
    }
  }

  /** One step of the program, for a key whose device is known or not. */
  lemma StepIsTick(prev: map<Key, Bytes>, inp: Input, gens: seq<Gen>, t: Tick, k: Key, d: Direction)
    requires Shows(gens, t, inp, k, d)
    ensures var c := Step(prev, inp.entries, inp.snapAt, inp.events, inp.keep);
      KeyResult(Get(c.next, k, d), KeyTotal(c.out, k, d)) == KeyTick(gens, Get(prev, k, d), t, inp.keep(k.src))
  {
    if inp.keep(k.src) {
      StepOfKey(prev, inp.entries, inp.snapAt, inp.events, inp.keep, k, d);
    } else {
      StepUnkept(prev, inp.entries, inp.snapAt, inp.events, inp.keep, k, d);
    }
  }

  /** What a run of the program keeps and records for a key is the run of that key. */
  lemma {:induction false} RunOfKey(prev: map<Key, Bytes>, inputs: seq<Input>, gens: seq<Gen>, ticks: seq<Tick>, k: Key,
                                    d: Direction)
    requires ShowsAll(gens, ticks, inputs, k, d)
    ensures var r := Run(prev, inputs);
      KeyResult(Get(r.next, k, d), KeyTotal(r.out, k, d)) == KeyRun(gens, Get(prev, k, d), ticks, KeptIn(inputs, k))
  {
    hide Step, KeyTick, Shows, EvsOf, ReadValue;
    if inputs != [] {
      var n := |inputs| - 1;
      RunOfKey(prev, inputs[..n], gens, ticks[..n], k, d);
      var s, i := Run(prev, inputs[..n]), inputs[n];
      StepIsTick(s.next, i, gens, ticks[n], k, d);
      TotalAppend(s.out, Step(s.next, i.entries, i.snapAt, i.events, i.keep).out, k, d);
      assert KeptIn(inputs, k)[..n] == KeptIn(inputs[..n], k);
    }
  }

  lemma StartOfKey(gens: seq<Gen>, t0: Tick, inp0: Input, k: Key, d: Direction)
    requires Shows(gens, t0, inp0, k, d)
    ensures Get(Baseline(inp0.entries, inp0.keep), k, d) == StartReading(gens, t0, inp0.keep(k.src))
  {
    if inp0.keep(k.src) {
      BaselineOfKey(inp0.entries, inp0.keep, k, d);
    } else {
      BaselineUnkept(inp0.entries, inp0.keep, k);
    }
  }

  /** The bytes a run of the program records for a key after its baseline. */
  function Recorded(inp0: Input, inputs: seq<Input>, k: Key, d: Direction): nat {
    KeyTotal(Run(Baseline(inp0.entries, inp0.keep), inputs).out, k, d)
  }

  lemma RecordedIs(gens: seq<Gen>, t0: Tick, inp0: Input, ticks: seq<Tick>, inputs: seq<Input>, k: Key, d: Direction)
    requires Shows(gens, t0, inp0, k, d) && ShowsAll(gens, ticks, inputs, k, d)
    ensures Recorded(inp0, inputs, k, d) ==
            KeyRun(gens, StartReading(gens, t0, inp0.keep(k.src)), ticks, KeptIn(inputs, k)).total
  {
    StartOfKey(gens, t0, inp0, k, d);
    RunOfKey(Baseline(inp0.entries, inp0.keep), inputs, gens, ticks, k, d);
  }

  // ----- Every environment is that of some run -----

  /** An input that shows one key, and no other. */
  function InputOf(gens: seq<Gen>, t: Tick, k: Key, kept: bool): Input {
    Input(if ReadValue(gens, t).Some? then [Entry(k, Bytes(ReadValue(gens, t).value, ReadValue(gens, t).value))]
      else [],
          t.snapAt, EventsFor(EvsOf(gens, t), k), (src: string) => kept)
  }

  function EventsFor(evs: seq<KeyEvent>, k: Key): seq<Event> {
    if evs == [] then [] else
      var e := evs[|evs| - 1];
      EventsFor(evs[..|evs| - 1], k) + [Event(k, Bytes(e.bytes, e.bytes), true, e.at)]
  }

  lemma {:induction false} EventsForShow(evs: seq<KeyEvent>, k: Key, d: Direction)
    ensures EventsOf(EventsFor(evs, k), k, d) == evs
  {
    if evs != [] {
      var n := |evs| - 1;
      EventsForShow(evs[..n], k, d);
      var rest := EventsFor(evs[..n], k);
      assert EventsFor(evs, k)[..|rest|] == rest;
      assert evs == evs[..n] + [evs[n]];
    }
  }

  /** So every run of one key is a run of the program. */
  lemma InputShows(gens: seq<Gen>, t: Tick, k: Key, kept: bool, d: Direction)
    ensures Shows(gens, t, InputOf(gens, t, k, kept), k, d)
  {
    EventsForShow(EvsOf(gens, t), k, d);
    var i := InputOf(gens, t, k, kept);
    assert i.entries != [] ==> i.entries[..0] == [];
  }
}
