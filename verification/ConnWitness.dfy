/** Runs the kernel can produce in which the count is not exact. */
module ConnWitness {
  import opened Common
  import opened ConnAccounting
  import opened ConnRuns
  import opened ConnExact

  /** A connection whose counter stands still. */
  function Still(birth: int, death: int, bytes: nat): Gen { Gen(birth, death, (t: int) => bytes) }

  function InputsOf(gens: seq<Gen>, ticks: seq<Tick>, k: Key, kept: seq<bool>): (r: seq<Input>)
    requires |kept| == |ticks|
    ensures |r| == |ticks|
  {
    seq(|ticks|, i requires 0 <= i < |ticks| => InputOf(gens, ticks[i], k, kept[i]))
  }

  lemma InputsShow(gens: seq<Gen>, ticks: seq<Tick>, k: Key, kept: seq<bool>, d: Direction)
    requires |kept| == |ticks|
    ensures ShowsAll(gens, ticks, InputsOf(gens, ticks, k, kept), k, d)
    ensures KeptIn(InputsOf(gens, ticks, k, kept), k) == kept
  {
    forall i | 0 <= i < |ticks| ensures Shows(gens, ticks[i], InputsOf(gens, ticks, k, kept)[i], k, d) {
      InputShows(gens, ticks[i], k, kept[i], d);
    }
  }

  /** A run whose ticks so far leave the observation at `pos`, and in which nothing was lost. */
  ghost predicate Reaches(gens: seq<Gen>, start: Pos, t0: Tick, ticks: seq<Tick>, pos: Pos) {
    Env(gens, start, t0, ticks) && NothingLost(gens, start, t0, ticks) && PosAfter(After(start, t0), ticks) == pos
  }

  /** A tick that continues a run. */
  ghost predicate Moves(gens: seq<Gen>, pos: Pos, t: Tick, to: Pos) {
    Observes(gens, pos, t) && Lossless(gens, pos, t) && After(pos, t) == to
  }

  lemma ReachesStart(gens: seq<Gen>, start: Pos, t0: Tick, pos: Pos)
    requires Lifetimes(gens) && PosOk(gens, start) && Moves(gens, start, t0, pos)
    ensures Reaches(gens, start, t0, [], pos)
  {
    hide Lifetimes, PosOk, Observes, Lossless, After;
  }

  lemma ReachesNext(gens: seq<Gen>, start: Pos, t0: Tick, ticks: seq<Tick>, pos: Pos, t: Tick, to: Pos)
    requires Reaches(gens, start, t0, ticks, pos) && Moves(gens, pos, t, to)
    ensures Reaches(gens, start, t0, ticks + [t], to)
  {
    hide Lifetimes, PosOk, Observes, Lossless, After;
    var ts := ticks + [t];
    assert ts[..|ts| - 1] == ticks && ts[|ts| - 1] == t;
  }

  lemma StillLives(birth: int, death: int, bytes: nat)
    requires birth <= death
    ensures Monotone(Still(birth, death, bytes))
  {
  }

  const START := Pos(5, 5, 0)

  // ----- A stale baseline -----

  const REUSED: seq<Gen> := [Still(0, 15, 100), Still(20, 40, 70)]

  const STALE_START := Tick(10, 10, 18, Some(0), [Receipt(0, 16)])

  const STALE1 := Tick(30, 30, 31, Some(1), [])

  const STALE2 := Tick(50, 50, 51, None, [Receipt(1, 41)])

  /** A tick that sees a live connection, the first one not settled, and no event. */
  lemma QuietMove(gens: seq<Gen>, pos: Pos, t: Tick, g: nat)
    requires Lifetimes(gens) && g < |gens| && pos.lo == g && t.read == Some(g) && t.batch == []
    requires pos.drainAt <= t.readAt && t.snapAt <= t.readAt <= t.drainAt && gens[g].birth <= t.readAt < gens[g].death
    ensures Moves(gens, pos, t, Pos(t.readAt, t.drainAt, g))
  {
    forall h | 0 <= h < |gens| ensures t.read == Some(h) <==> gens[h].birth <= t.readAt < gens[h].death {
      GoneBelow(gens, h, g, t.readAt);
    }
  }

  /** A tick that drains the event of the first connection not settled, dead or alive when read. */
  lemma EndMove(gens: seq<Gen>, pos: Pos, t: Tick, g: nat, at: int)
    requires Lifetimes(gens) && g < |gens| && pos.lo == g && t.batch == [Receipt(g, at)]
    requires pos.drainAt <= t.readAt && t.snapAt <= t.readAt <= t.drainAt && gens[g].birth <= t.readAt
    requires t.read == if t.readAt < gens[g].death then Some(g) else None
    requires pos.readAt < gens[g].death <= at && gens[g].death <= t.drainAt
    requires g + 1 < |gens| ==> t.readAt < gens[g + 1].birth
    ensures Moves(gens, pos, t, Pos(t.readAt, t.drainAt, g + 1))
  {
    forall h | 0 <= h < |gens|
      ensures (t.read == Some(h) <==> gens[h].birth <= t.readAt < gens[h].death)
              && (gens[h].death <= t.readAt ==> h <= g)
    {
      GoneBelow(gens, h, g, t.readAt);
      assert h > g + 1 ==> gens[g + 1].death <= gens[h].birth;
    }
  }

  lemma StaleLives()
    ensures Lifetimes(REUSED) && PosOk(REUSED, START) && |REUSED| == 2
    ensures REUSED[0].birth == 0 && REUSED[0].death == 15 && REUSED[1].birth == 20 && REUSED[1].death == 40
  {
    StillLives(0, 15, 100);
    StillLives(20, 40, 70);
    hide Monotone;
  }

  lemma StaleMoves()
    ensures Moves(REUSED, START, STALE_START, Pos(10, 18, 1))
    ensures Moves(REUSED, Pos(10, 18, 1), STALE1, Pos(30, 31, 1))
            && Moves(REUSED, Pos(30, 31, 1), STALE2, Pos(50, 51, 2))
  {
    hide Moves, Lifetimes;
    StaleLives();
    EndMove(REUSED, START, STALE_START, 0, 16);
    QuietMove(REUSED, Pos(10, 18, 1), STALE1, 1);
    EndMove(REUSED, Pos(30, 31, 1), STALE2, 1, 41);
  }

  lemma StaleRun()
    ensures Reaches(REUSED, START, STALE_START, [STALE1, STALE2], Pos(50, 51, 2))
  {
    StaleLives();
    StaleMoves();
    hide Reaches, Moves, Lifetimes, PosOk;
    ReachesStart(REUSED, START, STALE_START, Pos(10, 18, 1));
    ReachesNext(REUSED, START, STALE_START, [], Pos(10, 18, 1), STALE1, Pos(30, 31, 1));
    assert [] + [STALE1] == [STALE1] && [STALE1] + [STALE2] == [STALE1, STALE2];
    ReachesNext(REUSED, START, STALE_START, [STALE1], Pos(30, 31, 1), STALE2, Pos(50, 51, 2));
  }

  lemma StaleValues()
    ensures |REUSED| == 2 && After(START, STALE_START).lo == 1 && FirstOwed(REUSED, STALE_START) == 0
    ensures Owed(REUSED, STALE_START, 0, 1) == 0 && StaleLoss(REUSED, START, STALE_START, [STALE1, STALE2]) == 70
  {
    assert EvsOf(REUSED, STALE1) == [];
  }

  /** A connection in the baseline, its event drained with the baseline, and its key used again:
      no event is lost and the device is always known, and yet 70 bytes too few are recorded. */
  lemma StaleBaselineLoses(k: Key, d: Direction) returns (inp0: Input, inputs: seq<Input>)
    ensures Reaches(REUSED, START, STALE_START, [STALE1, STALE2], Pos(50, 51, |REUSED|))
    ensures Shows(REUSED, STALE_START, inp0, k, d) && ShowsAll(REUSED, [STALE1, STALE2], inputs, k, d)
            && AlwaysKnown(inp0, inputs, k)
    ensures Recorded(inp0, inputs, k, d) == Owed(REUSED, STALE_START, FirstOwed(REUSED, STALE_START), |REUSED|) - 70
  {
    hide Env, NothingLost, Recorded, RunError, Shows, ShowsAll, Owed, FirstOwed, StaleLoss, EvsOf, ReadValue, InputOf,
      PosAfter, After, KeptIn;
    var ts := [STALE1, STALE2];
    StaleRun();
    StaleValues();
    inp0 := InputOf(REUSED, STALE_START, k, true);
    inputs := InputsOf(REUSED, ts, k, [true, true]);
    InputShows(REUSED, STALE_START, k, true, d);
    InputsShow(REUSED, ts, k, [true, true], d);
    KnownInputs(REUSED, STALE_START, k, true);
    KnownInputs(REUSED, STALE1, k, true);
    KnownInputs(REUSED, STALE2, k, true);
    RecordedExactly(REUSED, START, STALE_START, inp0, ts, inputs, k, d);
    ErrorWhenKnown(REUSED, START, STALE_START, ts, KeptIn(inputs, k));
  }

  lemma KnownInputs(gens: seq<Gen>, t: Tick, k: Key, kept: bool)
    ensures InputOf(gens, t, k, kept).keep(k.src) == kept
  {
  }

  // ----- A gap -----

  const LONG: seq<Gen> := [Still(0, 50, 100)]

  const GAP_START := Tick(10, 10, 11, Some(0), [])

  const GAP1 := Tick(20, 20, 21, Some(0), [])

  const GAP2 := Tick(30, 30, 31, Some(0), [])

  const GAP3 := Tick(60, 60, 61, None, [Receipt(0, 51)])

  lemma GapLives()
    ensures Lifetimes(LONG) && PosOk(LONG, START) && CleanBaseline(LONG, GAP_START) && |LONG| == 1
    ensures LONG[0].birth == 0 && LONG[0].death == 50
  {
    StillLives(0, 50, 100);
    hide Monotone;
  }

  lemma GapMoves()
    ensures Moves(LONG, START, GAP_START, Pos(10, 11, 0)) && Moves(LONG, Pos(10, 11, 0), GAP1, Pos(20, 21, 0))
    ensures Moves(LONG, Pos(20, 21, 0), GAP2, Pos(30, 31, 0)) && Moves(LONG, Pos(30, 31, 0), GAP3, Pos(60, 61, 1))
  {
    hide Moves, Lifetimes;
    GapLives();
    QuietMove(LONG, START, GAP_START, 0);
    QuietMove(LONG, Pos(10, 11, 0), GAP1, 0);
    QuietMove(LONG, Pos(20, 21, 0), GAP2, 0);
    EndMove(LONG, Pos(30, 31, 0), GAP3, 0, 51);
  }

  lemma GapRun()
    ensures Reaches(LONG, START, GAP_START, [GAP1, GAP2, GAP3], Pos(60, 61, 1))
  {
    GapLives();
    GapMoves();
    hide Reaches, Moves, Lifetimes, PosOk;
    ReachesStart(LONG, START, GAP_START, Pos(10, 11, 0));
    ReachesNext(LONG, START, GAP_START, [], Pos(10, 11, 0), GAP1, Pos(20, 21, 0));
    assert [] + [GAP1] == [GAP1] && [GAP1] + [GAP2] == [GAP1, GAP2] && [GAP1, GAP2] + [GAP3] == [GAP1, GAP2, GAP3];
    ReachesNext(LONG, START, GAP_START, [GAP1], Pos(20, 21, 0), GAP2, Pos(30, 31, 0));
    ReachesNext(LONG, START, GAP_START, [GAP1, GAP2], Pos(30, 31, 0), GAP3, Pos(60, 61, 1));
  }

  lemma GapValues()
    ensures |LONG| == 1 && EvsOf(LONG, GAP1) == [] && StartReading(LONG, GAP_START, true) == Some(100)
  {
  }

  /** The device of a live connection is unknown in one tick: its 100 bytes, all of them from
      before the baseline, are counted as new. */
  lemma GapDoubles(k: Key, d: Direction) returns (inp0: Input, inputs: seq<Input>)
    ensures Reaches(LONG, START, GAP_START, [GAP1, GAP2, GAP3], Pos(60, 61, |LONG|)) && CleanBaseline(LONG, GAP_START)
    ensures Shows(LONG, GAP_START, inp0, k, d) && ShowsAll(LONG, [GAP1, GAP2, GAP3], inputs, k, d)
    ensures inp0.keep(k.src) && KeptIn(inputs, k) == [false, true, true]
    ensures Recorded(inp0, inputs, k, d) == Owed(LONG, GAP_START, FirstOwed(LONG, GAP_START), |LONG|) + 100
  {
    hide Recorded, RunError, Shows, ShowsAll, Owed, FirstOwed, EvsOf, ReadValue, InputOf, PosAfter, After, KeptIn,
      StartReading, Lifetimes, PosOk, Observes, ObservesAll, Lossless, LosslessAll, CleanBaseline;
    var ts, kept := [GAP1, GAP2, GAP3], [false, true, true];
    GapRun();
    GapLives();
    GapMoves();
    GapValues();
    inp0 := InputOf(LONG, GAP_START, k, true);
    inputs := InputsOf(LONG, ts, k, kept);
    InputShows(LONG, GAP_START, k, true, d);
    InputsShow(LONG, ts, k, kept, d);
    KnownInputs(LONG, GAP_START, k, true);
    RecordedExactly(LONG, START, GAP_START, inp0, ts, inputs, k, d);
    CleanStart(LONG, START, GAP_START);
    GapErrorIs(LONG, START, GAP_START, ts, kept);
    NothingOwed(LONG, GAP_START, FirstOwed(LONG, GAP_START));
  }

  lemma GapErrorIs(gens: seq<Gen>, start: Pos, t0: Tick, ts: seq<Tick>, kept: seq<bool>)
    requires |kept| == |ts| == 3 && kept == [false, true, true] && !StaleStart(start, t0, true)
    requires EvsOf(gens, ts[0]) == [] && StartReading(gens, t0, true) == Some(100)
    ensures RunError(gens, start, t0, true, ts, kept) == 100
  {
    ErrorOfOneGap(gens, start, t0, ts, kept, 0);
    hide RunError, EvsOf, StartReading, StaleStart;
    assert ts[..0] == [] && kept[..0] == [];
  }
}
