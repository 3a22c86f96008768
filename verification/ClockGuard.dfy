/**
 The clock guard (clock_guard.go, src/dpid/clockhwm/clockhwm.go): a persisted high-water mark
 that decides whether the wall clock can be trusted, and a detector of jumps between samples.
 Clocks are in nanoseconds, the mark in whole seconds.
 */
module ClockGuard {
  import opened Common

  const SECOND := 1_000_000_000
  const MIN_UNIX := 1_735_689_600
  const BACK_TOLERANCE := 600
  const PERSIST_EVERY := 300
  const JUMP := 600 * SECOND
  const TRUST_AFTER_BOOT := 600 * SECOND
  const HEAL_AFTER := 21600 * SECOND

  /** Seconds by which local time is ahead of UTC. */
  type Zone = z: int | -43200 <= z <= 50400

  /** A sample: wall and monotonic clock, the time zone, whether the system sets the time by
      itself, the time since boot, and whether writing the mark succeeds. */
  datatype In = In(now: int, mono: int, zone: Zone, autoTime: bool, boot: int, writeOK: bool)

  function Unix(i: In): int { i.now / SECOND }

  /** It is 2025 or later, local time. */
  predicate LocalYearOK(i: In) { Unix(i) + i.zone >= MIN_UNIX }

  predicate Sane(unix: int, mark: int) { unix >= MIN_UNIX && (mark > 0 ==> unix >= mark - BACK_TOLERANCE) }

  // ----- The mark -----

  /** `file` is what a restart would read; `behind` is when the clock fell behind, or -1. */
  datatype Dir = Dir(mark: int, saved: int, behind: int, file: int)

  function Start(file: int): Dir { if file > 0 then Dir(file, file, -1, file) else Dir(0, 0, -1, file) }

  function Persist(d: Dir, force: bool, ok: bool): Dir {
    if d.mark <= 0 || (!force && d.saved > 0 && d.mark - d.saved < PERSIST_EVERY) || !ok then d
    else d.(saved := d.mark, file := d.mark)
  }

  predicate Behind(d: Dir, i: In) { !Sane(Unix(i), d.mark) && LocalYearOK(i) && d.mark > 0 }

  /** When the mark itself is taken to be wrong and set to the present time. */
  predicate Heals(d: Dir, i: In) {
    Behind(d, i) && ((i.autoTime && i.boot >= TRUST_AFTER_BOOT) || (d.behind >= 0 && i.boot - d.behind >= HEAL_AFTER))
  }

  function Judge(d: Dir, i: In): (Dir, bool) {
    if Heals(d, i) then (Persist(d.(mark := Unix(i)), true, i.writeOK).(behind := -1), true)
    else if Sane(Unix(i), d.mark) then (d.(behind := -1), true)
    else if Behind(d, i) && d.behind < 0 then (d.(behind := i.boot), false)
    else (d, false)
  }

  function Note(d: Dir, i: In): Dir { Persist(d.(mark := Max(d.mark, Unix(i))), false, i.writeOK) }

  class ClockDir {
    var mark: int
    var saved: int
    var behind: int
    var file: int

    function Now(): Dir
      reads this
    {
      Dir(mark, saved, behind, file)
    }

    constructor (f: int)
      ensures Now() == Start(f)
    {
      mark, saved, behind, file := 0, 0, -1, f;
      if f > 0 {
        mark, saved := f, f;
      }
    }

    method Save(force: bool, ok: bool)
      modifies this
      ensures Now() == Persist(old(Now()), force, ok)
    {
      if mark <= 0 {
        return;
      }
      if !force && saved > 0 && mark - saved < PERSIST_EVERY {
        return;
      }
      if ok {
        file := mark;
        saved := mark;
      }
    }

    method SaneMono(i: In) returns (ok: bool)
      modifies this
      ensures (Now(), ok) == Judge(old(Now()), i)
    {
      ok := Sane(Unix(i), mark);
      if !ok && LocalYearOK(i) && mark > 0 {
        if i.autoTime && i.boot >= TRUST_AFTER_BOOT {
          mark := Unix(i);
          Save(true, i.writeOK);
          behind := -1;
          return true;
        }
        if behind < 0 {
          behind := i.boot;
        } else if i.boot - behind >= HEAL_AFTER {
          mark := Unix(i);
          Save(true, i.writeOK);
          ok := true;
        }
      }
      if ok {
        behind := -1;
      }
    }

    method NoteTime(i: In)
      modifies this
      ensures Now() == Note(old(Now()), i)
    {
      if Unix(i) > mark {
        mark := Unix(i);
      }
      Save(false, i.writeOK);
    }
  }

  // ----- Jumps -----

  datatype Verdict = OK | Insane | Jumped

  /** `last` is the wall and monotonic clock of the last trusted sample, `since` the monotonic
      clock of the first sample not trusted after it. */
  datatype Guard = Guard(last: Option<(int, int)>, since: Option<int>)

  function Drift(wall: int, mono: int, last: (int, int)): int { (wall - last.0) - (mono - last.1) }

  predicate FarOff(drift: int) { drift > JUMP || drift < -JUMP }

  function Step(g: Guard, sane: bool, now: int, mono: int): (Guard, Verdict) {
    if !sane then (g.(since := if g.since.None? then Some(mono) else g.since), Insane)
    else
      (Guard(Some((now, mono)), None),
       if (g.since.Some? && mono - g.since.value > JUMP) || (g.last.Some? && FarOff(Drift(now, mono, g.last.value)))
         then Jumped
       else OK)
  }

  class Writer {
    var last: Option<(int, int)>
    var since: Option<int>

    function Now(): Guard
      reads this
    {
      Guard(last, since)
    }

    constructor ()
      ensures Now() == Guard(None, None)
    {
      last, since := None, None;
    }

    method Check(dir: ClockDir, i: In) returns (v: Verdict)
      modifies this, dir
      ensures var j := Judge(old(dir.Now()), i);
        && (Now(), v) == Step(old(Now()), j.1, i.now, i.mono)
        && dir.Now() == if j.1 then Note(j.0, i) else j.0
    {
      hide Judge, Note;
      var sane := dir.SaneMono(i);
      if !sane {
        if since.None? {
          since := Some(i.mono);
        }
        return Insane;
      }
      v := OK;
      if since.Some? {
        if i.mono - since.value > JUMP {
          v := Jumped;
        }
        since := None;
      }
      if v == OK && last.Some? {
        var d := (i.now - last.value.0) - (i.mono - last.value.1);
        if d > JUMP || d < -JUMP {
          v := Jumped;
        }
      }
      last := Some((i.now, i.mono));
      dir.NoteTime(i);
    }
  }

  // ----- Runs of the mark, with restarts -----

  /** A writer samples and notes; someone only asks; the process starts again. */
  datatype Event = CheckE(i: In) | AskE(i: In) | RestartE

  function After(d: Dir, e: Event): Dir {
    match e
    case CheckE(i) => var j := Judge(d, i); if j.1 then Note(j.0, i) else j.0
    case AskE(i) => Judge(d, i).0
    case RestartE => Start(d.file)
  }

  predicate Accepted(d: Dir, e: Event) { !e.RestartE? && Judge(d, e.i).1 }

  function Run(d: Dir, es: seq<Event>): Dir
    decreases |es|
  {
    if es == [] then d else Run(After(d, es[0]), es[1..])
  }

  /** The file is written whenever it should be and the mark is never taken to be wrong. */
  predicate Smooth(d: Dir, es: seq<Event>)
    decreases |es|
  {
    es != [] ==> (es[0].RestartE? || (es[0].i.writeOK && !Heals(d, es[0].i))) && Smooth(After(d, es[0]), es[1..])
  }

  /** The file holds what was saved, and the mark is less than a persist interval ahead of it. */
  predicate Kept(d: Dir) {
    && (d.saved > 0 ==> d.file == d.saved) && (d.saved <= 0 ==> d.file <= 0)
    && (if d.mark > 0 then 0 < d.saved <= d.mark < d.saved + PERSIST_EVERY else d.saved == 0)
  }

  /** The earliest time that can be accepted from here on, while nothing is healed: a restart goes
      back to what was saved. */
  function Lowest(d: Dir): int { if d.saved > 0 then Max(MIN_UNIX, d.saved - BACK_TOLERANCE) else MIN_UNIX }

  lemma StartKept(file: int)
    ensures Kept(Start(file))
  {
  }

  /** A step keeps the mark close to the file, accepts nothing below the lowest time, never lowers
      that, and lifts it to less than 15 minutes below every time that is noted. */
  lemma StepKept(d: Dir, e: Event)
    requires Kept(d) && (e.RestartE? || (e.i.writeOK && !Heals(d, e.i)))
    ensures Kept(After(d, e)) && Lowest(d) <= Lowest(After(d, e))
    ensures Accepted(d, e) ==> Lowest(d) <= Unix(e.i)
    ensures e.CheckE? && Accepted(d, e) ==> Unix(e.i) - BACK_TOLERANCE - PERSIST_EVERY < Lowest(After(d, e))
  {
    hide Unix;
  }

  lemma {:induction false} RunAbove(d: Dir, es: seq<Event>, j: nat)
    requires Kept(d) && Smooth(d, es) && j < |es| && Accepted(Run(d, es[..j]), es[j])
    ensures Lowest(d) <= Unix(es[j].i)
    decreases j
  {
    hide After, Kept, Accepted, Lowest;
    StepKept(d, es[0]);
    if j > 0 {
      assert es[..j][1..] == es[1..][..j - 1];
      RunAbove(After(d, es[0]), es[1..], j - 1);
    } else {
      assert es[..0] == [];
    }
  }

  /** A smooth run in which a time is accepted. */
  ghost predicate CanAccept(d: Dir, unix: int) {
    exists es: seq<Event>, j: nat :: Smooth(d, es) && j < |es| && Accepted(Run(d, es[..j]), es[j])
      && Unix(es[j].i) == unix
  }

  /** Exactly the times from the lowest on can be accepted by some smooth run, restarts included. */
  lemma LowestExactly(d: Dir, unix: int)
    requires Kept(d)
    ensures CanAccept(d, unix) <==> Lowest(d) <= unix
  {
    if CanAccept(d, unix) {
      var es: seq<Event>, j: nat :| Smooth(d, es) && j < |es| && Accepted(Run(d, es[..j]), es[j])
        && Unix(es[j].i) == unix;
      RunAbove(d, es, j);
    } else if Lowest(d) <= unix {
      var es := [RestartE, AskE(At(unix, false, true))];
      assert Unix(es[1].i) == unix;
      assert es[1..] == [es[1]] && es[..1] == [RestartE] && es[..1][1..] == [] && es[1..][1..] == [];
      assert Accepted(Run(d, es[..1]), es[1]);
      assert Smooth(After(d, RestartE), [es[1]]);
    }
  }

  /** Over any number of restarts, while the file is written and no mark is reset, every time
      accepted is later than every earlier accepted time less 15 minutes, if that one was noted, or,
      when it was only asked for, exactly if it is less than 15 minutes above the lowest time. */
  lemma {:induction false} NeverFarBack(d: Dir, es: seq<Event>, i: nat, j: nat)
    requires Kept(d) && Smooth(d, es) && i < j < |es|
    requires Accepted(Run(d, es[..i]), es[i]) && Accepted(Run(d, es[..j]), es[j])
    requires es[i].CheckE? || Unix(es[i].i) - 900 < Lowest(Run(d, es[..i]))
    ensures Unix(es[j].i) > Unix(es[i].i) - 900
    decreases i
  {
    hide After, Kept, Accepted, Lowest, Unix;
    assert es[..j][1..] == es[1..][..j - 1];
    StepKept(d, es[0]);
    if i > 0 {
      assert es[..i][1..] == es[1..][..i - 1];
      NeverFarBack(After(d, es[0]), es[1..], i - 1, j - 1);
    } else {
      assert es[..0] == [];
      RunAbove(After(d, es[0]), es[1..], j - 1);
    }
  }

  /** A time that was only asked for binds the times accepted later exactly if it is less than 15
      minutes above the lowest time when it is asked for. */
  lemma AskedBinds(d: Dir, i: In)
    requires Kept(d) && i.writeOK && !Heals(d, i) && Accepted(d, AskE(i))
    ensures (forall unix :: CanAccept(After(d, AskE(i)), unix) ==> unix > Unix(i) - 900) <==> Unix(i) - 900 < Lowest(d)
  {
    var a := After(d, AskE(i));
    StepKept(d, AskE(i));
    assert Lowest(a) == Lowest(d);
    hide CanAccept, After, Kept, Accepted, Lowest, Heals;
    LowestExactly(a, Lowest(d));
    forall unix | CanAccept(a, unix) ensures Lowest(d) <= unix {
      LowestExactly(a, unix);
    }
  }

  function At(unix: int, autoTime: bool, writeOK: bool): In {
    In(unix * SECOND, 0, 0, autoTime, TRUST_AFTER_BOOT, writeOK)
  }

  const T := MIN_UNIX + 1_000_000

  /** Asking a day ahead and then sampling: the clock is accepted a day back. */
  lemma AskedFallsBack()
    ensures var es := [AskE(At(T + 86400, false, true)), CheckE(At(T, false, true))];
      && Kept(Start(T)) && Smooth(Start(T), es)
      && Accepted(Run(Start(T), es[..0]), es[0]) && Accepted(Run(Start(T), es[..1]), es[1])
      && Unix(es[1].i) == Unix(es[0].i) - 86400
  {
    var es := [AskE(At(T + 86400, false, true)), CheckE(At(T, false, true))];
    assert Unix(es[0].i) == T + 86400 && Unix(es[1].i) == T;
    assert es[..0] == [] && es[..1] == [es[0]] && es[1..] == [es[1]] && [es[1]][1..] == [] && es[..1][1..] == [];
    assert Smooth(After(Start(T), es[0]), [es[1]]);
  }

  /** 15 minutes less a second do occur. */
  lemma BoundIsReached()
    ensures var es := [CheckE(At(T + 299, false, true)), RestartE, CheckE(At(T - 600, false, true))];
      && Kept(Start(T)) && Smooth(Start(T), es)
      && Accepted(Run(Start(T), es[..0]), es[0]) && Accepted(Run(Start(T), es[..2]), es[2])
      && Unix(es[2].i) == Unix(es[0].i) - 899
  {
    var a, c := CheckE(At(T + 299, false, true)), CheckE(At(T - 600, false, true));
    var es := [a, RestartE, c];
    var d := Start(T);
    var d1 := After(d, a);
    assert d1 == Dir(T + 299, T, -1, T);
    assert After(d1, RestartE) == d;
    assert es[..0] == [] && es[..2] == [a, RestartE];
    assert es[1..] == [RestartE, c] && es[1..][1..] == [c] && [c][1..] == [];
    assert [a, RestartE][1..] == [RestartE] && [RestartE][1..] == [];
    assert Smooth(d, [c]);
    assert Smooth(d1, [RestartE, c]);
  }

  /** A time before 2025 UTC is accepted exactly if the mark is healed by it; it is at most 14 hours
      before 2025, where the local year is 2025 already. */
  lemma BeforeTheMinimum(d: Dir, i: In)
    requires Unix(i) < MIN_UNIX
    ensures Judge(d, i).1 <==> Heals(d, i)
    ensures Judge(d, i).1 ==> Unix(i) >= MIN_UNIX - 50400
  {
    hide Unix;
  }

  /** A time in or after 2025 that is too far behind the mark is accepted exactly if it heals it. */
  lemma BehindTheMark(d: Dir, i: In)
    requires MIN_UNIX <= Unix(i) < d.mark - BACK_TOLERANCE && d.mark > 0
    ensures Judge(d, i).1 <==> Heals(d, i)
    ensures Judge(d, i).1 ==> Judge(d, i).0.mark == Unix(i)
  {
    hide Unix;
  }

  /** Both happen: the system's own time an hour before 2025 UTC, east of Greenwich, and any time of
      2025 up to the mark; and a restart after a failed write goes back as far. */
  lemma BackAfterReset(back: int)
    requires 600 < back <= 1_000_000
    ensures var i := At(MIN_UNIX - 3600, true, true).(zone := 28800);
      Unix(i) == MIN_UNIX - 3600 && Accepted(Start(T), CheckE(i))
    ensures Unix(At(T - back, true, true)) == T - back && Accepted(Start(T), CheckE(At(T - back, true, true)))
    ensures !Accepted(Start(T), CheckE(At(T - back, false, true)))
    ensures Accepted(After(After(Start(0), CheckE(At(T, false, false))), RestartE), CheckE(At(T - back, false, false)))
  {
    assert Unix(At(T - back, true, true)) == T - back && Unix(At(T - back, false, true)) == T - back;
    assert Unix(At(T - back, false, false)) == T - back && Unix(At(T, false, false)) == T;
    assert Unix(At(MIN_UNIX - 3600, true, true).(zone := 28800)) == MIN_UNIX - 3600;
  }

  // ----- When a time is accepted, exactly -----

  /** Before 2025, or more than 10 minutes before the mark, in seconds since 1970. */
  predicate TooEarly(i: In, mark: int) {
    i.now / 1_000_000_000 < 1735689600 || (mark > 0 && i.now / 1_000_000_000 < mark - 600)
  }

  /** Local time is in 2025 at least. */
  predicate InYear(i: In) { i.now / 1_000_000_000 + i.zone >= 1735689600 }

  /** Every sample is refused. */
  predicate AllRefused(d: Dir, es: seq<Event>)
    decreases |es|
  {
    es != [] ==>
      !es[0].RestartE? && es[0].i.boot >= 0 && !Accepted(d, es[0]) && AllRefused(After(d, es[0]), es[1..])
  }

  /** The time since boot at the first sample whose local time is in 2025 at least. */
  function FirstInYear(es: seq<Event>): Option<int>
    requires forall e <- es :: !e.RestartE?
  {
    if es == [] then None else if InYear(es[0].i) then Some(es[0].i.boot) else FirstInYear(es[1..])
  }

  lemma {:induction false} WhileRefused(d: Dir, es: seq<Event>)
    requires AllRefused(d, es)
    ensures forall e <- es :: !e.RestartE?
    ensures Run(d, es) ==
            d.(behind := if d.behind >= 0 || d.mark <= 0 || FirstInYear(es).None? then d.behind
                         else FirstInYear(es).value)
    decreases |es|
  {
    if es != [] {
      RefusedStep(d, es[0]);
      hide After, Accepted, InYear;
      WhileRefused(After(d, es[0]), es[1..]);
    }
  }

  lemma RefusedStep(d: Dir, e: Event)
    requires !e.RestartE? && !Accepted(d, e)
    ensures After(d, e) == d.(behind := if d.behind < 0 && d.mark > 0 && InYear(e.i) then e.i.boot else d.behind)
  {
  }

  /** After any number of samples refused in a row, a time is accepted exactly if it is not too early, or
      there is a mark, local time is in 2025 at least, and either the system sets the clock by itself and
      runs for 10 minutes, or 6 hours have gone by since the first of those samples in 2025 at least. */
  lemma AcceptedExactly(d: Dir, es: seq<Event>, i: In)
    requires d.behind == -1 && AllRefused(d, es)
    ensures forall e <- es :: !e.RestartE?
    ensures Judge(Run(d, es), i).1 <==>
            || !TooEarly(i, d.mark)
            || (d.mark > 0 && InYear(i) &&
                (|| (i.autoTime && i.boot >= 600_000_000_000)
                 || (FirstInYear(es).Some? && i.boot - FirstInYear(es).value >= 21_600_000_000_000)))
    ensures Judge(Run(d, es), i).1 && TooEarly(i, d.mark) ==>
              var r := Judge(Run(d, es), i).0;
              && r.mark == i.now / 1_000_000_000 && r.behind == -1
              && r.file == (if i.writeOK && r.mark > 0 then r.mark else Run(d, es).file)
  {
    WhileRefused(d, es);
    FirstFromBoot(d, es);
    hide AllRefused, Run;
    if d.mark > 0 && TooEarly(i, d.mark) {
      assert Sane(Unix(i), d.mark) <==> !TooEarly(i, d.mark);
    }
  }

  lemma {:induction false} FirstFromBoot(d: Dir, es: seq<Event>)
    requires AllRefused(d, es)
    ensures forall e <- es :: !e.RestartE?
    ensures FirstInYear(es).Some? ==> FirstInYear(es).value >= 0
    decreases |es|
  {
    if es != [] {
      hide After, Accepted, InYear;
      FirstFromBoot(After(d, es[0]), es[1..]);
    }
  }

  // ----- Runs of a writer's guard -----

  datatype Sample = Sample(sane: bool, now: int, mono: int)

  function Guarded(g: Guard, ss: seq<Sample>): Guard
    decreases |ss|
  {
    if ss == [] then g else Guarded(Step(g, ss[0].sane, ss[0].now, ss[0].mono).0, ss[1..])
  }

  function VerdictAt(g: Guard, ss: seq<Sample>, j: nat): Verdict
    requires j < |ss|
  {
    Step(Guarded(g, ss[..j]), ss[j].sane, ss[j].now, ss[j].mono).1
  }

  /** What the guard remembers while the samples from `k` on are not trusted. */
  lemma {:induction false} WhileInsane(g: Guard, ss: seq<Sample>)
    requires forall k :: 0 <= k < |ss| ==> !ss[k].sane
    ensures Guarded(g, ss) == g.(since := if g.since.Some? || ss == [] then g.since else Some(ss[0].mono))
    decreases |ss|
  {
    if ss != [] {
      WhileInsane(Step(g, false, ss[0].now, ss[0].mono).0, ss[1..]);
    }
  }

  lemma {:induction false} GuardedSplit(g: Guard, a: seq<Sample>, b: seq<Sample>)
    ensures Guarded(g, a + b) == Guarded(Guarded(g, a), b)
    decreases |a|
  {
    if a == [] {
      assert a + b == b;
    } else {
      GuardedSplit(Step(g, a[0].sane, a[0].now, a[0].mono).0, a[1..], b);
      assert (a + b)[1..] == a[1..] + b;
    }
  }

  /** A sample is judged good exactly if it is trusted, the wall clock and the monotonic clock
      agree within 10 minutes on the time since the last trusted sample, and the clock was not
      distrusted for more than 10 minutes in between. */
  lemma GoodMeans(g: Guard, ss: seq<Sample>, i: nat, j: nat)
    requires i < j < |ss| && ss[i].sane && forall k :: i < k < j ==> !ss[k].sane
    ensures VerdictAt(g, ss, j) == OK <==>
            && ss[j].sane
            && -JUMP <= (ss[j].now - ss[i].now) - (ss[j].mono - ss[i].mono) <= JUMP
            && (j > i + 1 ==> ss[j].mono - ss[i + 1].mono <= JUMP)
  {
    var before, gap := ss[..i + 1], ss[i + 1..j];
    assert ss[..j] == before + gap && before == ss[..i] + [ss[i]];
    GuardedSplit(g, before, gap);
    GuardedSplit(g, ss[..i], [ss[i]]);
    var g0 := Guarded(g, ss[..i]);
    assert Guarded(g0, [ss[i]]) == Step(g0, true, ss[i].now, ss[i].mono).0;
    assert forall k :: 0 <= k < |gap| ==> gap[k] == ss[i + 1 + k];
    WhileInsane(Guard(Some((ss[i].now, ss[i].mono)), None), gap);
  }
}
