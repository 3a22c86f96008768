/**
 What the choice of the classic engine means (fg_model.go:507-634), in plain numbers: how scores rise and
 fall, who is first, when the choice changes and when it is given up, and whom a device remembers.
 */
module FgScores {
  import opened Common
  import opened FgClassic

  // ----- Products -----

  function Mul(x: real, y: real): real { x * y }

  lemma MulMono(k: real, x: real, y: real)
    requires k >= 0.0 && x <= y
    ensures Mul(k, x) <= Mul(k, y) && Mul(x, k) <= Mul(y, k)
  {
  }

  lemma MulSub(k: real, x: real, y: real)
    ensures Mul(x - y, k) == Mul(x, k) - Mul(y, k)
  {
  }

  lemma MulSwap(x: real, y: real)
    ensures Mul(x, y) == Mul(y, x)
  {
  }

  lemma MulUnits(k: real)
    ensures Mul(1.0, k) == Mul(k, 1.0) == k && Mul(0.0, k) == Mul(k, 0.0) == 0.0
  {
  }

  /** Multiplied by `b` so many times. */
  function Faded(v: real, b: real, n: nat): real
    decreases n
  {
    if n == 0 then v else Faded(Mul(v, b), b, n - 1)
  }

  // ----- Scores over ticks -----

  /** What the ticks make of one application. */
  function AppRun(a: App, id: AppId, ticks: seq<Seen>): App
    decreases |ticks|
  {
    if ticks == [] then a else AppRun(Felt(a, ticks[0], id), id, ticks[1..])
  }

  /** A tick leaves at most `b` of the distance between a score and what is seen, and never overshoots. */
  predicate Weighs(ticks: seq<Seen>, b: real) { b <= 1.0 && forall i <- ticks :: 1.0 - b <= i.alpha <= 1.0 }

  lemma FeltScore(a: App, i: Seen, id: AppId)
    ensures var inst := if IsActive(i, id) then i.looks[id].score else 0.0;
      var v := a.smooth + Mul(i.alpha, inst - a.smooth);
      Felt(a, i, id).smooth == if v < 0.05 then 0.0 else v
  {
  }

  /** What is left of a distance `e`, which is at most `d`. */
  lemma LeftOver(e: real, d: real, alpha: real, b: real)
    requires 1.0 - b <= alpha <= 1.0 && b <= 1.0 && e <= d && 0.0 <= d
    ensures e - Mul(alpha, e) <= Mul(d, b) && 0.0 <= Mul(d, b) <= d
    ensures 0.0 <= e ==> 0.0 <= e - Mul(alpha, e)
  {
    hide Mul;
    var c := 1.0 - alpha;
    MulSub(e, 1.0, alpha);
    MulUnits(e);
    MulUnits(d);
    MulUnits(c);
    MulMono(d, 0.0, b);
    MulMono(d, b, 1.0);
    if e <= 0.0 {
      MulMono(c, e, 0.0);
    } else {
      MulMono(e, c, b);
      MulMono(b, e, d);
      MulSwap(b, d);
      MulMono(c, 0.0, e);
    }
  }

  lemma RisesOnce(app: App, i: Seen, id: AppId, b: real, s: real, d: real)
    requires 1.0 - b <= i.alpha <= 1.0 && b <= 1.0 && IsActive(i, id) && i.looks[id].score >= s
    requires 0.0 <= d <= s && app.smooth >= s - d && Mul(s, b) <= s - 0.05
    ensures Felt(app, i, id).smooth >= s - Mul(d, b) && 0.0 <= Mul(d, b) <= s
  {
    hide Felt, Mul;
    FeltScore(app, i, id);
    var e := s - app.smooth;
    LeftOver(e, d, i.alpha, b);
    MulMono(i.alpha, e, i.looks[id].score - app.smooth);
    MulMono(b, d, s);
  }

  /** An application in use comes within a distance of what is seen of it that shrinks to a part of `b` with
      every tick. */
  lemma {:induction false} ScoreRises(app: App, id: AppId, ticks: seq<Seen>, b: real, s: real, d: real)
    requires Weighs(ticks, b) && Mul(s, b) <= s - 0.05 && 0.0 <= d <= s && app.smooth >= s - d
    requires forall i <- ticks :: IsActive(i, id) && i.looks[id].score >= s
    ensures AppRun(app, id, ticks).smooth >= s - Faded(d, b, |ticks|)
    decreases |ticks|
  {
    hide Felt, Mul;
    if ticks != [] {
      RisesOnce(app, ticks[0], id, b, s, d);
      ScoreRises(Felt(app, ticks[0], id), id, ticks[1..], b, s, Mul(d, b));
    }
  }

  lemma FallsOnce(app: App, i: Seen, id: AppId, b: real, high: real)
    requires 1.0 - b <= i.alpha <= 1.0 && b <= 1.0 && 0.0 <= app.smooth <= high && !IsActive(i, id)
    ensures 0.0 <= Felt(app, i, id).smooth <= Mul(high, b)
    ensures Mul(high, b) < 0.05 ==> Felt(app, i, id).smooth == 0.0
  {
    hide Felt, Mul;
    FeltScore(app, i, id);
    var v := app.smooth;
    LeftOver(v, high, i.alpha, b);
    MulSub(i.alpha, 0.0, v);
    MulUnits(i.alpha);
    MulSwap(i.alpha, 0.0 - v);
    MulSwap(i.alpha, v);
  }

  /** An application not in use loses its score: of it is left at most a part, `b` of it after every tick,
      and none at all once that part is below a twentieth. */
  lemma {:induction false} ScoreFalls(app: App, id: AppId, ticks: seq<Seen>, b: real, high: real)
    requires Weighs(ticks, b) && 0.0 <= app.smooth <= high && forall i <- ticks :: !IsActive(i, id)
    ensures 0.0 <= AppRun(app, id, ticks).smooth <= Faded(high, b, |ticks|)
    ensures |ticks| > 0 && Faded(high, b, |ticks|) < 0.05 ==> AppRun(app, id, ticks).smooth == 0.0
    decreases |ticks|
  {
    hide Felt, IsActive, Mul;
    if ticks != [] {
      FallsOnce(app, ticks[0], id, b, high);
      ScoreFalls(Felt(app, ticks[0], id), id, ticks[1..], b, Mul(high, b));
      assert |ticks| == 1 ==> Faded(high, b, |ticks|) == Faded(Mul(high, b), b, 0) == Mul(high, b);
    }
  }

  ghost function Steps(d: Device, ticks: seq<Seen>): Device
    decreases |ticks|
  {
    if ticks == [] then d else Steps(Step(d, ticks[0]), ticks[1..])
  }

  lemma {:induction false} SameScore(a: App, b: App, id: AppId, ticks: seq<Seen>)
    requires a.smooth == b.smooth
    ensures AppRun(a, id, ticks).smooth == AppRun(b, id, ticks).smooth
    decreases |ticks|
  {
    hide Felt;
    if ticks != [] {
      SameFelt(a, b, ticks[0], id);
      SameScore(Felt(a, ticks[0], id), Felt(b, ticks[0], id), id, ticks[1..]);
    }
  }

  lemma StepScore(d: Device, i: Seen, x: AppId)
    requires x !in i.taken
    ensures x in Step(d, i).apps ==> x in d.apps && Step(d, i).apps[x].smooth == Felt(d.apps[x], i, x).smooth
    ensures x in d.apps && x in i.looks ==> x in Step(d, i).apps
  {
    hide Felt, Top, Choice, Qualified;
    if x in Entered(d.apps, i) {
      SameFelt(Entered(d.apps, i)[x], d.apps[x], i, x);
    }
  }

  lemma SameFelt(a: App, b: App, i: Seen, id: AppId)
    requires a.smooth == b.smooth
    ensures Felt(a, i, id).smooth == Felt(b, i, id).smooth
  {
  }

  /** The score of an application that a device knows all along. */
  lemma {:induction false} ScoreInRun(d: Device, ticks: seq<Seen>, x: AppId)
    requires forall i <- ticks :: x !in i.taken
    ensures x in Steps(d, ticks).apps ==>
              x in d.apps && Steps(d, ticks).apps[x].smooth == AppRun(d.apps[x], x, ticks).smooth
    ensures x in d.apps && (forall i <- ticks :: x in i.looks) ==> x in Steps(d, ticks).apps
    decreases |ticks|
  {
    hide Step, Felt;
    if ticks != [] {
      var e := Step(d, ticks[0]);
      StepScore(d, ticks[0], x);
      ScoreInRun(e, ticks[1..], x);
      if x in d.apps && x in e.apps {
        SameScore(e.apps[x], Felt(d.apps[x], ticks[0], x), x, ticks[1..]);
      }
    }
  }

  /** An application that a device knows and that is in use in every tick comes within a distance of what is
      seen of it that shrinks with every tick. */
  lemma InUseRises(d: Device, ticks: seq<Seen>, x: AppId, b: real, s: real)
    requires x in d.apps && d.apps[x].smooth >= 0.0 && Weighs(ticks, b) && s * b <= s - 0.05 && s >= 0.0
    requires forall i <- ticks :: x !in i.taken && x in i.looks && i.looks[x].active && i.looks[x].score >= s
    ensures x in Steps(d, ticks).apps && Steps(d, ticks).apps[x].smooth >= s - Faded(s, b, |ticks|)
  {
    hide Steps, AppRun, Faded, Weighs;
    assert Mul(s, b) <= s - 0.05;
    hide Mul;
    ScoreInRun(d, ticks, x);
    ScoreRises(d.apps[x], x, ticks, b, s, s);
  }

  /** One that is not in use loses its score, down to nothing. */
  lemma IdleFalls(d: Device, ticks: seq<Seen>, x: AppId, b: real)
    requires x in d.apps && d.apps[x].smooth >= 0.0 && Weighs(ticks, b)
    requires forall i <- ticks :: x !in i.taken && !(x in i.looks && i.looks[x].active)
    requires x in Steps(d, ticks).apps
    ensures var was, v := d.apps[x].smooth, Steps(d, ticks).apps[x].smooth;
      && 0.0 <= v <= Faded(was, b, |ticks|)
      && (|ticks| > 0 && Faded(was, b, |ticks|) < 0.05 ==> v == 0.0)
  {
    hide Steps, AppRun, Faded, Weighs;
    ScoreInRun(d, ticks, x);
    ScoreFalls(d.apps[x], x, ticks, b, d.apps[x].smooth);
  }

  // ----- First in rank -----

  /** Where two names differ first, the one has the lesser character, or has ended. */
  ghost predicate Before(x: string, y: string) {
    exists k: nat :: k <= |x| && k <= |y| && x[..k] == y[..k] && k < |y| && (k == |x| || x[k] < y[k])
  }

  lemma {:induction false} BeforeIff(x: string, y: string)
    ensures LessId(x, y) <==> Before(x, y)
  {
    if LessId(x, y) {
      if x == "" || x[0] < y[0] {
        assert x[..0] == y[..0];
      } else {
        BeforeIff(x[1..], y[1..]);
        var s, t := x[1..], y[1..];
        var k: nat :| k <= |s| && k <= |t| && s[..k] == t[..k] && k < |t| && (k == |s| || s[k] < t[k]);
        assert x[..k + 1] == [x[0]] + s[..k] && y[..k + 1] == [y[0]] + t[..k];
      }
    }
    if Before(x, y) {
      var k: nat :| k <= |x| && k <= |y| && x[..k] == y[..k] && k < |y| && (k == |x| || x[k] < y[k]);
      if k > 0 {
        var s, t := x[1..], y[1..];
        assert x[0] == x[..k][0] == y[..k][0] == y[0];
        assert s[..k - 1] == x[..k][1..] && t[..k - 1] == y[..k][1..];
        BeforeIff(s, t);
      }
    }
  }

  /** An application other than the one chosen has a score of 30, the highest, or of equal ones the least
      name. */
  ghost predicate Leads(apps: map<AppId, App>, cur: string, x: AppId) {
    && x in apps && x != cur && apps[x].smooth >= 30.0
    && forall y <- apps :: y != x ==>
         apps[y].smooth < apps[x].smooth || (apps[y].smooth == apps[x].smooth && Before(x, y))
  }

  lemma TopIff(apps: map<AppId, App>, cur: string, x: AppId)
    ensures Top(apps, cur) == Some(x) <==> Leads(apps, cur, x)
  {
    hide Before, LessId;
    forall y: AppId ensures LessId(x, y) <==> Before(x, y) {
      BeforeIff(x, y);
    }
    if Leads(apps, cur, x) {
      assert IsFirst(apps, apps.Keys, x);
      OneFirst(apps, apps.Keys, x, First(apps));
    }
  }

  /** A score of 60, 40 above that of the one chosen, if it is known. */
  predicate FarAhead(apps: map<AppId, App>, cur: string, x: AppId)
    requires x in apps
  {
    apps[x].smooth >= 60.0 && (cur != "" && cur in apps ==> apps[x].smooth >= apps[cur].smooth + 40.0)
  }

  /** Over two ticks, an application is newly chosen exactly if it leads and either led in the tick before
      too, or is far ahead. */
  lemma ChosenExactly(d: Device, i: Seen, j: Seen, x: AppId, at: int)
    requires Sound(d, at) && at <= i.now <= j.now
    requires x != Step(d, i).cur
    ensures var e := Step(d, i);
      var apps := Scored(e, j);
      Step(e, j).cur == x <==>
        Leads(apps, e.cur, x) && (Leads(Scored(d, i), d.cur, x) || FarAhead(apps, e.cur, x))
  {
    var e := Step(d, i);
    var apps := Scored(e, j);
    SwitchExactly(d, i, j, x, at);
    TopIff(apps, e.cur, x);
    TopIff(Scored(d, i), d.cur, x);
    hide Scored, Step, Leads;
  }

  /** After a tick nobody is chosen exactly if the one chosen has a score below 20 and was not active in the
      last 30 seconds, or is no longer known, and no other has led before or is far ahead. */
  lemma GivenUpExactly(d: Device, i: Seen)
    ensures var apps := Scored(d, i);
      Step(d, i).cur == "" <==>
        && (d.cur == "" || d.cur !in apps
            || (apps[d.cur].smooth < 20.0
                && (apps[d.cur].active.Some? ==> i.now - apps[d.cur].active.value > 30_000_000_000)))
        && forall x: AppId :: Leads(apps, d.cur, x) ==> apps[x].lead == 0 && !FarAhead(apps, d.cur, x)
  {
    hide Scored, First, Leads;
    var apps := Scored(d, i);
    forall x: AppId ensures Top(apps, d.cur) == Some(x) <==> Leads(apps, d.cur, x) {
      TopIff(apps, d.cur, x);
    }
    hide Top;
    forall x: AppId | Leads(apps, d.cur, x)
      ensures x in apps && (Qualified(apps, d.cur, x) <==> apps[x].lead > 0 || FarAhead(apps, d.cur, x))
    {
    }
    hide FarAhead, Qualified;
  }

  // ----- Whom a device remembers -----

  /** After a tick a device knows who is seen or was seen in the last 10 minutes, the one chosen by either
      engine, of all those it knew or takes in. */
  lemma KnownExactly(d: Device, i: Seen, x: AppId)
    requires i.taken <= i.looks.Keys
    ensures x in Step(d, i).apps <==>
            || x in i.taken
            || (x in d.apps &&
                (x in i.looks || x == d.cur || x == i.shadow || i.now - d.apps[x].seen <= 600_000_000_000))
    ensures x in Step(d, i).apps ==> Step(d, i).apps[x].seen == if x in i.looks then i.now else d.apps[x].seen
  {
    hide Felt, Top, Choice, Qualified;
    if x in Entered(d.apps, i) {
      FeltKeeps(Entered(d.apps, i)[x], i, x);
    }
  }

  lemma FeltKeeps(a: App, i: Seen, id: AppId)
    ensures Felt(a, i, id).seen == a.seen && Felt(a, i, id).lead == a.lead
  {
  }

  /** Of what is seen, all is taken in while there are fewer than 64, and never more than that. */
  lemma RoomExactly(apps: map<AppId, App>, i: Seen)
    requires Admits(apps, i)
    ensures |apps| <= 64 ==> |Entered(apps, i)| <= 64
    ensures |Entered(apps, i)| < 64 ==> i.looks.Keys <= Entered(apps, i).Keys
  {
    assert |Entered(apps, i)| == |Entered(apps, i).Keys| && |apps| == |apps.Keys|;
    assert Entered(apps, i).Keys == apps.Keys + i.taken;
  }

  /** Since when an application is in use: activity after more than 20 seconds, and one and a half ticks,
      begins anew at the start of the tick. */
  lemma SinceExactly(d: Device, i: Seen, x: AppId)
    requires x in Step(d, i).apps && i.taken <= i.looks.Keys - d.apps.Keys
    ensures var was := if x in d.apps then d.apps[x].active else None;
      var begun := if x in d.apps then d.apps[x].since else None;
      var gap := if was.Some? then (i.now - was.value) as real else 0.0;
      Step(d, i).apps[x].since ==
        if !(x in i.looks && i.looks[x].active) then begun
        else if was.None? || (gap > 20_000_000_000.0 && gap > 1.5 * i.dt as real) then Some(i.now - i.dt)
        else begun
  {
    hide Top, Choice, Qualified;
    var a := Entered(d.apps, i)[x];
    FeltSince(a, i, x);
    hide Felt;
  }

  lemma FeltSince(a: App, i: Seen, id: AppId)
    ensures var gap := if a.active.Some? then (i.now - a.active.value) as real else 0.0;
      Felt(a, i, id).since ==
        if !IsActive(i, id) then a.since
        else if a.active.None? || (gap > 20_000_000_000.0 && gap > 1.5 * i.dt as real) then Some(i.now - i.dt)
        else a.since
  {
  }
}
