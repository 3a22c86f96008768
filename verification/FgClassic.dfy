/**
 The choice of the application shown (fg_model.go:507-634), classic engine: scores that follow what
 is seen, an application that leads, and one that is held. The score of a tick is an input.
 */
module FgClassic {
  import opened Common
  import opened FgTimeline
  import opened FgRuns

  const ENTER := 30.0
  const STAY := 20.0
  const BIG_MIN := 60.0
  const BIG_MARGIN := 40.0
  const LEAD_TICKS := 2
  const PAUSE := 30 * SECOND
  const CONT_GAP := 20 * SECOND
  const APP_DROP := 600 * SECOND
  const MAX_APPS := 64

  type AppId = s: string | s != "" witness "a"

  /** An application of a device: smoothed score, when it was last active and since when, when it was
      last seen, and for how many ticks it has been leading. */
  datatype App = App(smooth: real, active: Option<int>, since: Option<int>, seen: int, lead: nat)

  datatype Device = Device(apps: map<AppId, App>, cur: string)

  const NOBODY := Device(map[], "")

  /** What a tick sees of an application. */
  datatype Look = Look(active: bool, score: real)

  /** A tick of a device: the weight of its scores, what is seen, which new applications are taken in,
      and the choice of the experimental engine, which runs along. */
  datatype Seen = Seen(now: int, dt: nat, alpha: real, looks: map<AppId, Look>, taken: set<AppId>, shadow: string)

  /** New applications are taken in until there are 64, in any order. */
  predicate Admits(apps: map<AppId, App>, i: Seen) {
    && i.taken <= i.looks.Keys - apps.Keys
    && (|apps| + |i.taken| <= MAX_APPS || i.taken == {})
    && (i.taken != i.looks.Keys - apps.Keys ==> |apps| + |i.taken| >= MAX_APPS)
  }

  // ----- Scores -----

  /** Those in `done` are seen, and those in `taken` are new. */
  function EnteredBy(apps: map<AppId, App>, now: int, done: set<AppId>, taken: set<AppId>): (r: map<AppId, App>)
    ensures r.Keys == apps.Keys + taken
  {
    map id | id in apps.Keys + taken ::
      if id in apps then (if id in done then apps[id].(seen := now) else apps[id]) else App(0.0, None, None, now, 0)
  }

  function Entered(apps: map<AppId, App>, i: Seen): map<AppId, App> { EnteredBy(apps, i.now, i.looks.Keys, i.taken) }

  predicate IsActive(i: Seen, id: AppId) { id in i.looks && i.looks[id].active }

  /** Activity after a gap of more than 20 seconds, or one and a half ticks, begins anew. */
  function Felt(a: App, i: Seen, id: AppId): App {
    var anew := a.active.None? || 2 * (i.now - a.active.value) > Max(2 * CONT_GAP, 3 * i.dt);
    var inst := if IsActive(i, id) then i.looks[id].score else 0.0;
    var v := a.smooth + i.alpha * (inst - a.smooth);
    a.(smooth := if v < 0.05 then 0.0 else v,
       active := if IsActive(i, id) then Some(i.now) else a.active,
       since := if IsActive(i, id) && anew then Some(i.now - i.dt) else a.since)
  }

  predicate Stays(a: App, id: AppId, cur: string, i: Seen) { id == cur || id == i.shadow || i.now - a.seen <= APP_DROP }

  function Scored(d: Device, i: Seen): map<AppId, App> {
    var apps := Entered(d.apps, i);
    map id | id in apps && Stays(apps[id], id, d.cur, i) :: Felt(apps[id], i, id)
  }

  // ----- Ranking -----

  predicate LessId(a: string, b: string) {
    b != "" && (a == "" || a[0] < b[0] || (a[0] == b[0] && LessId(a[1..], b[1..])))
  }

  lemma {:induction false} LessTotal(a: string, b: string)
    ensures a == b || LessId(a, b) || LessId(b, a)
    ensures !(LessId(a, b) && LessId(b, a)) && !LessId(a, a)
  {
    if a != "" && b != "" && a[0] == b[0] {
      LessTotal(a[1..], b[1..]);
      assert a == [a[0]] + a[1..] && b == [b[0]] + b[1..];
    }
    if a != "" {
      LessTotal(a[1..], a[1..]);
    }
  }

  lemma {:induction false} LessTransitive(a: string, b: string, c: string)
    requires LessId(a, b) && LessId(b, c)
    ensures LessId(a, c)
  {
    if a != "" && a[0] == b[0] == c[0] {
      LessTransitive(a[1..], b[1..], c[1..]);
    }
  }

  /** The higher score first, and of equal ones the lesser name. */
  predicate Ahead(apps: map<AppId, App>, x: AppId, y: AppId)
    requires x in apps && y in apps
  {
    apps[x].smooth > apps[y].smooth || (apps[x].smooth == apps[y].smooth && LessId(x, y))
  }

  ghost predicate IsFirst(apps: map<AppId, App>, among: set<AppId>, x: AppId)
    requires among <= apps.Keys
  {
    x in among && forall y <- among :: y != x ==> Ahead(apps, x, y)
  }

  lemma {:induction false} FirstExists(apps: map<AppId, App>, among: set<AppId>) returns (x: AppId)
    requires among <= apps.Keys && among != {}
    ensures IsFirst(apps, among, x)
    decreases |among|
  {
    x :| x in among;
    if among != {x} {
      var y := FirstExists(apps, among - {x});
      x := Better(apps, among - {x}, x, y);
    }
  }

  /** The first of some and one more. */
  lemma Better(apps: map<AppId, App>, among: set<AppId>, x: AppId, y: AppId) returns (z: AppId)
    requires among <= apps.Keys && x in apps && x !in among && IsFirst(apps, among, y)
    ensures IsFirst(apps, among + {x}, z) && z == if Ahead(apps, x, y) then x else y
  {
    LessTotal(x, y);
    z := if Ahead(apps, x, y) then x else y;
    if Ahead(apps, x, y) {
      forall w | w in among && w != y ensures Ahead(apps, x, w) {
        if LessId(x, y) && LessId(y, w) {
          LessTransitive(x, y, w);
        }
      }
    }
  }

  lemma OneFirst(apps: map<AppId, App>, among: set<AppId>, x: AppId, y: AppId)
    requires among <= apps.Keys && IsFirst(apps, among, x) && IsFirst(apps, among, y)
    ensures x == y
  {
    LessTotal(x, y);
  }

  ghost function First(apps: map<AppId, App>): (x: AppId)
    requires apps != map[]
    ensures IsFirst(apps, apps.Keys, x)
  {
    assert exists x :: IsFirst(apps, apps.Keys, x) by {
      var x := FirstExists(apps, apps.Keys);
    }
    var x :| IsFirst(apps, apps.Keys, x);
    x
  }

  // ----- The choice -----

  /** The challenger: first in rank, with a score of 30, and not the one chosen now. */
  ghost function Top(apps: map<AppId, App>, cur: string): (t: Option<AppId>)
    ensures t.Some? ==> t.value in apps && t.value != cur
  {
    if apps != map[] && apps[First(apps)].smooth >= ENTER && First(apps) != cur then Some(First(apps)) else None
  }

  function Score(apps: map<AppId, App>, cur: string): real {
    if cur != "" && cur in apps then apps[cur].smooth else 0.0
  }

  /** The one chosen may stay: a score of 20, or active in the last 30 seconds. */
  predicate Holds(apps: map<AppId, App>, cur: string, now: int) {
    cur != "" && cur in apps &&
    (apps[cur].smooth >= STAY || (apps[cur].active.Some? && now - apps[cur].active.value <= PAUSE))
  }

  predicate Big(apps: map<AppId, App>, cur: string, x: AppId)
    requires x in apps
  {
    apps[x].smooth >= BIG_MIN && apps[x].smooth - Score(apps, cur) >= BIG_MARGIN
  }

  /** The challenger has led for two ticks, this one included, or leads by far. */
  predicate Qualified(apps: map<AppId, App>, cur: string, x: AppId)
    requires x in apps
  {
    apps[x].lead + 1 >= LEAD_TICKS || Big(apps, cur, x)
  }

  ghost function Choice(apps: map<AppId, App>, cur: string, now: int): string {
    var top := Top(apps, cur);
    if top.Some? && Qualified(apps, cur, top.value) then top.value else if Holds(apps, cur, now) then cur else ""
  }

  ghost function Leading(apps: map<AppId, App>, cur: string): map<AppId, App> {
    var top := Top(apps, cur);
    map id | id in apps :: apps[id].(lead := if top == Some(id) && !Qualified(apps, cur, id) then apps[id].lead + 1
      else 0)
  }

  ghost function Step(d: Device, i: Seen): Device {
    var apps := Scored(d, i);
    Device(Leading(apps, d.cur), Choice(apps, d.cur, i.now))
  }

  class Chooser {
    var apps: map<AppId, App>
    var cur: string

    function Now(): Device
      reads this
    {
      Device(apps, cur)
    }

    constructor ()
      ensures Now() == NOBODY
    {
      apps, cur := map[], "";
    }

    /** Notes that an application is seen; a new one is taken in if there is room. */
    method See(id: AppId, now: int) returns (took: bool)
      modifies this`apps
      ensures took == (id !in old(apps) && |old(apps)| < MAX_APPS)
      ensures apps == if id in old(apps) then old(apps)[id := old(apps)[id].(seen := now)]
                      else if took then old(apps)[id := App(0.0, None, None, now, 0)] else old(apps)
    {
      took := false;
      if id in apps {
        apps := apps[id := apps[id].(seen := now)];
      } else if |apps| < MAX_APPS {
        apps := apps[id := App(0.0, None, None, now, 0)];
        took := true;
      }
    }

    /** Takes in what is seen, as far as there is room. */
    method Enter(i: Seen) returns (taken: set<AppId>)
      modifies this`apps
      ensures Admits(old(apps), i.(taken := taken)) && apps == Entered(old(apps), i.(taken := taken))
    {
      hide EnteredBy, TakenOK, Admits, Entered;
      var rest := i.looks.Keys;
      taken := {};
      ghost var was := apps;
      NobodyEntered(was, i.now, rest);
      while rest != {}
        invariant rest <= i.looks.Keys
        invariant apps == EnteredBy(was, i.now, i.looks.Keys - rest, taken)
        invariant TakenOK(was, i.looks.Keys - rest, taken, |apps|)
        decreases |rest|
      {
        var id :| id in rest;
        ghost var e := apps;
        var took := See(id, i.now);
        EnterOne(was, i.now, i.looks.Keys - rest, taken, id, e, apps, took);
        Visit(i.looks.Keys, rest, id);
        rest := rest - {id};
        taken := if took then taken + {id} else taken;
      }
      AllEntered(was, i.(taken := taken), apps);
    }

    /** Scores every application, then forgets those not seen for ten minutes. */
    method ScoreAll(i: Seen)
      modifies this`apps
      ensures apps == map id | id in old(apps) && Stays(old(apps)[id], id, cur, i) :: Felt(old(apps)[id], i, id)
    {
      hide Felt;
      var rest := apps.Keys;
      ghost var was := apps;
      while rest != {}
        invariant rest <= was.Keys && apps.Keys == was.Keys
        invariant forall id <- was :: apps[id] == if id in rest then was[id] else Felt(was[id], i, id)
        decreases |rest|
      {
        var id :| id in rest;
        rest := rest - {id};
        apps := apps[id := Felt(apps[id], i, id)];
      }
      FeltSeen(was, i);
      apps := map id | id in apps && !(id != cur && id != i.shadow && i.now - apps[id].seen > APP_DROP) :: apps[id];
    }

    /** The one that sorting by rank would put first. */
    method FindFirst() returns (x: AppId)
      requires apps != map[]
      ensures x in apps && x == First(apps)
    {
      x :| x in apps.Keys;
      var rest := apps.Keys - {x};
      while rest != {}
        invariant rest <= apps.Keys && IsFirst(apps, apps.Keys - rest, x)
        decreases |rest|
      {
        var y :| y in rest;
        ghost var z := Better(apps, apps.Keys - rest, y, x);
        assert apps.Keys - (rest - {y}) == apps.Keys - rest + {y};
        rest := rest - {y};
        if Ahead(apps, y, x) {
          x := y;
        }
      }
      assert apps.Keys - {} == apps.Keys;
      OneFirst(apps, apps.Keys, x, First(apps));
    }

    method FindTop() returns (top: Option<AppId>)
      ensures top == Top(apps, cur)
    {
      hide First, IsFirst;
      top := None;
      if apps != map[] {
        var first := FindFirst();
        if apps[first].smooth >= ENTER && first != cur {
          top := Some(first);
        }
      }
    }

    method Choose(now: int)
      modifies this
      ensures Now() == Device(Leading(old(apps), old(cur)), Choice(old(apps), old(cur), now))
    {
      hide Top, Holds, Leading;
      var top := FindTop();
      var was := apps;
      apps := map id | id in was :: was[id].(lead := if top == Some(id) then was[id].lead + 1 else 0);
      SameHold(was, apps, cur, now);
      LeadingIs(was, cur, apps);
      if cur == "" || cur !in apps {
        cur := "";
      }
      var score := Score(apps, cur);
      var ok := Holds(apps, cur, now);
      var chosen := cur;
      if top.Some? {
        var t := apps[top.value];
        if t.lead >= LEAD_TICKS || (t.smooth >= BIG_MIN && t.smooth - score >= BIG_MARGIN) {
          chosen := top.value;
          apps := apps[top.value := t.(lead := 0)];
        }
      }
      if chosen == cur && !ok {
        chosen := "";
      }
      cur := chosen;
    }

    /** A tick: which new applications are taken in is left open when there is no room for all. */
    method Tick(now: int, dt: nat, alpha: real, looks: map<AppId, Look>, shadow: string) returns (i: Seen)
      modifies this
      ensures i == Seen(now, dt, alpha, looks, i.taken, shadow) && Admits(old(apps), i)
      ensures Now() == Step(old(Now()), i)
    {
      hide Admits, Felt, Choice, Leading, Entered;
      i := Seen(now, dt, alpha, looks, {}, shadow);
      var taken := Enter(i);
      i := i.(taken := taken);
      ghost var apps1 := apps;
      ScoreAll(i);
      assert apps == Scored(old(Now()), i);
      Choose(now);
    }
  }

  /** The new ones of `done` were taken in as long as there was room; there are `n` now. */
  predicate TakenOK(apps: map<AppId, App>, done: set<AppId>, taken: set<AppId>, n: nat) {
    taken <= done - apps.Keys && (taken == done - apps.Keys || n >= MAX_APPS) && (taken == {} || n <= MAX_APPS)
  }

  lemma NobodyEntered(apps: map<AppId, App>, now: int, all: set<AppId>)
    ensures EnteredBy(apps, now, all - all, {}) == apps && TakenOK(apps, all - all, {}, |apps|)
  {
  }

  lemma Visit(all: set<AppId>, rest: set<AppId>, id: AppId)
    requires rest <= all && id in rest
    ensures all - (rest - {id}) == all - rest + {id}
  {
  }

  lemma EnterOne(apps: map<AppId, App>, now: int, done: set<AppId>, taken: set<AppId>, id: AppId, e: map<AppId, App>,
                 e2: map<AppId, App>, took: bool)
    requires id !in done && e == EnteredBy(apps, now, done, taken) && TakenOK(apps, done, taken, |e|)
    requires took == (id !in e && |e| < MAX_APPS)
    requires e2 == if id in e then e[id := e[id].(seen := now)] else if took then e[id := App(0.0, None, None, now, 0)]
            else e
    ensures var taken2 := if took then taken + {id} else taken;
      e2 == EnteredBy(apps, now, done + {id}, taken2) && TakenOK(apps, done + {id}, taken2, |e2|)
  {
    assert taken <= done by { assert TakenOK(apps, done, taken, |e|); }
    EnterMap(apps, now, done, taken, id);
    TakeOne(apps, done, taken, id, |e|);
    hide EnteredBy, TakenOK;
    assert |e2| == if took then |e| + 1 else |e|;
  }

  lemma EnterMap(apps: map<AppId, App>, now: int, done: set<AppId>, taken: set<AppId>, id: AppId)
    requires id !in done && taken <= done
    ensures var e := EnteredBy(apps, now, done, taken);
      && (id in e ==> id in apps && EnteredBy(apps, now, done + {id}, taken) == e[id := e[id].(seen := now)])
      && (id !in e ==>
          && id !in apps && EnteredBy(apps, now, done + {id}, taken) == e
          && EnteredBy(apps, now, done + {id}, taken + {id}) == e[id := App(0.0, None, None, now, 0)])
  {
  }

  lemma TakeOne(apps: map<AppId, App>, done: set<AppId>, taken: set<AppId>, id: AppId, n: nat)
    requires id !in done && TakenOK(apps, done, taken, n)
    ensures id in apps || n >= MAX_APPS ==> TakenOK(apps, done + {id}, taken, n)
    ensures id !in apps && n < MAX_APPS ==> TakenOK(apps, done + {id}, taken + {id}, n + 1)
  {
  }

  lemma AllEntered(was: map<AppId, App>, i: Seen, apps: map<AppId, App>)
    requires apps == EnteredBy(was, i.now, i.looks.Keys - {}, i.taken)
            && TakenOK(was, i.looks.Keys - {}, i.taken, |apps|)
    ensures Admits(was, i) && apps == Entered(was, i)
  {
    assert i.looks.Keys - {} == i.looks.Keys;
    assert |apps| == |apps.Keys| && |was| == |was.Keys|;
  }

  /** The leads, where one who qualifies starts again. */
  lemma LeadingIs(was: map<AppId, App>, cur: string, led: map<AppId, App>)
    requires led == map id | id in was :: was[id].(lead := if Top(was, cur) == Some(id) then was[id].lead + 1 else 0)
    ensures var top := Top(was, cur);
      Leading(was, cur) == if top.Some? && Qualified(was, cur, top.value)
        then led[top.value := led[top.value].(lead := 0)] else led
  {
    hide Top, Qualified;
  }

  lemma SameHold(a: map<AppId, App>, b: map<AppId, App>, cur: string, now: int)
    requires a.Keys == b.Keys && forall id <- a :: a[id].smooth == b[id].smooth && a[id].active == b[id].active
    ensures Holds(b, cur, now) == Holds(a, cur, now) && Score(b, cur) == Score(a, cur)
    ensures !Holds(b, "", now) && (cur == "" || cur !in b ==> !Holds(b, cur, now))
  {
  }

  lemma FeltSeen(apps: map<AppId, App>, i: Seen)
    ensures forall id <- apps :: Felt(apps[id], i, id).seen == apps[id].seen
  {
  }

  // ----- What a tick keeps -----

  /** Any score comes from activity, nothing is active later than now, leads are of one tick at most,
      and the one chosen is known and has been active. */
  predicate Sound(d: Device, now: int) {
    && (forall id <- d.apps :: AppSound(d.apps[id], now))
    && (forall id <- d.apps :: d.apps[id].lead > 0 ==> d.apps[id].lead == 1 && id != d.cur)
    && (d.cur != "" ==> d.cur in d.apps && d.apps[d.cur].active.Some?)
  }

  predicate AppSound(a: App, now: int) {
    && (a.smooth != 0.0 ==> a.active.Some?) && (a.active.Some? ==> a.active.value <= now)
    && (a.active.Some? <==> a.since.Some?)
  }

  lemma FeltSound(a: App, i: Seen, id: AppId, at: int)
    requires AppSound(a, at) && at <= i.now
    ensures AppSound(Felt(a, i, id), i.now) && (a.active.Some? ==> Felt(a, i, id).active.Some?)
  {
    assert i.alpha * (0.0 - 0.0) == 0.0;
  }

  lemma ScoredSound(d: Device, i: Seen, at: int)
    requires Sound(d, at) && at <= i.now
    ensures forall id <- Scored(d, i) :: AppSound(Scored(d, i)[id], i.now)
    ensures d.cur != "" ==> d.cur in Scored(d, i) && Scored(d, i)[d.cur].active.Some?
    ensures forall id <- Scored(d, i) :: Scored(d, i)[id].lead <= 1
  {
    hide Felt, AppSound;
    var apps := Entered(d.apps, i);
    forall id | id in Scored(d, i)
      ensures AppSound(Scored(d, i)[id], i.now) && Scored(d, i)[id].lead <= 1
      ensures id in d.apps && d.apps[id].active.Some? ==> Scored(d, i)[id].active.Some?
    {
      EnteredSound(d, i, id, at);
      FeltSound(apps[id], i, id, at);
      FeltLead(apps[id], i, id);
    }
  }

  lemma EnteredSound(d: Device, i: Seen, id: AppId, at: int)
    requires Sound(d, at) && id in Entered(d.apps, i)
    ensures AppSound(Entered(d.apps, i)[id], at) && Entered(d.apps, i)[id].lead <= 1
    ensures id in d.apps ==> Entered(d.apps, i)[id].active == d.apps[id].active
  {
  }

  lemma FeltLead(a: App, i: Seen, id: AppId)
    ensures Felt(a, i, id).lead == a.lead
  {
  }

  lemma StepSound(d: Device, i: Seen, at: int)
    requires Sound(d, at) && at <= i.now
    ensures Sound(Step(d, i), i.now)
  {
    ScoredSound(d, i, at);
    hide Scored, First;
  }

  // ----- When the choice changes -----

  /** An application is newly chosen exactly if it is first in rank with a score of 30 and either was so
      in the tick before too, or has 60 and leads by 40; the lead it has is that of the tick before. */
  lemma SwitchExactly(d: Device, i: Seen, j: Seen, x: AppId, at: int)
    requires Sound(d, at) && at <= i.now <= j.now
    requires x != Step(d, i).cur
    ensures var e := Step(d, i);
      var apps := Scored(e, j);
      Step(e, j).cur == x <==>
        Top(apps, e.cur) == Some(x) && (Top(Scored(d, i), d.cur) == Some(x) || Big(apps, e.cur, x))
  {
    hide Scored, First, Big, Top, Holds, Sound, AppSound;
    LeadIs(d, i, x, at);
    StepSound(d, i, at);
    LeadKept(Step(d, i), j, x, i.now);
  }

  lemma LeadIs(d: Device, i: Seen, x: AppId, at: int)
    requires Sound(d, at) && at <= i.now && x != Step(d, i).cur
    ensures Top(Scored(d, i), d.cur) == Some(x) ==> x in Step(d, i).apps
    ensures x in Step(d, i).apps ==> Step(d, i).apps[x].lead == if Top(Scored(d, i), d.cur) == Some(x) then 1 else 0
  {
    ScoredSound(d, i, at);
    hide Scored, First, Holds, Sound, AppSound;
  }

  lemma LeadKept(d: Device, i: Seen, x: AppId, at: int)
    ensures x in Scored(d, i) ==> Scored(d, i)[x].lead == if x in d.apps then d.apps[x].lead else 0
  {
    if x in Scored(d, i) {
      FeltLead(Entered(d.apps, i)[x], i, x);
    }
    hide Felt;
  }

  /** Whatever is chosen after a tick has a score of 20 or was active in the last 30 seconds; and it
      stays the choice as long as that is so and no challenger qualifies. */
  lemma ChosenHolds(d: Device, i: Seen)
    ensures var e := Step(d, i); e.cur != "" ==> Holds(e.apps, e.cur, i.now)
    ensures var apps := Scored(d, i);
      Step(d, i).cur == d.cur <==>
        !(Top(apps, d.cur).Some? && Qualified(apps, d.cur, Top(apps, d.cur).value))
          && (d.cur == "" || Holds(apps, d.cur, i.now))
  {
    hide Scored, First, Qualified;
  }

  // ----- What is shown has been active -----

  ghost function DeviceRun(run: seq<Seen>): Device {
    if run == [] then NOBODY else Step(DeviceRun(run[..|run| - 1]), run[|run| - 1])
  }

  predicate TimeGoesOn(run: seq<Seen>) { forall k :: 0 < k < |run| ==> run[k - 1].now <= run[k].now }

  lemma {:induction false} RunSound(run: seq<Seen>)
    requires TimeGoesOn(run)
    ensures run == [] ==> forall at: int :: Sound(DeviceRun(run), at)
    ensures run != [] ==> Sound(DeviceRun(run), run[|run| - 1].now)
  {
    if run != [] {
      var n := |run| - 1;
      RunSound(run[..n]);
      assert n > 0 ==> run[..n][n - 1] == run[n - 1];
      hide Step, Sound;
      StepSound(DeviceRun(run[..n]), run[n], if n > 0 then run[n - 1].now else run[n].now);
    }
  }

  /** Where an application's last activity comes from: a tick that saw it active. */
  lemma {:induction false} LastActive(run: seq<Seen>, x: AppId) returns (k: nat)
    ensures var d := DeviceRun(run);
      x in d.apps && d.apps[x].active.Some? ==> k < |run| && IsActive(run[k], x) && d.apps[x].active == Some(run[k].now)
  {
    k := 0;
    if run != [] {
      var n := |run| - 1;
      k := LastActive(run[..n], x);
      var d := DeviceRun(run[..n]);
      ActiveStep(d, run[n], x);
      if IsActive(run[n], x) {
        k := n;
      }
    }
  }

  lemma ActiveStep(d: Device, i: Seen, x: AppId)
    ensures var e := Step(d, i);
      x in e.apps && e.apps[x].active.Some? ==>
        e.apps[x].active == if IsActive(i, x) then Some(i.now) else if x in d.apps then d.apps[x].active else None
  {
    hide Top, Qualified, Choice;
    var apps := Entered(d.apps, i);
    if x in apps {
      FeltActive(apps[x], i, x);
    }
    hide Felt;
  }

  lemma FeltActive(a: App, i: Seen, id: AppId)
    ensures Felt(a, i, id).active == if IsActive(i, id) then Some(i.now) else a.active
  {
  }

  /** The application shown was active in some tick of the run. */
  lemma ShownHasBeenActive(run: seq<Seen>) returns (k: nat)
    requires TimeGoesOn(run) && DeviceRun(run).cur != ""
    ensures var d := DeviceRun(run);
      d.cur in d.apps && k < |run| && IsActive(run[k], d.cur) && d.apps[d.cur].active == Some(run[k].now)
  {
    RunSound(run);
    k := LastActive(run, DeviceRun(run).cur);
  }

  // ----- The timeline of the classic engine -----

  /** What a tick sees of one device. */
  datatype View = View(mac: Mac, alpha: real, looks: map<AppId, Look>, taken: set<AppId>, shadow: string)

  datatype Round = Shows(now: int, views: seq<View>, gone: set<Mac>) | Resets(at: int)

  function DeviceOf(devs: map<Mac, Device>, mac: Mac): Device { if mac in devs then devs[mac] else NOBODY }

  function ActiveOf(apps: map<AppId, App>, id: string): Option<int> {
    if id != "" && id in apps then apps[id].active else None
  }

  function SinceOf(apps: map<AppId, App>, id: string): Option<int> {
    if id != "" && id in apps then apps[id].since else None
  }

  /** The classic engine shows what it has chosen. */
  ghost function DecisionOf(mac: Mac, d: Device, i: Seen): Decision {
    var apps, cur := Scored(d, i), Step(d, i).cur;
    Decision(mac, cur, SinceOf(apps, cur), ActiveOf(apps, cur), ActiveOf(apps, d.cur))
  }

  function SeenOf(v: View, now: int, dt: nat): Seen { Seen(now, dt, v.alpha, v.looks, v.taken, v.shadow) }

  ghost function Decisions(devs: map<Mac, Device>, views: seq<View>, now: int, dt: nat)
    : (seq<Decision>, map<Mac, Device>)
    decreases |views|
  {
    if views == [] then ([], devs) else
      var v := views[0];
      var d, i := DeviceOf(devs, v.mac), SeenOf(v, now, dt);
      var rest := Decisions(devs[v.mac := Step(d, i)], views[1..], now, dt);
      ([DecisionOf(v.mac, d, i)] + rest.0, rest.1)
  }

  /** Time that stands still or goes back, or a long gap. */
  predicate Breaks(last: Option<int>, now: int) { last.Some? && (now <= last.value || now - last.value > GAP_RESET) }

  function Interval(last: Option<int>, now: int): nat {
    if last.None? || Breaks(last, now) then TICK else now - last.value
  }

  function Known(devs: map<Mac, Device>, last: Option<int>, now: int): map<Mac, Device> {
    if last.None? || Breaks(last, now) then map[] else devs
  }

  /** The events of the timeline that a run of the classic engine makes. */
  ghost function Events(devs: map<Mac, Device>, last: Option<int>, run: seq<Round>): seq<Event>
    decreases |run|
  {
    if run == [] then [] else
      match run[0]
      case Resets(at) => [ResetE(at)] + Events(map[], None, run[1..])
      case Shows(now, views, gone) =>
        var r := Decisions(Known(devs, last, now), views, now, Interval(last, now));
        [TickE(now, r.0, gone)] + Events(r.1, Some(now), run[1..])
  }

  predicate AllSound(devs: map<Mac, Device>, at: int) { forall mac <- devs :: Sound(devs[mac], at) }

  lemma DecisionActive(mac: Mac, d: Device, i: Seen, at: int)
    requires Sound(d, at) && at <= i.now
    ensures ActiveDecision(DecisionOf(mac, d, i), i.now)
  {
    ScoredSound(d, i, at);
    hide Scored, First, Qualified;
  }

  lemma SoundLater(d: Device, at: int, now: int)
    requires Sound(d, at) && at <= now
    ensures Sound(d, now)
  {
  }

  lemma {:induction false} DecisionsActive(devs: map<Mac, Device>, views: seq<View>, now: int, dt: nat)
    requires AllSound(devs, now)
    ensures var r := Decisions(devs, views, now, dt);
      AllSound(r.1, now) && forall c <- r.0 :: ActiveDecision(c, now)
    decreases |views|
  {
    hide Sound, Step, DecisionOf, ActiveDecision;
    if views != [] {
      var v := views[0];
      var d, i := DeviceOf(devs, v.mac), SeenOf(v, now, dt);
      NobodySound(now);
      StepSound(d, i, now);
      DecisionActive(v.mac, d, i, now);
      DecisionsActive(devs[v.mac := Step(d, i)], views[1..], now, dt);
    }
  }

  lemma NobodySound(now: int)
    ensures Sound(NOBODY, now)
  {
  }

  lemma {:induction false} EventsActive(devs: map<Mac, Device>, last: Option<int>, run: seq<Round>)
    requires last.Some? ==> AllSound(devs, last.value)
    ensures forall e <- Events(devs, last, run) :: ActiveEvent(e)
    decreases |run|
  {
    hide Sound, Decisions, ActiveDecision;
    if run != [] {
      match run[0]
      case Resets(at) =>
        EventsActive(map[], None, run[1..]);
      case Shows(now, views, gone) =>
        KnownSound(devs, last, now);
        DecisionsActive(Known(devs, last, now), views, now, Interval(last, now));
        EventsActive(Decisions(Known(devs, last, now), views, now, Interval(last, now)).1, Some(now), run[1..]);
    }
  }

  lemma KnownSound(devs: map<Mac, Device>, last: Option<int>, now: int)
    requires last.Some? ==> AllSound(devs, last.value)
    ensures AllSound(Known(devs, last, now), now)
  {
    forall mac | mac in Known(devs, last, now) ensures Sound(devs[mac], now) {
      SoundLater(devs[mac], last.value, now);
    }
    hide Sound;
  }

  /** Under the classic engine the timeline is in order in every run: whatever is seen, whatever clocks
      and resets do, and whichever new applications find room. */
  lemma ClassicRunsInOrder(run: seq<Round>, offset: int)
    ensures AllOrdered(FgRuns.Run(INITIAL, Events(map[], None, run), offset))
    ensures Timely(FgRuns.Run(INITIAL, Events(map[], None, run), offset), offset)
  {
    hide AllOrdered, Timely, Events, FgRuns.Run;
    EventsActive(map[], None, run);
    StartOrdered();
    StartTimely(offset);
    ActiveRunsInOrder(INITIAL, Events(map[], None, run), offset);
  }
}
