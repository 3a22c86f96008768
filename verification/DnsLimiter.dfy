/**
 The per-client rate limiter (dns_forwarder.go:754-799): a bounded table of token buckets.
 Times are whole nanoseconds, tokens and rates are reals.
 */
module DnsLimiter {
  import opened Common

  type Client = seq<char>

  const MINUTE := 60_000_000_000

  datatype Bucket = Bucket(tokens: real, last: int)

  /** Tokens per second, the most a bucket holds, and the most buckets there are. */
  datatype Limits = Limits(rate: real, burst: real, max: nat)

  const DEFAULT := Limits(50.0, 200.0, 1024)

  function Seconds(ns: int): real { ns as real / 1_000_000_000.0 }

  /** What a bucket gains in a time. */
  function Gain(ns: int, rate: real): real { Seconds(ns) * rate }

  function Refill(b: Bucket, now: int, l: Limits): real {
    var t := b.tokens + Gain(now - b.last, l.rate);
    if t > l.burst then l.burst else t
  }

  function Reclaim(m: map<Client, Bucket>, now: int): map<Client, Bucket> {
    map c | c in m && now - m[c].last <= MINUTE :: m[c]
  }

  /** The table a call works on: full tables are reclaimed before a new client is taken in. */
  function Table(m: map<Client, Bucket>, c: Client, now: int, l: Limits): map<Client, Bucket> {
    if c !in m && |m| >= l.max then Reclaim(m, now) else m
  }

  /** A new client that finds no room is let through and not tracked. */
  predicate PassesUntracked(m: map<Client, Bucket>, c: Client, now: int, l: Limits) {
    c !in m && |Table(m, c, now, l)| >= l.max
  }

  function Bucketed(m: map<Client, Bucket>, c: Client, now: int, l: Limits): (map<Client, Bucket>, bool) {
    var b := if c in m then m[c] else Bucket(l.burst, now);
    var t := Refill(b, now, l);
    if t < 1.0 then (m[c := Bucket(t, now)], false) else (m[c := Bucket(t - 1.0, now)], true)
  }

  function AllowStep(m: map<Client, Bucket>, c: Client, now: int, l: Limits): (map<Client, Bucket>, bool) {
    if PassesUntracked(m, c, now, l) then (Table(m, c, now, l), true) else Bucketed(Table(m, c, now, l), c, now, l)
  }

  lemma ReclaimSmaller(m: map<Client, Bucket>, now: int)
    ensures |Reclaim(m, now)| <= |m|
  {
    SubsetSmaller(Reclaim(m, now).Keys, m.Keys);
  }

  lemma Overwrite(m: map<Client, Bucket>, c: Client, a: Bucket, b: Bucket)
    ensures m[c := a][c := b] == m[c := b] && |m[c := b]| <= |m| + 1
  {
  }

  class Limiter {
    const l: Limits
    var m: map<Client, Bucket>

    /** The table never outgrows its limit. */
    predicate Valid()
      reads this
    {
      |m| <= l.max
    }

    constructor (limits: Limits)
      ensures Valid() && l == limits && m == map[]
    {
      l, m := limits, map[];
    }

    method Allow(c: Client, now: int) returns (ok: bool)
      requires Valid()
      modifies this
      ensures Valid()
      ensures (m, ok) == AllowStep(old(m), c, now, l)
    {
      hide Gain;
      NoGain(l.rate);
      ReclaimSmaller(m, now);
      if c !in m {
        if |m| >= l.max {
          Sweep(now);
          if |m| >= l.max {
            return true;
          }
        }
        m := m[c := Bucket(l.burst, now)];
      }
      ghost var tab := Table(old(m), c, now, l);
      assert m == tab || m == tab[c := Bucket(l.burst, now)];
      assert m[c] == if c in tab then tab[c] else Bucket(l.burst, now);
      var b := m[c];
      var t := b.tokens + Gain(now - b.last, l.rate);
      if t > l.burst {
        t := l.burst;
      }
      assert Refill(b, now, l) == t;
      Overwrite(tab, c, Bucket(l.burst, now), Bucket(t, now));
      Overwrite(tab, c, Bucket(t, now), Bucket(t - 1.0, now));
      m := m[c := Bucket(t, now)];
      if t < 1.0 {
        return false;
      }
      m := m[c := Bucket(t - 1.0, now)];
      return true;
    }

    /** Forgets the clients idle for more than a minute. */
    method Sweep(now: int)
      modifies this
      ensures m == Reclaim(old(m), now)
    {
      var todo := m.Keys;
      while todo != {}
        invariant todo <= m.Keys <= old(m).Keys
        invariant forall c :: c in old(m) && c !in todo ==> (c in m <==> old(m)[c].last >= now - MINUTE)
        invariant forall c :: c in m ==> m[c] == old(m)[c]
        decreases |todo|
      {
        var c :| c in todo;
        if now - m[c].last > MINUTE {
          m := m - {c};
        }
        todo := todo - {c};
      }
    }
  }

  // ----- Forgetting an idle client -----

  predicate Sound(l: Limits) { l.rate >= 0.0 && l.burst >= 0.0 }

  /** Whether forgetting idle clients cannot be noticed: over the shortest idle time after which
      a bucket goes, an empty one fills up. */
  predicate Forgiving(l: Limits) { Gain(MINUTE + 1, l.rate) >= l.burst }

  predicate BucketOK(b: Bucket, now: int, l: Limits) { 0.0 <= b.tokens <= l.burst && b.last <= now }

  lemma More(a: int, b: int, rate: real)
    requires a <= b && rate >= 0.0
    ensures Gain(a, rate) <= Gain(b, rate)
  {
    Split(a, b - a, rate);
    Product(Seconds(b - a), rate);
  }

  lemma Product(x: real, y: real)
    requires x >= 0.0 && y >= 0.0
    ensures x * y >= 0.0
  {
  }

  /** Every bucket that may be forgotten is full by then, exactly if the limits are forgiving;
      so one recreated full answers as the kept one would. */
  lemma ForgottenIsFull(l: Limits)
    requires Sound(l)
    ensures Forgiving(l) <==>
            forall b, now :: BucketOK(b, now, l) && now - b.last > MINUTE ==> Refill(b, now, l) == l.burst
    ensures 60.0 * l.rate >= l.burst ==> Forgiving(l)
  {
    MinuteGain(l.rate);
    hide Gain;
    if Forgiving(l) {
      forall b, now | BucketOK(b, now, l) && now - b.last > MINUTE ensures Refill(b, now, l) == l.burst {
        More(MINUTE + 1, now - b.last, l.rate);
      }
    } else {
      var b := Bucket(0.0, 0);
      assert BucketOK(b, MINUTE + 1, l) && Refill(b, MINUTE + 1, l) != l.burst;
    }
    More(MINUTE, MINUTE + 1, l.rate);
  }

  lemma MinuteGain(rate: real)
    ensures Gain(MINUTE, rate) == 60.0 * rate
  {
    assert Seconds(MINUTE) == 60.0;
  }

  function Busy(m: map<Client, Bucket>, now: int): set<Client> {
    set c | c in m && now - m[c].last <= 60_000_000_000
  }

  /** Who is tracked after a call: the others as before, unless the client is new and the table full, and
      then only those with a query in the last minute; the client itself unless there is no room even then.
      One that is not tracked is let through. */
  lemma TrackedExactly(m: map<Client, Bucket>, c: Client, now: int, l: Limits, x: Client)
    ensures var r := AllowStep(m, c, now, l);
      && (x != c ==> (x in r.0 <==> x in m && (c in m || |m| < l.max || x in Busy(m, now))))
      && (x != c && x in r.0 ==> r.0[x] == m[x])
      && (c in r.0 <==> c in m || |m| < l.max || |Busy(m, now)| < l.max)
      && (c !in r.0 ==> r.1) && (c in r.0 ==> r.0[c].last == now)
  {
    hide Gain;
    assert Reclaim(m, now).Keys == Busy(m, now);
    assert |Reclaim(m, now)| == |Reclaim(m, now).Keys|;
  }

  lemma DefaultForgives()
    ensures Sound(DEFAULT) && Forgiving(DEFAULT)
  {
    ForgottenIsFull(DEFAULT);
  }

  // ----- Runs -----

  datatype Call = Call(client: Client, now: int)

  /** Times do not go back and stay within bounds. */
  predicate InOrder(calls: seq<Call>, from: int, to: int)
    decreases |calls|
  {
    if calls == [] then from <= to else from <= calls[0].now && InOrder(calls[1..], calls[0].now, to)
  }

  function Answers(calls: seq<Call>, m: map<Client, Bucket>, l: Limits): seq<bool> {
    if calls == [] then [] else
      var r := AllowStep(m, calls[0].client, calls[0].now, l);
      [r.1] + Answers(calls[1..], r.0, l)
  }

  /** The limiter without a table limit: every client has a bucket of its own for ever. */
  function IdealAnswers(calls: seq<Call>, m: map<Client, Bucket>, l: Limits): seq<bool> {
    if calls == [] then [] else
      var r := Bucketed(m, calls[0].client, calls[0].now, l);
      [r.1] + IdealAnswers(calls[1..], r.0, l)
  }

  /** No call is let through untracked. */
  predicate AlwaysRoom(calls: seq<Call>, m: map<Client, Bucket>, l: Limits)
    decreases |calls|
  {
    calls != [] ==>
      && !PassesUntracked(m, calls[0].client, calls[0].now, l)
      && AlwaysRoom(calls[1..], AllowStep(m, calls[0].client, calls[0].now, l).0, l)
  }

  predicate TableOK(m: map<Client, Bucket>, now: int, l: Limits) { forall c <- m :: BucketOK(m[c], now, l) }

  /** What is in the table is in the ideal one; what is missing from it is full there. */
  predicate Simulates(m: map<Client, Bucket>, ideal: map<Client, Bucket>, now: int, l: Limits) {
    && TableOK(ideal, now, l)
    && (forall c <- m :: c in ideal && ideal[c] == m[c])
    && (forall c <- ideal :: c !in m ==> Refill(ideal[c], now, l) == l.burst)
  }

  lemma FullStaysFull(b: Bucket, t: int, now: int, l: Limits)
    requires Sound(l) && Refill(b, t, l) == l.burst && t <= now
    ensures Refill(b, now, l) == l.burst
  {
    More(t - b.last, now - b.last, l.rate);
  }

  lemma RefillOK(b: Bucket, now: int, l: Limits)
    requires Sound(l) && BucketOK(b, now, l)
    ensures b.tokens <= Refill(b, now, l) <= l.burst && Refill(b, now, l) <= b.tokens + Gain(now - b.last, l.rate)
  {
    Product(Seconds(now - b.last), l.rate);
  }

  lemma SimulatesStep(m: map<Client, Bucket>, ideal: map<Client, Bucket>, t: int, now: int, c: Client, l: Limits)
    requires Sound(l) && Forgiving(l) && t <= now && Simulates(m, ideal, t, l) && !PassesUntracked(m, c, now, l)
    ensures Simulates(AllowStep(m, c, now, l).0, Bucketed(ideal, c, now, l).0, now, l)
    ensures AllowStep(m, c, now, l).1 == Bucketed(ideal, c, now, l).1
  {
    var tab := Table(m, c, now, l);
    ForgottenIsFull(l);
    hide Refill, Forgiving;
    forall d <- ideal | d !in tab ensures Refill(ideal[d], now, l) == l.burst {
      if d !in m {
        FullStaysFull(ideal[d], t, now, l);
      } else {
        assert now - m[d].last > MINUTE && BucketOK(ideal[d], now, l);
      }
    }
    forall d <- ideal ensures BucketOK(ideal[d], now, l) && 0.0 <= Refill(ideal[d], now, l) <= l.burst {
      RefillOK(ideal[d], now, l);
    }
    FreshFull(now, l);
  }

  lemma FreshFull(now: int, l: Limits)
    ensures Refill(Bucket(l.burst, now), now, l) == l.burst
  {
    NoGain(l.rate);
  }

  lemma NoGain(rate: real)
    ensures Gain(0, rate) == 0.0
  {
    assert Seconds(0) == 0.0;
  }

  /** In every run in which time does not go back and no call is let through untracked, the
      bounded, forgetful table answers as if every client kept a bucket for ever. */
  lemma {:induction false} ForgettingIsInvisible(calls: seq<Call>, m: map<Client, Bucket>, ideal: map<Client, Bucket>,
                                                 from: int, to: int, l: Limits)
    requires Sound(l) && Forgiving(l) && Simulates(m, ideal, from, l)
    requires InOrder(calls, from, to) && AlwaysRoom(calls, m, l)
    ensures Answers(calls, m, l) == IdealAnswers(calls, ideal, l)
    decreases |calls|
  {
    hide Simulates, Bucketed, AllowStep, PassesUntracked, Forgiving;
    if calls != [] {
      var c := calls[0];
      SimulatesStep(m, ideal, from, c.now, c.client, l);
      ForgettingIsInvisible(calls[1..], AllowStep(m, c.client, c.now, l).0, Bucketed(ideal, c.client, c.now, l).0,
        c.now, to, l);
    }
  }

  // ----- The bound on a window -----

  /** Tokens a client has at a time, tracked or not. */
  function Avail(m: map<Client, Bucket>, c: Client, now: int, l: Limits): real {
    if c in m then Refill(m[c], now, l) else l.burst
  }

  /** Calls of one client that were allowed. */
  function Allowed(calls: seq<Call>, m: map<Client, Bucket>, c: Client, l: Limits): nat
    decreases |calls|
  {
    if calls == [] then 0 else
      var r := AllowStep(m, calls[0].client, calls[0].now, l);
      (if calls[0].client == c && r.1 then 1 else 0) + Allowed(calls[1..], r.0, c, l)
  }

  /** No call of this client is let through untracked. */
  predicate Tracked(calls: seq<Call>, m: map<Client, Bucket>, c: Client, l: Limits)
    decreases |calls|
  {
    calls != [] ==>
      && (calls[0].client == c ==> !PassesUntracked(m, c, calls[0].now, l))
      && Tracked(calls[1..], AllowStep(m, calls[0].client, calls[0].now, l).0, c, l)
  }

  lemma AvailGrows(m: map<Client, Bucket>, c: Client, t: int, now: int, l: Limits)
    requires Sound(l) && t <= now
    ensures Avail(m, c, now, l) <= Avail(m, c, t, l) + Gain(now - t, l.rate)
  {
    Product(Seconds(now - t), l.rate);
    hide Gain;
    if c in m {
      var b := m[c];
      Split(t - b.last, now - t, l.rate);
    }
  }

  lemma TableKeepsAvail(m: map<Client, Bucket>, c: Client, d: Client, now: int, l: Limits)
    requires Sound(l) && Forgiving(l) && TableOK(m, now, l)
    ensures Avail(Table(m, c, now, l), d, now, l) == Avail(m, d, now, l) && TableOK(Table(m, c, now, l), now, l)
  {
    ForgottenIsFull(l);
  }

  /** A call costs the caller one token if it is allowed, and nobody else anything. */
  lemma AvailStep(m: map<Client, Bucket>, c: Client, d: Client, now: int, l: Limits)
    requires Sound(l) && Forgiving(l) && TableOK(m, now, l)
    requires c == d ==> !PassesUntracked(m, c, now, l)
    ensures var r := AllowStep(m, c, now, l);
      && TableOK(r.0, now, l)
      && Avail(r.0, d, now, l) == Avail(m, d, now, l) - (if c == d && r.1 then 1.0 else 0.0)
      && (c == d && r.1 ==> Avail(m, d, now, l) >= 1.0)
  {
    hide Gain;
    NoGain(l.rate);
    TableKeepsAvail(m, c, d, now, l);
    var tab := Table(m, c, now, l);
    FreshFull(now, l);
    if c in tab {
      RefillOK(tab[c], now, l);
    }
  }

  lemma SoundTable(m: map<Client, Bucket>, t: int, now: int, l: Limits)
    requires TableOK(m, t, l) && t <= now
    ensures TableOK(m, now, l)
  {
  }

  lemma {:induction false} AllowedBound(calls: seq<Call>, m: map<Client, Bucket>, c: Client, from: int, to: int,
                                        l: Limits)
    requires Sound(l) && Forgiving(l) && TableOK(m, from, l) && InOrder(calls, from, to) && Tracked(calls, m, c, l)
    ensures from <= to
    ensures Allowed(calls, m, c, l) as real <= Avail(m, c, from, l) + Gain(to - from, l.rate)
    decreases |calls|
  {
    hide AllowStep, PassesUntracked, Forgiving, TableOK, Avail;
    if calls == [] {
      AvailNonneg(m, c, from, l);
      Product(Seconds(to - from), l.rate);
    } else {
      var d := calls[0];
      SoundTable(m, from, d.now, l);
      AvailStep(m, d.client, c, d.now, l);
      AllowedBound(calls[1..], AllowStep(m, d.client, d.now, l).0, c, d.now, to, l);
      AvailGrows(m, c, from, d.now, l);
      Split(d.now - from, to - d.now, l.rate);
    }
  }

  lemma Split(a: int, b: int, rate: real)
    ensures Gain(a + b, rate) == Gain(a, rate) + Gain(b, rate)
  {
    assert Seconds(a + b) == Seconds(a) + Seconds(b);
  }

  lemma AvailNonneg(m: map<Client, Bucket>, c: Client, now: int, l: Limits)
    requires Sound(l) && TableOK(m, now, l)
    ensures 0.0 <= Avail(m, c, now, l) <= l.burst
  {
    if c in m {
      RefillOK(m[c], now, l);
    }
  }

  /** The queries of a tracked client allowed in any window are at most the burst plus the rate
      times its length, whatever other clients do. */
  lemma WindowBound(calls: seq<Call>, m: map<Client, Bucket>, c: Client, from: int, to: int, l: Limits)
    requires Sound(l) && Forgiving(l) && TableOK(m, from, l) && InOrder(calls, from, to) && Tracked(calls, m, c, l)
    ensures Allowed(calls, m, c, l) as real <= l.burst + Gain(to - from, l.rate)
  {
    hide Allowed, Tracked, InOrder, Forgiving;
    AllowedBound(calls, m, c, from, to, l);
    AvailNonneg(m, c, from, l);
  }

  /** The state a window starts in: every run keeps the table sound. */
  lemma {:induction false} RunKeepsTable(calls: seq<Call>, m: map<Client, Bucket>, from: int, to: int, l: Limits)
    requires Sound(l) && TableOK(m, from, l) && InOrder(calls, from, to)
    ensures TableOK(After(calls, m, l), to, l)
    decreases |calls|
  {
    hide AllowStep;
    if calls != [] {
      var d := calls[0];
      StepKeepsTable(m, d.client, d.now, l);
      RunKeepsTable(calls[1..], AllowStep(m, d.client, d.now, l).0, d.now, to, l);
    }
  }

  function After(calls: seq<Call>, m: map<Client, Bucket>, l: Limits): map<Client, Bucket> {
    if calls == [] then m else After(calls[1..], AllowStep(m, calls[0].client, calls[0].now, l).0, l)
  }

  lemma StepKeepsTable(m: map<Client, Bucket>, c: Client, now: int, l: Limits)
    requires Sound(l) && TableOK(m, now, l)
    ensures TableOK(AllowStep(m, c, now, l).0, now, l)
  {
    FreshFull(now, l);
    if c in m {
      RefillOK(m[c], now, l);
    }
  }

  // ----- What a client gets -----

  /** A query is let through exactly if the client has a token, or is not tracked; one token is what it costs. */
  lemma LetThroughIff(m: map<Client, Bucket>, c: Client, now: int, l: Limits)
    requires Sound(l) && Forgiving(l) && TableOK(m, now, l)
    ensures AllowStep(m, c, now, l).1 <==> PassesUntracked(m, c, now, l) || Avail(m, c, now, l) >= 1.0
  {
    hide Gain;
    TableKeepsAvail(m, c, c, now, l);
    FreshFull(now, l);
  }

  function Asks(calls: seq<Call>, c: Client): nat {
    if calls == [] then 0 else (if calls[0].client == c then 1 else 0) + Asks(calls[1..], c)
  }

  /** A client that has as many tokens as it makes queries has all of them let through, whoever else asks. */
  lemma {:induction false} EnoughTokens(calls: seq<Call>, m: map<Client, Bucket>, c: Client, from: int, to: int,
                                        l: Limits)
    requires Sound(l) && Forgiving(l) && TableOK(m, from, l) && InOrder(calls, from, to) && Tracked(calls, m, c, l)
    requires Avail(m, c, from, l) >= Asks(calls, c) as real
    ensures Allowed(calls, m, c, l) == Asks(calls, c)
    decreases |calls|
  {
    hide AllowStep, PassesUntracked, Forgiving, TableOK, Avail;
    if calls != [] {
      var d := calls[0];
      SoundTable(m, from, d.now, l);
      AvailRises(m, c, from, d.now, l);
      AvailStep(m, d.client, c, d.now, l);
      LetThroughIff(m, d.client, d.now, l);
      EnoughTokens(calls[1..], AllowStep(m, d.client, d.now, l).0, c, d.now, to, l);
    }
  }

  lemma AvailRises(m: map<Client, Bucket>, c: Client, t: int, now: int, l: Limits)
    requires Sound(l) && t <= now && TableOK(m, t, l)
    ensures Avail(m, c, t, l) <= Avail(m, c, now, l)
  {
    if c in m {
      More(t - m[c].last, now - m[c].last, l.rate);
    }
  }

  /** A client that is new has the burst: with the program's limits its first 200 queries. */
  lemma NewClientBurst(calls: seq<Call>, m: map<Client, Bucket>, c: Client, from: int, to: int)
    requires TableOK(m, from, DEFAULT) && InOrder(calls, from, to) && Tracked(calls, m, c, DEFAULT)
    requires c !in m && Asks(calls, c) <= 200
    ensures Allowed(calls, m, c, DEFAULT) == Asks(calls, c)
  {
    DefaultForgives();
    hide Forgiving;
    EnoughTokens(calls, m, c, from, to, DEFAULT);
  }

  /** The time at which place `i` of a run begins. */
  function TimeAt(calls: seq<Call>, i: nat, to: int): int { if i < |calls| then calls[i].now else to }

  /** From place `i` on, where the client has all tokens, it has the burst and what the time since then
      brings, less one for every query let through. */
  predicate CountsFrom(calls: seq<Call>, m: map<Client, Bucket>, c: Client, to: int, l: Limits, i: nat) {
    && i <= |calls| && Avail(After(calls[..i], m, l), c, TimeAt(calls, i, to), l) == l.burst
    && Avail(After(calls, m, l), c, to, l) ==
       l.burst + Gain(to - TimeAt(calls, i, to), l.rate) - Allowed(calls[i..], After(calls[..i], m, l), c, l) as real
  }

  /** What a client has after a run: what it had and gained less what it used, if it never had all
      tokens on the way; otherwise that counted from a place where it had. */
  lemma {:induction false} TokensLeft(calls: seq<Call>, m: map<Client, Bucket>, c: Client, from: int, to: int,
                                      l: Limits)
    returns (i: nat)
    requires Sound(l) && Forgiving(l) && TableOK(m, from, l) && InOrder(calls, from, to) && Tracked(calls, m, c, l)
    ensures CountsFrom(calls, m, c, to, l, i)
         || Avail(After(calls, m, l), c, to, l) == Avail(m, c, from, l) +
             Gain(to - from, l.rate) - Allowed(calls, m, c, l) as real
    decreases |calls|
  {
    hide AllowStep, PassesUntracked, Forgiving, TableOK, Avail, Gain;
    i := 0;
    if calls == [] {
      AvailLater(m, c, from, to, l);
      NoGain(l.rate);
    } else {
      var d := calls[0];
      var m1 := AllowStep(m, d.client, d.now, l).0;
      SoundTable(m, from, d.now, l);
      AvailLater(m, c, from, d.now, l);
      AvailStep(m, d.client, c, d.now, l);
      i := TokensLeft(calls[1..], m1, c, d.now, to, l);
      SplitGain(from, d.now, to, l.rate);
      if CountsFrom(calls[1..], m1, c, to, l, i) {
        assert calls[1..][..i] == calls[1..i + 1] && calls[..i + 1][1..] == calls[1..i + 1] && calls[..i + 1][0] == d;
        assert calls[1..][i..] == calls[i + 1..];
        i := i + 1;
      } else {
        i := 0;
        assert calls[..0] == [] && calls[0..] == calls;
      }
    }
  }

  lemma SplitGain(a: int, b: int, c: int, rate: real)
    ensures Gain(c - a, rate) == Gain(b - a, rate) + Gain(c - b, rate)
  {
    Split(b - a, c - b, rate);
  }

  lemma AvailLater(m: map<Client, Bucket>, c: Client, t: int, now: int, l: Limits)
    requires Sound(l) && t <= now && TableOK(m, t, l)
    ensures Avail(m, c, now, l) == l.burst || Avail(m, c, now, l) == Avail(m, c, t, l) + Gain(now - t, l.rate)
  {
    Product(Seconds(now - t), l.rate);
    hide Gain;
    if c in m {
      Split(t - m[c].last, now - t, l.rate);
    }
  }

  /** A tracked client is refused only if, since a time at which it had all tokens, more than the burst
      and the rate times the time since, less one, were let through. */
  lemma RefusedOnlyAfter(calls: seq<Call>, m: map<Client, Bucket>, c: Client, from: int, now: int, l: Limits)
    returns (i: nat, since: int)
    requires Sound(l) && Forgiving(l) && TableOK(m, from, l) && InOrder(calls, from, now) && Tracked(calls, m, c, l)
    requires Avail(m, c, from, l) == l.burst
    requires !AllowStep(After(calls, m, l), c, now, l).1
    ensures i <= |calls| && (since == TimeAt(calls, i, now) || (i == 0 && since == from))
    ensures Avail(After(calls[..i], m, l), c, since, l) == l.burst
    ensures Allowed(calls[i..], After(calls[..i], m, l), c, l) as real > l.burst + Gain(now - since, l.rate) - 1.0
  {
    hide AllowStep, PassesUntracked, Forgiving, TableOK, Avail, Gain, Tracked, InOrder, Allowed;
    RunKeepsTable(calls, m, from, now, l);
    LetThroughIff(After(calls, m, l), c, now, l);
    i := TokensLeft(calls, m, c, from, now, l);
    assert calls[..0] == [] && calls[0..] == calls;
    if CountsFrom(calls, m, c, now, l, i) {
      since := TimeAt(calls, i, now);
    } else {
      i, since := 0, from;
    }
  }

  // ----- A full table -----

  /** As long as the table is full and nobody in it goes idle, every query of a client outside is let
      through, however many there are. */
  lemma {:induction false} FullTableLetsThrough(calls: seq<Call>, m: map<Client, Bucket>, c: Client, l: Limits)
    requires c !in m && |m| >= l.max
    requires forall d <- calls :: d.client == c && forall k <- m :: d.now - m[k].last <= MINUTE
    ensures Allowed(calls, m, c, l) == |calls| && After(calls, m, l) == m
    decreases |calls|
  {
    if calls != [] {
      assert calls[0] in calls && Reclaim(m, calls[0].now) == m;
      FullTableLetsThrough(calls[1..], m, c, l);
    }
  }

  function Newcomer(k: nat): Client { seq(k, i => 'x') }

  /** One query each of `n` clients. */
  function Crowd(n: nat, at: int): seq<Call> { if n == 0 then [] else Crowd(n - 1, at) + [Call(Newcomer(n - 1), at)] }

  lemma {:induction false} AfterOneMore(calls: seq<Call>, d: Call, m: map<Client, Bucket>, l: Limits)
    ensures After(calls + [d], m, l) == AllowStep(After(calls, m, l), d.client, d.now, l).0
    decreases |calls|
  {
    hide AllowStep;
    if calls == [] {
      assert [d][1..] == [];
    } else {
      assert (calls + [d])[1..] == calls[1..] + [d];
      AfterOneMore(calls[1..], d, AllowStep(m, calls[0].client, calls[0].now, l).0, l);
    }
  }

  /** With the program's limits 1024 clients fill the table. */
  lemma {:induction false} CrowdFills(n: nat, at: int)
    requires n <= DEFAULT.max
    ensures var m := After(Crowd(n, at), map[], DEFAULT); |m| == n && forall c <- m :: |c| < n && m[c].last == at
  {
    if n > 0 {
      CrowdFills(n - 1, at);
      AfterOneMore(Crowd(n - 1, at), Call(Newcomer(n - 1), at), map[], DEFAULT);
      hide Refill;
    }
  }

  /** One client more may then ask for a minute as often as it likes. */
  lemma NewcomerPasses(at: int, now: int, k: nat)
    requires at <= now <= at + MINUTE
    ensures var m, c := After(Crowd(1024, at), map[], DEFAULT), Newcomer(1024);
      Allowed(seq(k, i => Call(c, now)), m, c, DEFAULT) == k
  {
    CrowdFills(1024, at);
    FullTableLetsThrough(seq(k, i => Call(Newcomer(1024), now)), After(Crowd(1024, at), map[], DEFAULT), Newcomer(1024),
      DEFAULT);
  }
}
