/**
 The pure part of the quota and schedule controller (limit_policy.go): which time window is
 active, what a quota says, and the rule that follows from base, quota and windows.
 Rates and quotas are exact reals; an instant is a weekday and a minute of the day.
 */
module LimitRules {
  import opened Common

  const MIN_RATE_KBIT := 64
  const MAX_RATE_KBIT := 10 * 1024 * 1024
  const DEF_THROTTLE_DOWN := 1000
  const DEF_THROTTLE_UP := 500
  const BYTES_PER_GB := 1073741824
  const DAY := 1440
  const WEEK := 7 * 1440

  /** Kbit per second; 0 means no limit in that direction. */
  datatype Rule = Rule(down: nat, up: nat, blocked: bool) {
    predicate SameLimit(o: Rule) { down == o.down && up == o.up }
  }

  datatype Window = Window(days: seq<int>, start: string, end: string, downMbps: real, upMbps: real, block: bool)

  datatype Quota = Quota(dailyGB: real, monthlyGB: real, action: string, throttleDown: real, throttleUp: real)

  datatype Verdict = Verdict(exceeded: bool, action: string, down: nat, up: nat)

  datatype Reason = Manual | Scheduled | OverQuota | Block

  datatype Effective = Effective(rule: Rule, reason: Reason, window: int)

  /** Sunday is day 0. */
  datatype Instant = Instant(weekday: int, minute: int) {
    predicate Valid() { 0 <= weekday < 7 && 0 <= minute < DAY }
  }

  // ----- Rates -----

  predicate ValidRate(k: nat) { k == 0 || MIN_RATE_KBIT <= k <= MAX_RATE_KBIT }

  predicate ValidRule(r: Rule) { ValidRate(r.down) && ValidRate(r.up) }

  /** Megabits to kilobits, rounded half up and clamped; nothing positive becomes 0. */
  function MbpsToKbit(m: real): (k: nat)
    ensures ValidRate(k) && (k == 0 <==> m <= 0.0)
  {
    if m <= 0.0 then 0 else
      var k := (m * 1000.0 + 0.5).Floor;
      if k < MIN_RATE_KBIT then MIN_RATE_KBIT else if k > MAX_RATE_KBIT then MAX_RATE_KBIT else k
  }

  function StricterKbit(a: nat, b: nat): nat {
    if a == 0 then b else if b == 0 then a else if a < b then a else b
  }

  /** `a` lets through no more than `b` does. */
  predicate NoLooser(a: nat, b: nat) { b == 0 || (0 < a <= b) }

  lemma StricterIsGreatestLowerBound(a: nat, b: nat, c: nat)
    ensures NoLooser(StricterKbit(a, b), a) && NoLooser(StricterKbit(a, b), b)
    ensures NoLooser(c, a) && NoLooser(c, b) ==> NoLooser(c, StricterKbit(a, b))
  {
  }

  // ----- Windows -----

  predicate Digit(c: char) { '0' <= c <= '9' }

  function DigitVal(c: char): nat
    requires Digit(c)
  {
    c as int - '0' as int
  }

  /** A 24-hour time HH:MM, as minutes after midnight. */
  function HhmmToMin(s: string): (r: Option<int>)
    ensures r.Some? ==> 0 <= r.value < DAY
  {
    if |s| == 5 && Digit(s[0]) && Digit(s[1]) && s[2] == ':' && Digit(s[3]) && Digit(s[4]) &&
       10 * DigitVal(s[0]) + DigitVal(s[1]) < 24 && DigitVal(s[3]) < 6
    then Some((10 * DigitVal(s[0]) + DigitVal(s[1])) * 60 + 10 * DigitVal(s[3]) + DigitVal(s[4]))
    else None
  }

  predicate WindowDayOK(days: seq<int>, wd: int) { days == [] || wd in days }

  /** The test of the scan over the windows, for a window from minute `s` to minute `e`. */
  predicate HitAt(days: seq<int>, s: int, e: int, now: Instant) {
    var yd := (now.weekday + 6) % 7;
    if s == e then WindowDayOK(days, now.weekday)
    else if s < e then WindowDayOK(days, now.weekday) && s <= now.minute < e
    else (WindowDayOK(days, now.weekday) && now.minute >= s) || (WindowDayOK(days, yd) && now.minute < e)
  }

  predicate Hit(w: Window, now: Instant) {
    var s, e := HhmmToMin(w.start), HhmmToMin(w.end);
    s.Some? && e.Some? && HitAt(w.days, s.value, e.value, now)
  }

  function ActiveFrom(ws: seq<Window>, now: Instant, i: nat): int
    requires i <= |ws|
    decreases |ws| - i
  {
    if i == |ws| then -1 else if Hit(ws[i], now) then i else ActiveFrom(ws, now, i + 1)
  }

  function ActiveWindow(ws: seq<Window>, now: Instant): int { ActiveFrom(ws, now, 0) }

  /** Now lies in the circular interval of the week that begins at minute `s` of day `d` and
      lasts `len` minutes. */
  predicate Within(now: Instant, d: int, s: int, len: int) {
    (now.weekday * DAY + now.minute - d * DAY - s) % WEEK < len
  }

  predicate InIntervalOf(days: seq<int>, s: int, len: int, now: Instant) {
    exists d :: 0 <= d < 7 && WindowDayOK(days, d) && Within(now, d, s, len)
  }

  function Span(s: int, e: int): int { if s == e then DAY else (e - s) % DAY }

  /** The intended meaning of a window.  A window of equal ends covers its calendar days. */
  predicate Covers(w: Window, now: Instant) {
    var s, e := HhmmToMin(w.start), HhmmToMin(w.end);
    s.Some? && e.Some? && InIntervalOf(w.days, if s.value == e.value then 0 else s.value, Span(s.value, e.value), now)
  }

  function DigitOf(n: nat): char
    requires n < 10
  {
    "0123456789"[n]
  }

  /** A time of day as two digits, a colon and two digits. */
  function ClockText(t: nat): string
    requires t < 1440
  {
    [DigitOf(t / 600), DigitOf(t / 60 % 10), ':', DigitOf(t % 60 / 10), DigitOf(t % 10)]
  }

  lemma DigitOfVal(c: char)
    requires Digit(c)
    ensures DigitVal(c) < 10 && DigitOf(DigitVal(c)) == c
  {
  }

  lemma ValOfDigit(n: nat)
    requires n < 10
    ensures Digit(DigitOf(n)) && DigitVal(DigitOf(n)) == n
  {
  }

  lemma ClockParts(a: nat, b: nat, c: nat, d: nat)
    requires 10 * a + b < 24 && b < 10 && c < 6 && d < 10
    ensures var t := (10 * a + b) * 60 + 10 * c + d;
      t < 1440 && t / 600 == a && t / 60 % 10 == b && t % 60 / 10 == c && t % 10 == d
  {
    var t := (10 * a + b) * 60 + 10 * c + d;
    assert t / 60 == 10 * a + b && t % 60 == 10 * c + d;
  }

  lemma PartsOf(t: nat)
    requires t < 1440
    ensures var a, b, c, d := t / 600, t / 60 % 10, t % 60 / 10, t % 10;
      a < 10 && 10 * a + b < 24 && c < 6 && (10 * a + b) * 60 + 10 * c + d == t
  {
    assert t / 60 / 10 == t / 600;
    assert t % 60 % 10 == t % 10;
  }

  /** A text is read as a time of day exactly if it is that time written out. */
  lemma ClockReads(s: string, t: nat)
    ensures HhmmToMin(s) == Some(t) <==> t < 1440 && s == ClockText(t)
  {
    hide Digit, DigitVal, DigitOf;
    if HhmmToMin(s) == Some(t) {
      DigitOfVal(s[0]);
      DigitOfVal(s[1]);
      DigitOfVal(s[3]);
      DigitOfVal(s[4]);
      ClockParts(DigitVal(s[0]), DigitVal(s[1]), DigitVal(s[3]), DigitVal(s[4]));
      assert s == [s[0], s[1], s[2], s[3], s[4]];
    }
    if t < 1440 && s == ClockText(t) {
      PartsOf(t);
      ValOfDigit(t / 600);
      ValOfDigit(t / 60 % 10);
      ValOfDigit(t % 60 / 10);
      ValOfDigit(t % 10);
    }
  }

  /** A window from `s` to `e` that begins on a day is on: it ends on the next day if it does not end later
      in the day than it starts, and takes the day itself if start and end are the same. */
  predicate OnFrom(d: int, s: nat, e: nat, now: Instant) {
    (1440 * now.weekday + now.minute - 1440 * d - (if s == e then 0 else s)) % 10080 <
      (if s < e then e - s else e - s + 1440)
  }

  /** A window covers an instant exactly if it is on from one of its days, or from any if it names none. */
  lemma CoversMeans(w: Window, s: nat, e: nat, now: Instant)
    requires s < 1440 && e < 1440 && w.start == ClockText(s) && w.end == ClockText(e)
    ensures Covers(w, now) <==> exists d :: 0 <= d < 7 && (w.days == [] || d in w.days) && OnFrom(d, s, e, now)
  {
    ClockReads(w.start, s);
    ClockReads(w.end, e);
    hide HhmmToMin, ClockText;
    var from, len := if s == e then 0 else s, Span(s, e);
    forall d: int ensures Within(now, d, from, len) <==> OnFrom(d, s, e, now) {
      SpanIs(s, e);
    }
    hide Within, OnFrom, Span;
    assert Covers(w, now) <==> InIntervalOf(w.days, from, len, now);
    if InIntervalOf(w.days, from, len, now) {
      var d :| 0 <= d < 7 && WindowDayOK(w.days, d) && Within(now, d, from, len);
      assert OnFrom(d, s, e, now);
    }
    if d :| 0 <= d < 7 && (w.days == [] || d in w.days) && OnFrom(d, s, e, now) {
      assert WindowDayOK(w.days, d) && Within(now, d, from, len);
    }
  }

  lemma SpanIs(s: nat, e: nat)
    requires s < 1440 && e < 1440
    ensures Span(s, e) == if s < e then e - s else e - s + 1440
  {
  }

  /** An interval of at most a day can only have begun today or yesterday. */
  lemma WithinIsTodayOrYesterday(now: Instant, d: int, s: int, len: int)
    requires now.Valid() && 0 <= d < 7 && 0 <= s < DAY && 0 < len <= DAY
    ensures Within(now, d, s, len) <==>
            (d == now.weekday && s <= now.minute < s + len) ||
            (d == (now.weekday + 6) % 7 && now.minute + DAY < s + len)
  {
    var x := now.weekday * DAY + now.minute - d * DAY - s;
    assert x % WEEK == (if x < 0 then x + WEEK else x);
  }

  lemma InIntervalIff(days: seq<int>, s: int, len: int, now: Instant)
    requires now.Valid() && 0 <= s < DAY && 0 < len <= DAY
    ensures InIntervalOf(days, s, len, now) <==>
            (WindowDayOK(days, now.weekday) && s <= now.minute < s + len) ||
            (WindowDayOK(days, (now.weekday + 6) % 7) && now.minute + DAY < s + len)
  {
    var wd, yd := now.weekday, (now.weekday + 6) % 7;
    WithinIsTodayOrYesterday(now, wd, s, len);
    WithinIsTodayOrYesterday(now, yd, s, len);
    if InIntervalOf(days, s, len, now) {
      var d :| 0 <= d < 7 && WindowDayOK(days, d) && Within(now, d, s, len);
      WithinIsTodayOrYesterday(now, d, s, len);
    }
  }

  lemma HitAtIsInterval(days: seq<int>, s: int, e: int, now: Instant)
    requires now.Valid() && 0 <= s < DAY && 0 <= e < DAY
    ensures HitAt(days, s, e, now) <==> InIntervalOf(days, if s == e then 0 else s, Span(s, e), now)
  {
    assert Span(s, e) == if s < e then e - s else e - s + DAY;
    InIntervalIff(days, if s == e then 0 else s, Span(s, e), now);
  }

  lemma HitIsCovers(w: Window, now: Instant)
    requires now.Valid()
    ensures Hit(w, now) <==> Covers(w, now)
  {
    var s, e := HhmmToMin(w.start), HhmmToMin(w.end);
    if s.Some? && e.Some? {
      HitAtIsInterval(w.days, s.value, e.value, now);
    }
  }

  lemma {:induction false} ActiveFromIsFirst(ws: seq<Window>, now: Instant, i: nat)
    requires i <= |ws|
    ensures var r := ActiveFrom(ws, now, i);
      && -1 <= r < |ws|
      && (r == -1 ==> forall j :: i <= j < |ws| ==> !Hit(ws[j], now))
      && (r >= 0 ==> i <= r && Hit(ws[r], now) && forall j :: i <= j < r ==> !Hit(ws[j], now))
    decreases |ws| - i
  {
    if i < |ws| && !Hit(ws[i], now) {
      ActiveFromIsFirst(ws, now, i + 1);
    }
  }

  /** The window in force is the first one whose circular interval holds the present minute;
      an overnight window belongs to the day on which it starts, also over the week's end. */
  lemma ActiveWindowIsFirstCovering(ws: seq<Window>, now: Instant, i: nat)
    requires now.Valid()
    ensures ActiveWindow(ws, now) == i <==>
            i < |ws| && Covers(ws[i], now) && forall j :: 0 <= j < i ==> !Covers(ws[j], now)
    ensures ActiveWindow(ws, now) == -1 <==> forall j :: 0 <= j < |ws| ==> !Covers(ws[j], now)
  {
    ActiveFromIsFirst(ws, now, 0);
    forall j | 0 <= j < |ws|
      ensures Hit(ws[j], now) <==> Covers(ws[j], now)
    {
      HitIsCovers(ws[j], now);
    }
  }

  /** The window, read as a full day that begins at its start time. */
  ghost predicate AgreesFromStart(w: Window, s: int) {
    forall now: Instant :: now.Valid() ==> (Hit(w, now) <==> InIntervalOf(w.days, s, DAY, now))
  }

  lemma SameAsDayBefore(w: Window, s: int, d: int)
    requires HhmmToMin(w.start) == HhmmToMin(w.end) == Some(s) && 0 < s && 0 < d < 7 && AgreesFromStart(w, s)
    ensures WindowDayOK(w.days, d) == WindowDayOK(w.days, d - 1)
  {
    var now := Instant(d, 0);
    assert now.Valid() && (d + 6) % 7 == d - 1;
    InIntervalIff(w.days, s, DAY, now);
    assert HitAt(w.days, s, s, now) <==> WindowDayOK(w.days, d);
  }

  /** Reading a window of equal ends as a full day that begins at its start time agrees with
      the program at every instant just when the start is midnight or the days make no
      difference. */
  lemma EqualEndsFromStart(w: Window, s: int)
    requires HhmmToMin(w.start) == HhmmToMin(w.end) == Some(s)
    ensures AgreesFromStart(w, s) <==>
            s == 0 || forall d :: 0 <= d < 7 ==> WindowDayOK(w.days, d) == WindowDayOK(w.days, 0)
  {
    if s > 0 && AgreesFromStart(w, s) {
      SameAsDayBefore(w, s, 1);
      SameAsDayBefore(w, s, 2);
      SameAsDayBefore(w, s, 3);
      SameAsDayBefore(w, s, 4);
      SameAsDayBefore(w, s, 5);
      SameAsDayBefore(w, s, 6);
    }
    if s == 0 || forall d :: 0 <= d < 7 ==> WindowDayOK(w.days, d) == WindowDayOK(w.days, 0) {
      forall now: Instant | now.Valid()
        ensures Hit(w, now) <==> InIntervalOf(w.days, s, DAY, now)
      {
        InIntervalIff(w.days, s, DAY, now);
        var yd := (now.weekday + 6) % 7;
        assert s > 0 ==> WindowDayOK(w.days, yd) == WindowDayOK(w.days, now.weekday);
      }
    }
  }

  const MONDAY_TEN: Window := Window([1], "22:00", "22:00", 0.0, 0.0, true)

  /** A window from ten to ten on Mondays covers Monday at one in the night, and not Tuesday at ten in
      the morning. */
  lemma MondayFromMidnight()
    ensures Hit(MONDAY_TEN, Instant(1, 60)) && !InIntervalOf(MONDAY_TEN.days, 22 * 60, DAY, Instant(1, 60))
    ensures !Hit(MONDAY_TEN, Instant(2, 600)) && InIntervalOf(MONDAY_TEN.days, 22 * 60, DAY, Instant(2, 600))
  {
    assert HhmmToMin("22:00") == Some(22 * 60);
    InIntervalIff([1], 22 * 60, DAY, Instant(1, 60));
    InIntervalIff([1], 22 * 60, DAY, Instant(2, 600));
  }

  // ----- Quota and effective rule -----

  function GBytes(gb: real): int { (gb * BYTES_PER_GB as real).Floor }

  datatype QuotaState = Ok | Warn | ExceededDaily | ExceededMonthly

  function EvalQuota(q: Option<Quota>, usedDay: nat, usedMonth: nat): QuotaState {
    if q.None? then Ok else
      var dayLim, monLim := GBytes(q.value.dailyGB), GBytes(q.value.monthlyGB);
      if dayLim > 0 && usedDay >= dayLim then ExceededDaily
      else if monLim > 0 && usedMonth >= monLim then ExceededMonthly
      else if (dayLim > 0 && usedDay * 100 >= dayLim * 80) || (monLim > 0 && usedMonth * 100 >= monLim * 80) then Warn
      else Ok
  }

  function QuotaVerdict(q: Option<Quota>, exceeded: bool): Verdict {
    if q.None? || !exceeded then Verdict(false, "", 0, 0) else
      var d, u := MbpsToKbit(q.value.throttleDown), MbpsToKbit(q.value.throttleUp);
      Verdict(true, q.value.action, if d == 0 then DEF_THROTTLE_DOWN else d, if u == 0 then DEF_THROTTLE_UP else u)
  }

  function VerdictOf(q: Option<Quota>, usedDay: nat, usedMonth: nat): Verdict {
    var state := EvalQuota(q, usedDay, usedMonth);
    QuotaVerdict(q, state == ExceededDaily || state == ExceededMonthly)
  }

  function EffectiveRule(base: Rule, q: Verdict, ws: seq<Window>, now: Instant): Effective {
    var idx := ActiveWindow(ws, now);
    ActiveFromIsFirst(ws, now, 0);
    var inWindow := idx >= 0;
    var down0 := if inWindow then MbpsToKbit(ws[idx].downMbps) else base.down;
    var up0 := if inWindow then MbpsToKbit(ws[idx].upMbps) else base.up;
    var schedBlock := inWindow && ws[idx].block;
    var quotaBlock := q.exceeded && q.action == "block";
    var throttle := q.exceeded && q.action != "block";
    var down := if throttle then StricterKbit(down0, q.down) else down0;
    var up := if throttle then StricterKbit(up0, q.up) else up0;
    var reason := if base.blocked then Block else if quotaBlock then OverQuota else if schedBlock then Scheduled
                  else if q.exceeded then OverQuota else if inWindow then Scheduled else Manual;
    if base.blocked || quotaBlock || schedBlock then Effective(Rule(base.down, base.up, true), reason, idx)
    else Effective(Rule(down, up, false), reason, idx)
  }

  /** Nothing overrides the base: quota not exceeded and no window holds now. */
  predicate NoOverride(q: Verdict, ws: seq<Window>, now: Instant) {
    !q.exceeded && forall j :: 0 <= j < |ws| ==> !Covers(ws[j], now)
  }

  lemma EffectiveWithoutOverride(base: Rule, q: Verdict, ws: seq<Window>, now: Instant)
    requires now.Valid() && NoOverride(q, ws, now)
    ensures EffectiveRule(base, q, ws, now).rule == base
  {
    ActiveWindowIsFirstCovering(ws, now, 0);
  }

  predicate FirstCovering(ws: seq<Window>, now: Instant, i: int) {
    0 <= i < |ws| && Covers(ws[i], now) && forall j :: 0 <= j < i ==> !Covers(ws[j], now)
  }

  /** A device is cut off just when the base, an exceeded block quota or the first window that
      covers now says so; a throttle can only tighten what window or base allow. */
  lemma EffectiveMeaning(base: Rule, q: Verdict, ws: seq<Window>, now: Instant)
    requires now.Valid() && ValidRule(base) && ValidRate(q.down) && ValidRate(q.up)
    ensures var e := EffectiveRule(base, q, ws, now).rule;
      && ValidRule(e)
      && (e.blocked <==> (|| base.blocked || (q.exceeded && q.action == "block")
                          || exists i :: FirstCovering(ws, now, i) && ws[i].block))
      && (e.blocked ==> e.SameLimit(base))
      && (!e.blocked && q.exceeded ==> NoLooser(e.down, q.down) && NoLooser(e.up, q.up))
      && (!e.blocked ==> forall i :: FirstCovering(ws, now, i) ==>
            NoLooser(e.down, MbpsToKbit(ws[i].downMbps)) && NoLooser(e.up, MbpsToKbit(ws[i].upMbps)))
      && (!e.blocked && (forall i :: !FirstCovering(ws, now, i)) ==>
          NoLooser(e.down, base.down) && NoLooser(e.up, base.up))
  {
    var idx := ActiveWindow(ws, now);
    ActiveFromIsFirst(ws, now, 0);
    forall i | 0 <= i < |ws|
      ensures idx == i <==> FirstCovering(ws, now, i)
    {
      ActiveWindowIsFirstCovering(ws, now, i);
    }
    assert idx >= 0 ==> FirstCovering(ws, now, idx);
  }

  // ----- The effective rule, exactly -----

  /** A rate in megabits is the nearest whole number of kilobits, not below 64 and not above 10 * 1024 * 1024. */
  lemma NearestKbit(m: real)
    requires m > 0.0
    ensures var k := MbpsToKbit(m);
      && (64.0 <= m * 1000.0 <= 10485760.0 ==> -0.5 <= k as real - m * 1000.0 <= 0.5)
      && (m * 1000.0 < 64.0 ==> k == 64) && (m * 1000.0 > 10485760.0 ==> k == 10485760)
  {
  }

  /** A limit in gigabytes is reached: it comes to a whole number of bytes other than none, and so many
      are used. */
  predicate Reached(gb: real, used: nat) {
    var bytes := gb * 1073741824.0;
    bytes >= 1.0 && used as real > bytes - 1.0
  }

  /** The quota is exceeded: today's use has reached the daily limit, or the month's the monthly one. */
  predicate Exceeded(q: Option<Quota>, usedDay: nat, usedMonth: nat) {
    q.Some? && (Reached(q.value.dailyGB, usedDay) || Reached(q.value.monthlyGB, usedMonth))
  }

  lemma ReachedIff(gb: real, used: nat)
    ensures Reached(gb, used) <==> GBytes(gb) > 0 && used >= GBytes(gb)
  {
    var bytes := gb * 1073741824.0;
    assert bytes.Floor as real <= bytes < bytes.Floor as real + 1.0;
  }

  /** What a quota throttles to in one direction, if it names no rate of its own. */
  function ThrottleTo(mbps: real, otherwise: nat): nat { if mbps <= 0.0 then otherwise else MbpsToKbit(mbps) }

  lemma VerdictMeans(q: Option<Quota>, usedDay: nat, usedMonth: nat)
    ensures var v := VerdictOf(q, usedDay, usedMonth);
      && (v.exceeded <==> Exceeded(q, usedDay, usedMonth))
      && (v.exceeded ==> v.action == q.value.action && v.down == ThrottleTo(q.value.throttleDown, 1000)
                         && v.up == ThrottleTo(q.value.throttleUp, 500))
  {
    if q.Some? {
      ReachedIff(q.value.dailyGB, usedDay);
      ReachedIff(q.value.monthlyGB, usedMonth);
      hide GBytes, Reached, MbpsToKbit;
    }
  }

  /** `i` is the first window that covers now, or -1 if none does. */
  predicate FirstOrNone(ws: seq<Window>, now: Instant, i: int) {
    if i == -1 then forall j :: 0 <= j < |ws| ==> !Covers(ws[j], now) else FirstCovering(ws, now, i)
  }

  /** The rule that base, quota and the first covering window come to: blocked if one of them says so,
      with the limits of the base; otherwise the limits of the window, or else of the base, and if the
      quota is exceeded the stricter ones of these and the throttle. */
  lemma EffectiveExactly(base: Rule, q: Option<Quota>, usedDay: nat, usedMonth: nat, ws: seq<Window>, now: Instant,
                         i: int)
    requires now.Valid() && FirstOrNone(ws, now, i)
    ensures var e := EffectiveRule(base, VerdictOf(q, usedDay, usedMonth), ws, now);
      var over := Exceeded(q, usedDay, usedMonth);
      var down := if i >= 0 then MbpsToKbit(ws[i].downMbps) else base.down;
      var up := if i >= 0 then MbpsToKbit(ws[i].upMbps) else base.up;
      && (base.blocked || (over && q.value.action == "block") || (i >= 0 && ws[i].block) ==>
          e.rule == Rule(base.down, base.up, true))
      && (!base.blocked && !(over && q.value.action == "block") && !(i >= 0 && ws[i].block) ==>
          e.rule == Rule(if over then StricterKbit(down, ThrottleTo(q.value.throttleDown, 1000)) else down,
                         if over then StricterKbit(up, ThrottleTo(q.value.throttleUp, 500)) else up, false))
  {
    VerdictMeans(q, usedDay, usedMonth);
    hide VerdictOf, Exceeded, MbpsToKbit, Covers;
    if i >= 0 {
      ActiveWindowIsFirstCovering(ws, now, i);
    } else {
      ActiveWindowIsFirstCovering(ws, now, 0);
    }
    hide StricterKbit, ThrottleTo;
  }

  /** The reason given: a block of the user's own, a quota that blocks, a window that blocks, a quota that
      throttles, a window, in this order. */
  lemma ReasonMeans(base: Rule, q: Option<Quota>, usedDay: nat, usedMonth: nat, ws: seq<Window>, now: Instant, i: int)
    requires now.Valid() && FirstOrNone(ws, now, i)
    ensures var e := EffectiveRule(base, VerdictOf(q, usedDay, usedMonth), ws, now);
      var over := Exceeded(q, usedDay, usedMonth);
      && e.window == i
      && (e.reason == Block <==> base.blocked)
      && (e.reason == OverQuota <==> !base.blocked && over && (q.value.action == "block" || !(i >= 0 && ws[i].block)))
      && (e.reason == Manual <==> !base.blocked && !over && i == -1)
  {
    VerdictMeans(q, usedDay, usedMonth);
    hide VerdictOf, Exceeded, MbpsToKbit, Covers, StricterKbit, ThrottleTo;
    ActiveWindowIsFirstCovering(ws, now, if i >= 0 then i else 0);
  }
}
