/**
 Billing periods and the per-device usage ledger (limit_policy.go).  A local midnight is a
 calendar date; keys of days and billing months are the dates they start on.
 */
module UsageLedger {

  datatype Date = Date(y: int, m: int, d: int) {
    predicate Valid() { 1 <= m <= 12 && 1 <= d <= DaysIn(y, m) }

    /** Calendar order. */
    predicate Le(o: Date) { y < o.y || (y == o.y && (m < o.m || (m == o.m && d <= o.d))) }

    predicate Lt(o: Date) { Le(o) && this != o }
  }

  predicate Leap(y: int) { y % 4 == 0 && (y % 100 != 0 || y % 400 == 0) }

  function DaysIn(y: int, m: int): (n: int)
    ensures 28 <= n <= 31
  {
    if m == 2 then (if Leap(y) then 29 else 28) else if m == 4 || m == 6 || m == 9 || m == 11 then 30 else 31
  }

  function BillingDay(b: int): int { if b < 1 || b > 31 then 1 else b }

  /** The day on which the period of a month starts, at the month's end if it is too short. */
  function StartIn(y: int, m: int, billingDay: int): Date {
    var b := BillingDay(billingDay);
    Date(y, m, if b > DaysIn(y, m) then DaysIn(y, m) else b)
  }

  function BillingPeriodStart(now: Date, billingDay: int): Date {
    var start := StartIn(now.y, now.m, billingDay);
    if now.Lt(start) then
      if now.m - 1 < 1 then StartIn(now.y - 1, 12, billingDay) else StartIn(now.y, now.m - 1, billingDay)
    else start
  }

  /** A billing period starts on the last day of a month that is not past the billing day; the first
      of the month if that day is none of 1 to 31. */
  ghost predicate IsPeriodStart(s: Date, billingDay: int) {
    var due := if 1 <= billingDay <= 31 then billingDay else 1;
    s.Valid() && s.d <= due && forall t: Date :: t.Valid() && t.y == s.y && t.m == s.m && s.d < t.d ==> t.d > due
  }

  lemma StartIsThatDay(s: Date, billingDay: int)
    ensures IsPeriodStart(s, billingDay) <==> 1 <= s.m <= 12 && s == StartIn(s.y, s.m, billingDay)
  {
    var r := StartIn(s.y, s.m, billingDay);
    assert 1 <= s.m <= 12 ==> r.Valid();
    assert IsPeriodStart(s, billingDay) ==> s.d >= r.d;
  }

  /** The period start is the latest one not after now, and a period start begins itself. */
  lemma LatestPeriodStart(now: Date, billingDay: int)
    requires now.Valid()
    ensures var p := BillingPeriodStart(now, billingDay);
      && IsPeriodStart(p, billingDay) && p.Le(now)
      && (forall s: Date :: IsPeriodStart(s, billingDay) && s.Le(now) ==> s.Le(p))
      && BillingPeriodStart(p, billingDay) == p
  {
    var p := BillingPeriodStart(now, billingDay);
    StartIsThatDay(p, billingDay);
    hide IsPeriodStart;
    forall s: Date | IsPeriodStart(s, billingDay) && s.Le(now) ensures s.Le(p) {
      StartIsThatDay(s, billingDay);
    }
  }

  /** Leap days up to the end of a year. */
  function LeapDays(y: int): int { y / 4 - y / 100 + y / 400 }

  /** Days of the Gregorian calendar before a month, counted in years that begin in March. */
  function DaysBefore(y: int, m: int): int {
    var y2, m2 := if m <= 2 then y - 1 else y, if m <= 2 then m + 9 else m - 3;
    365 * y2 + LeapDays(y2) + (153 * m2 + 2) / 5
  }

  /** The length of a month is the distance to the next one. */
  lemma MonthLength(y: int, m: int)
    requires 1 <= m <= 12
    ensures DaysBefore(if m == 12 then y + 1 else y, if m == 12 then 1 else m + 1) - DaysBefore(y, m) == DaysIn(y, m)
  {
    hide LeapDays, Leap;
    LeapDay(y);
  }

  lemma LeapDay(y: int)
    ensures LeapDays(y) - LeapDays(y - 1) == if Leap(y) then 1 else 0
  {
    NextQuotient(y - 1, 4);
    NextQuotient(y - 1, 100);
    NextQuotient(y - 1, 400);
    Multiples(y);
  }

  lemma Multiples(y: int)
    ensures (y % 400 == 0 ==> y % 100 == 0) && (y % 100 == 0 ==> y % 4 == 0)
  {
  }

  lemma NextQuotient(y: int, n: int)
    requires n > 0
    ensures (y + 1) / n == y / n + if (y + 1) % n == 0 then 1 else 0
  {
    var q, r := y / n, y % n;
    assert y == q * n + r;
    if r == n - 1 {
      assert y + 1 == (q + 1) * n;
      Quotient(y + 1, n, q + 1, 0);
    } else {
      Quotient(y + 1, n, q, r + 1);
    }
  }

  lemma Quotient(x: int, n: int, q: int, r: int)
    requires n > 0 && x == q * n + r && 0 <= r < n
    ensures x / n == q && x % n == r
  {
    var d := q - x / n;
    assert d * n == x % n - r;
    Multiple(d, n);
  }

  lemma Multiple(d: int, n: int)
    requires n > 0
    ensures (d >= 1 ==> d * n >= n) && (d <= -1 ==> d * n <= -n)
  {
  }

  /** Two days fall into one billing period just when no period starts between them. */
  lemma SamePeriod(a: Date, b: Date, billingDay: int)
    requires a.Valid() && b.Valid() && a.Le(b)
    ensures BillingPeriodStart(a, billingDay) == BillingPeriodStart(b, billingDay) <==>
            forall s: Date :: IsPeriodStart(s, billingDay) && s.Le(b) ==> s.Le(a)
  {
    LatestPeriodStart(a, billingDay);
    LatestPeriodStart(b, billingDay);
    hide IsPeriodStart, BillingPeriodStart;
    var p := BillingPeriodStart(b, billingDay);
    if BillingPeriodStart(a, billingDay) == p {
      forall s: Date | IsPeriodStart(s, billingDay) && s.Le(b)
        ensures s.Le(a)
      {
        assert s.Le(p);
      }
    } else {
      assert IsPeriodStart(p, billingDay) && p.Le(b);
      assert BillingPeriodStart(a, billingDay).Le(b);
      assert !p.Le(a);
    }
  }

  // ----- The ledger -----

  datatype Key = NoKey | Of(date: Date)

  datatype Acc = Acc(havePrev: bool, prevRx: int, prevTx: int, dayKey: Key, dayBytes: nat,
                     monthKey: Key, monthBytes: nat, monthRx: nat, monthTx: nat)

  const EMPTY := Acc(false, 0, 0, NoKey, 0, NoKey, 0, 0, 0)

  function Rolled(u: Acc, day: Key, month: Key): Acc {
    var u1 := if u.dayKey != day then u.(dayKey := day, dayBytes := 0) else u;
    if u1.monthKey != month then u1.(monthKey := month, monthBytes := 0, monthRx := 0, monthTx := 0) else u1
  }

  /** A counter that went back was reset: all it shows is new. */
  function Diff(cur: nat, prev: int): nat { if cur >= prev && prev >= 0 then cur - prev else cur }

  function Added(u: Acc, rx: int, tx: int, day: Key, month: Key): Acc {
    var r := Rolled(u, day, month);
    if rx < 0 || tx < 0 then r
    else if !r.havePrev then r.(havePrev := true, prevRx := rx, prevTx := tx)
    else
      var drx, dtx := Diff(rx, r.prevRx), Diff(tx, r.prevTx);
      r.(prevRx := rx, prevTx := tx, dayBytes := r.dayBytes + drx + dtx, monthBytes := r.monthBytes + drx + dtx,
         monthRx := r.monthRx + drx, monthTx := r.monthTx + dtx)
  }

  class UsageAcc {
    var havePrev: bool
    var prevRx: int
    var prevTx: int
    var dayKey: Key
    var dayBytes: nat
    var monthKey: Key
    var monthBytes: nat
    var monthRx: nat
    var monthTx: nat

    function Value(): Acc
      reads this
    {
      Acc(havePrev, prevRx, prevTx, dayKey, dayBytes, monthKey, monthBytes, monthRx, monthTx)
    }

    constructor ()
      ensures Value() == EMPTY
    {
      havePrev, prevRx, prevTx := false, 0, 0;
      dayKey, dayBytes, monthKey, monthBytes, monthRx, monthTx := NoKey, 0, NoKey, 0, 0, 0;
    }

    method Rollover(day: Key, month: Key)
      modifies this
      ensures Value() == Rolled(old(Value()), day, month)
    {
      if dayKey != day {
        dayKey, dayBytes := day, 0;
      }
      if monthKey != month {
        monthKey, monthBytes, monthRx, monthTx := month, 0, 0, 0;
      }
    }

    method Add(rx: int, tx: int, day: Key, month: Key)
      requires havePrev ==> prevRx >= 0 && prevTx >= 0
      modifies this
      ensures Value() == Added(old(Value()), rx, tx, day, month)
      ensures havePrev ==> prevRx >= 0 && prevTx >= 0
    {
      Rollover(day, month);
      if rx < 0 || tx < 0 {
        return;
      }
      if !havePrev {
        havePrev, prevRx, prevTx := true, rx, tx;
        return;
      }
      var drx := if rx >= prevRx then rx - prevRx else rx;
      var dtx := if tx >= prevTx then tx - prevTx else tx;
      prevRx, prevTx := rx, tx;
      dayBytes := dayBytes + drx + dtx;
      monthBytes := monthBytes + drx + dtx;
      monthRx := monthRx + drx;
      monthTx := monthTx + dtx;
    }

    /** After a clock jump the next reading is only a new baseline. */
    method Rebase()
      modifies this`havePrev
      ensures Value() == old(Value()).(havePrev := false)
    {
      havePrev := false;
    }
  }

  // ----- Runs against the true traffic -----

  /** A counter: all bytes ever sent, and how many of them were before its last reset. */
  datatype Meter = Meter(total: nat, zero: nat) {
    predicate Valid() { zero <= total }

    function Shows(): nat
      requires Valid()
    {
      total - zero
    }

    /** What the meter can be later: not reset since, or reset after `this` was read. */
    predicate Before(o: Meter) { Valid() && o.Valid() && total <= o.total && (o.zero == zero || o.zero >= total) }
  }

  datatype Step = Read(day: Date, rx: Meter, tx: Meter) | Unreadable(day: Date) | Roll(day: Date) | Jump

  /** The last reading of a run. */
  function LastRead(es: seq<Step>): Step {
    if es == [] then Jump else if es[|es| - 1].Read? then es[|es| - 1] else LastRead(es[..|es| - 1])
  }

  ghost predicate Metered(es: seq<Step>) {
    es != [] ==>
      var e, rest := es[|es| - 1], es[..|es| - 1];
      && Metered(rest)
      && (e.Read? ==> e.rx.Valid() && e.tx.Valid())
      && (e.Read? && LastRead(rest).Read? ==> LastRead(rest).rx.Before(e.rx) && LastRead(rest).tx.Before(e.tx))
  }

  function StepAcc(u: Acc, e: Step, billingDay: int): Acc {
    match e
    case Read(day, rx, tx) =>
      Added(u, if rx.Valid() then rx.Shows() else -1, if tx.Valid() then tx.Shows() else -1,
            Of(day), Of(BillingPeriodStart(day, billingDay)))
    case Unreadable(day) => Added(u, -1, -1, Of(day), Of(BillingPeriodStart(day, billingDay)))
    case Roll(day) => Rolled(u, Of(day), Of(BillingPeriodStart(day, billingDay)))
    case Jump => u.(havePrev := false)
  }

  function RunAcc(es: seq<Step>, billingDay: int): Acc {
    if es == [] then EMPTY else StepAcc(RunAcc(es[..|es| - 1], billingDay), es[|es| - 1], billingDay)
  }

  /** The key of a step: the day it falls on, or the billing period of that day. */
  function KeyOf(e: Step, billingDay: int, month: bool): Key {
    if e.Jump? then NoKey else if month then Of(BillingPeriodStart(e.day, billingDay)) else Of(e.day)
  }

  function CurrentKey(es: seq<Step>, billingDay: int, month: bool): Key {
    if es == [] then NoKey
    else if es[|es| - 1].Jump? then CurrentKey(es[..|es| - 1], billingDay, month)
    else KeyOf(es[|es| - 1], billingDay, month)
  }

  datatype Traffic = Traffic(rx: int, tx: int)

  /** True traffic of the present day or billing month: all bytes between readings, each
      charged to the period of the later reading. */
  function Truth(es: seq<Step>, billingDay: int, month: bool): Traffic {
    if es == [] then Traffic(0, 0) else
      var e, rest := es[|es| - 1], es[..|es| - 1];
      var before := if e.Jump? || KeyOf(e, billingDay, month) == CurrentKey(rest, billingDay, month)
                    then Truth(rest, billingDay, month) else Traffic(0, 0);
      var last := LastRead(rest);
      if e.Read? && last.Read? then Traffic(before.rx + e.rx.total - last.rx.total,
        before.tx + e.tx.total - last.tx.total)
      else before
  }

  /** The keys are those of the last step; the baseline is the last reading. */
  ghost predicate KeysSound(es: seq<Step>, billingDay: int) {
    var u := RunAcc(es, billingDay);
    && u.dayKey == CurrentKey(es, billingDay, false) && u.monthKey == CurrentKey(es, billingDay, true)
    && (u.dayKey == NoKey <==> u.monthKey == NoKey)
    && (u.dayKey != NoKey ==> u.monthKey == Of(BillingPeriodStart(u.dayKey.date, billingDay)))
    && (u.havePrev ==> LastRead(es).Read? && LastRead(es).rx.Valid() && LastRead(es).tx.Valid()
                       && u.prevRx == LastRead(es).rx.Shows() && u.prevTx == LastRead(es).tx.Shows())
  }

  /** The month is split exactly, the day is part of it, and neither exceeds what is given. */
  predicate Within(u: Acc, day: int, rx: int, tx: int) {
    u.dayBytes <= u.monthBytes == u.monthRx + u.monthTx && u.dayBytes <= day && u.monthRx <= rx && u.monthTx <= tx
  }

  ghost predicate BytesSound(es: seq<Step>, billingDay: int) {
    var u, day, mon := RunAcc(es, billingDay), Truth(es, billingDay, false), Truth(es, billingDay, true);
    Within(u, day.rx + day.tx, mon.rx, mon.tx)
  }

  lemma {:induction false} LedgerKeys(es: seq<Step>, billingDay: int)
    requires Metered(es)
    ensures KeysSound(es, billingDay)
  {
    if es != [] {
      LedgerKeys(es[..|es| - 1], billingDay);
    }
  }

  lemma DiffWithinTruth(a: Meter, b: Meter)
    requires a.Before(b)
    ensures Diff(b.Shows(), a.Shows()) <= b.total - a.total
    ensures a.zero == b.zero ==> Diff(b.Shows(), a.Shows()) == b.total - a.total
  {
  }

  lemma RolledWithin(u: Acc, day: Key, month: Key, d: int, rx: int, tx: int)
    requires Within(u, d, rx, tx) && (u.dayKey == day ==> u.monthKey == month)
    ensures var same := u.monthKey == month;
      Within(Rolled(u, day, month), if u.dayKey == day then d else 0, if same then rx else 0, if same then tx else 0)
  {
  }

  lemma AddedWithin(u: Acc, rx: int, tx: int, day: Key, month: Key, d: int, mrx: int, mtx: int, grx: nat, gtx: nat)
    requires Within(u, d, mrx, mtx) && (u.dayKey == day ==> u.monthKey == month)
    requires u.havePrev && rx >= 0 && tx >= 0 ==> Diff(rx, u.prevRx) <= grx && Diff(tx, u.prevTx) <= gtx
    ensures var same := u.monthKey == month;
      Within(Added(u, rx, tx, day, month), (if u.dayKey == day then d else 0) + grx + gtx,
             (if same then mrx else 0) + grx, (if same then mtx else 0) + gtx)
  {
    RolledWithin(u, day, month, d, mrx, mtx);
  }

  /** Every reachable ledger splits the month exactly, keeps the day within the month, and
      never charges more than was really sent, whatever counters are reset to zero. */
  lemma {:induction false} LedgerNeverOvercharges(es: seq<Step>, billingDay: int)
    requires Metered(es)
    ensures BytesSound(es, billingDay)
  {
    hide BillingPeriodStart, Added, Within, Diff;
    if es != [] {
      var e, rest := es[|es| - 1], es[..|es| - 1];
      LedgerNeverOvercharges(rest, billingDay);
      LedgerKeys(rest, billingDay);
      var last := LastRead(rest);
      var u, d, m := RunAcc(rest, billingDay), Truth(rest, billingDay, false), Truth(rest, billingDay, true);
      var day, month := KeyOf(e, billingDay, false), KeyOf(e, billingDay, true);
      if e.Read? {
        var grx := if last.Read? then e.rx.total - last.rx.total else 0;
        var gtx := if last.Read? then e.tx.total - last.tx.total else 0;
        if last.Read? {
          DiffWithinTruth(last.rx, e.rx);
          DiffWithinTruth(last.tx, e.tx);
        }
        ReadKeeps(u, e, day, month, d, m, grx, gtx);
      } else if e.Jump? {
        JumpWithin(u, d.rx + d.tx, m.rx, m.tx);
      } else {
        UnreadKeeps(u, day, month, d, m);
      }
    } else {
      NothingWithin();
    }
  }

  lemma NothingWithin()
    ensures Within(EMPTY, 0, 0, 0)
  {
  }

  lemma JumpWithin(u: Acc, d: int, rx: int, tx: int)
    requires Within(u, d, rx, tx)
    ensures Within(u.(havePrev := false), d, rx, tx)
  {
  }

  lemma UnreadKeeps(u: Acc, day: Key, month: Key, d: Traffic, m: Traffic)
    requires Within(u, d.rx + d.tx, m.rx, m.tx) && (u.dayKey == day ==> u.monthKey == month)
    ensures Added(u, -1, -1, day, month) == Rolled(u, day, month)
    ensures var d2 := if u.dayKey == day then d else Traffic(0, 0);
      var m2 := if u.monthKey == month then m else Traffic(0, 0);
      Within(Rolled(u, day, month), d2.rx + d2.tx, m2.rx, m2.tx)
  {
    RolledWithin(u, day, month, d.rx + d.tx, m.rx, m.tx);
    hide Within;
  }

  lemma ReadKeeps(u: Acc, e: Step, day: Key, month: Key, d: Traffic, m: Traffic, grx: nat, gtx: nat)
    requires e.Read? && e.rx.Valid() && e.tx.Valid() && Within(u, d.rx + d.tx, m.rx, m.tx)
            && (u.dayKey == day ==> u.monthKey == month)
    requires u.havePrev ==> Diff(e.rx.Shows(), u.prevRx) <= grx && Diff(e.tx.Shows(), u.prevTx) <= gtx
    ensures var same := u.monthKey == month;
      Within(Added(u, e.rx.Shows(), e.tx.Shows(), day, month), (if u.dayKey == day then d.rx + d.tx else 0) + grx + gtx,
             (if same then m.rx else 0) + grx, (if same then m.tx else 0) + gtx)
  {
    AddedWithin(u, e.rx.Shows(), e.tx.Shows(), day, month, d.rx + d.tx, m.rx, m.tx, grx, gtx);
  }

  // ----- What is missed -----

  /** The clock jumped after the last reading. */
  predicate Rebased(es: seq<Step>) {
    es != [] && !es[|es| - 1].Read? && (es[|es| - 1].Jump? || Rebased(es[..|es| - 1]))
  }

  /** What a reset between two readings hides: the bytes between the first of them and the reset, and as
      many as the first one showed if the meter has come as far again. */
  function Hidden(a: Meter, b: Meter): int
    requires a.Before(b)
  {
    if a.zero == b.zero then 0 else b.zero - a.total + (if b.Shows() >= a.Shows() then a.Shows() else 0)
  }

  /** True traffic of the present day or month that is not charged: what resets hide, and all that was
      sent between the readings before and after a jump. */
  ghost function Missed(es: seq<Step>, billingDay: int, month: bool): Traffic
    requires Metered(es)
  {
    if es == [] then Traffic(0, 0) else
      var e, rest := es[|es| - 1], es[..|es| - 1];
      var before := if e.Jump? || KeyOf(e, billingDay, month) == CurrentKey(rest, billingDay, month)
                    then Missed(rest, billingDay, month) else Traffic(0, 0);
      var last := LastRead(rest);
      if e.Read? && last.Read? then
        Traffic(before.rx + (if Rebased(rest) then e.rx.total - last.rx.total else Hidden(last.rx, e.rx)),
                before.tx + (if Rebased(rest) then e.tx.total - last.tx.total else Hidden(last.tx, e.tx)))
      else before
  }

  /** What is charged in two readings, and what is missed, make up all the traffic between them. */
  lemma ChargedOrHidden(a: Meter, b: Meter)
    requires a.Before(b)
    ensures Diff(b.Shows(), a.Shows()) + Hidden(a, b) == b.total - a.total
    ensures 0 <= Hidden(a, b) <= b.total - a.total
  {
  }

  /** The ledger in every run, whatever counters are reset and however the clock jumps: exactly the true
      traffic less what is missed, for the day and for either direction of the month. */
  lemma {:induction false} LedgerExactly(es: seq<Step>, billingDay: int)
    requires Metered(es)
    ensures RunAcc(es, billingDay).havePrev <==> LastRead(es).Read? && !Rebased(es)
    ensures var u, day, dayMiss := RunAcc(es, billingDay), Truth(es, billingDay, false), Missed(es, billingDay, false);
      u.dayBytes == day.rx + day.tx - dayMiss.rx - dayMiss.tx
    ensures var u, mon, miss := RunAcc(es, billingDay), Truth(es, billingDay, true), Missed(es, billingDay, true);
      u.monthRx == mon.rx - miss.rx && u.monthTx == mon.tx - miss.tx
  {
    hide BillingPeriodStart, Hidden, Diff;
    if es != [] {
      var e, rest := es[|es| - 1], es[..|es| - 1];
      LedgerExactly(rest, billingDay);
      LedgerKeys(rest, billingDay);
      if e.Read? && LastRead(rest).Read? {
        ChargedOrHidden(LastRead(rest).rx, e.rx);
        ChargedOrHidden(LastRead(rest).tx, e.tx);
      }
    }
  }

  ghost predicate NoReset(es: seq<Step>) {
    es != [] ==>
      var e, rest := es[|es| - 1], es[..|es| - 1];
      && NoReset(rest) && !e.Jump?
      && (e.Read? && LastRead(rest).Read? ==>
          LastRead(rest).rx.zero == e.rx.zero && LastRead(rest).tx.zero == e.tx.zero)
  }

  /** With no reset and no clock jump the ledger is exact. */
  lemma {:induction false} LedgerExact(es: seq<Step>, billingDay: int)
    requires Metered(es) && NoReset(es)
    ensures var u, day, mon := RunAcc(es, billingDay), Truth(es, billingDay, false), Truth(es, billingDay, true);
      && (LastRead(es).Read? ==> u.havePrev)
      && u.dayBytes == day.rx + day.tx && u.monthRx == mon.rx && u.monthTx == mon.tx
  {
    hide BillingPeriodStart;
    if es != [] {
      var e, rest := es[|es| - 1], es[..|es| - 1];
      LedgerExact(rest, billingDay);
      LedgerKeys(rest, billingDay);
      if e.Read? && LastRead(rest).Read? {
        DiffWithinTruth(LastRead(rest).rx, e.rx);
        DiffWithinTruth(LastRead(rest).tx, e.tx);
      }
    }
  }
}
