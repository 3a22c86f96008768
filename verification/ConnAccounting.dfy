/**
 Per-connection byte accounting (app_usage.go) and the buffer of conntrack
 DESTROY events that feeds it (ct_events.go).

 The five-tuple that the program joins into a string key is kept as a record, so
 that the source address of a key is part of the key.
 */
module ConnAccounting {
  import opened Common

  datatype Key = Key(proto: string, src: string, sport: nat, dst: string, dport: nat)

  /** Cumulative counters of both directions. */
  datatype Bytes = Bytes(up: nat, dn: nat)

  datatype Entry = Entry(key: Key, bytes: Bytes)

  /** A DESTROY event: final counters, and the time at which it was received. */
  datatype Event = Event(key: Key, bytes: Bytes, hasCnt: bool, at: int)

  datatype Delta = Delta(key: Key, bytes: Bytes)

  function SatSub(a: nat, b: nat): nat { if a >= b then a - b else 0 }

  function SatSub2(a: Bytes, b: Bytes): Bytes { Bytes(SatSub(a.up, b.up), SatSub(a.dn, b.dn)) }

  function Emit(out: seq<Delta>, k: Key, b: Bytes): seq<Delta> {
    if b.up != 0 || b.dn != 0 then out + [Delta(k, b)] else out
  }

  // ----- One accounting step, as a function of the previous snapshot -----

  function Baseline(entries: seq<Entry>, keep: string -> bool): map<Key, Bytes> {
    if entries == [] then map[] else
      var rest := Baseline(entries[..|entries| - 1], keep);
      var e := entries[|entries| - 1];
      if keep(e.key.src) then rest[e.key := e.bytes] else rest
  }

  /** What the loop over the events leaves: the snapshot without the settled keys, the
      time of the latest event of each key, and the deltas written so far. */
  datatype Settled = Settled(prev: map<Key, Bytes>, dead: map<Key, int>, out: seq<Delta>)

  function SettleOne(s: Settled, ev: Event, keep: string -> bool): Settled {
    if !ev.hasCnt || !keep(ev.key.src) then s else
      var dead := if ev.key !in s.dead || ev.at > s.dead[ev.key] then s.dead[ev.key := ev.at] else s.dead;
      if ev.key in s.prev then
        Settled(s.prev - {ev.key}, dead, Emit(s.out, ev.key, SatSub2(ev.bytes, s.prev[ev.key])))
      else
        Settled(s.prev, dead, Emit(s.out, ev.key, ev.bytes))
  }

  function SettleEvents(prev: map<Key, Bytes>, events: seq<Event>, keep: string -> bool): Settled {
    if events == [] then Settled(prev, map[], []) else
      SettleOne(SettleEvents(prev, events[..|events| - 1], keep), events[|events| - 1], keep)
  }

  datatype Counted = Counted(next: map<Key, Bytes>, out: seq<Delta>)

  function CountOne(c: Counted, s: Settled, e: Entry, snapAt: int, keep: string -> bool): Counted {
    if !keep(e.key.src) || (e.key in s.dead && s.dead[e.key] > snapAt) then c else
      var d := if e.key in s.prev then SatSub2(e.bytes, s.prev[e.key]) else e.bytes;
      Counted(c.next[e.key := e.bytes], Emit(c.out, e.key, d))
  }

  function CountEntries(s: Settled, entries: seq<Entry>, snapAt: int, keep: string -> bool): Counted {
    if entries == [] then Counted(map[], s.out) else
      CountOne(CountEntries(s, entries[..|entries| - 1], snapAt, keep), s, entries[|entries| - 1], snapAt, keep)
  }

  function Step(prev: map<Key, Bytes>, entries: seq<Entry>, snapAt: int, events: seq<Event>,
                keep: string -> bool): Counted
  {
    CountEntries(SettleEvents(prev, events, keep), entries, snapAt, keep)
  }

  class AppUsage {
    var prev: map<Key, Bytes>
    var inited: bool

    constructor ()
      ensures prev == map[] && !inited
    {
      prev, inited := map[], false;
    }

    /** Merges one snapshot and the events drained after it; returns the new bytes. */
    method AcctStep(entries: seq<Entry>, snapAt: int, events: seq<Event>, keep: string -> bool)
      returns (out: seq<Delta>)
      modifies this
      ensures inited
      ensures !old(inited) ==> prev == Baseline(entries, keep) && out == []
      ensures old(inited) ==> Counted(prev, out) == Step(old(prev), entries, snapAt, events, keep)
    {
      var next: map<Key, Bytes> := map[];
      if !inited {
        for i := 0 to |entries|
          invariant next == Baseline(entries[..i], keep)
          invariant !inited && prev == old(prev)
        {
          assert entries[..i + 1][..i] == entries[..i];
          if keep(entries[i].key.src) {
            next := next[entries[i].key := entries[i].bytes];
          }
        }
        assert entries[..|entries|] == entries;
        prev, inited := next, true;
        return [];
      }
      out := [];
      var dead: map<Key, int> := map[];
      for i := 0 to |events|
        invariant inited
        invariant Settled(prev, dead, out) == SettleEvents(old(prev), events[..i], keep)
      {
        assert events[..i + 1][..i] == events[..i];
        var ev := events[i];
        if !ev.hasCnt || !keep(ev.key.src) {
          continue;
        }
        if ev.key !in dead || ev.at > dead[ev.key] {
          dead := dead[ev.key := ev.at];
        }
        var d := ev.bytes;
        if ev.key in prev {
          d := SatSub2(ev.bytes, prev[ev.key]);
          prev := prev - {ev.key};
        }
        if d.up != 0 || d.dn != 0 {
          out := out + [Delta(ev.key, d)];
        }
      }
      assert events[..|events|] == events;
      ghost var s := SettleEvents(old(prev), events, keep);
      for i := 0 to |entries|
        invariant inited && prev == s.prev && dead == s.dead
        invariant Counted(next, out) == CountEntries(s, entries[..i], snapAt, keep)
      {
        assert entries[..i + 1][..i] == entries[..i];
        var e := entries[i];
        if !keep(e.key.src) || (e.key in dead && dead[e.key] > snapAt) {
          continue;
        }
        next := next[e.key := e.bytes];
        var d := if e.key in prev then SatSub2(e.bytes, prev[e.key]) else e.bytes;
        if d.up != 0 || d.dn != 0 {
          out := out + [Delta(e.key, d)];
        }
      }
      assert entries[..|entries|] == entries;
      prev := next;
    }
  }

  // ----- The same step seen from one key and one direction -----

  datatype Direction = Up | Dn

  function At(b: Bytes, d: Direction): nat { if d.Up? then b.up else b.dn }

  /** Bytes that a list of deltas records for one key. */
  function KeyTotal(out: seq<Delta>, k: Key, d: Direction): nat {
    if out == [] then 0 else
      KeyTotal(out[..|out| - 1], k, d) +
      (if out[|out| - 1].key == k then At(out[|out| - 1].bytes, d) else 0)
  }

  function Get(m: map<Key, Bytes>, k: Key, d: Direction): Option<nat> {
    if k in m then Some(At(m[k], d)) else None
  }

  datatype KeyEvent = KeyEvent(bytes: nat, at: int)

  /** The counted events of one key, in order of arrival. */
  function EventsOf(events: seq<Event>, k: Key, d: Direction): seq<KeyEvent> {
    if events == [] then [] else
      var rest := EventsOf(events[..|events| - 1], k, d);
      var e := events[|events| - 1];
      if e.hasCnt && e.key == k then rest + [KeyEvent(At(e.bytes, d), e.at)] else rest
  }

  /** The reading of one key in a snapshot (the last one, if the key is listed twice). */
  function EntryOf(entries: seq<Entry>, k: Key, d: Direction): Option<nat> {
    if entries == [] then None else
      var e := entries[|entries| - 1];
      if e.key == k then Some(At(e.bytes, d)) else EntryOf(entries[..|entries| - 1], k, d)
  }

  predicate UniqueKeys(entries: seq<Entry>) {
    forall i, j :: 0 <= i < j < |entries| ==> entries[i].key != entries[j].key
  }

  function Over(p: Option<nat>, b: nat): nat { if p.Some? then SatSub(b, p.value) else b }

  function SettleTotal(p: Option<nat>, evs: seq<KeyEvent>): nat {
    if evs == [] then 0 else
      SettleTotal(p, evs[..|evs| - 1]) + (if |evs| == 1 then Over(p, evs[0].bytes) else evs[|evs| - 1].bytes)
  }

  function Pending(p: Option<nat>, evs: seq<KeyEvent>): Option<nat> { if evs == [] then p else None }

  predicate Stale(evs: seq<KeyEvent>, snapAt: int) { exists e :: e in evs && e.at > snapAt }

  datatype KeyResult = KeyResult(prev: Option<nat>, total: nat)

  function KeyStep(p: Option<nat>, evs: seq<KeyEvent>, entry: Option<nat>, snapAt: int): KeyResult {
    var t := SettleTotal(p, evs);
    if entry.None? || Stale(evs, snapAt) then KeyResult(None, t)
    else KeyResult(entry, t + Over(Pending(p, evs), entry.value))
  }

  lemma EmitTotal(out: seq<Delta>, kk: Key, b: Bytes, k: Key, d: Direction)
    ensures KeyTotal(Emit(out, kk, b), k, d) == KeyTotal(out, k, d) + (if kk == k then At(b, d) else 0)
  {
    assert (out + [Delta(kk, b)])[..|out|] == out;
  }

  /** What a settled state says about one key, given the events of that key so far. */
  ghost predicate KeyView(s: Settled, p: Option<nat>, evs: seq<KeyEvent>, k: Key, d: Direction) {
    && Get(s.prev, k, d) == Pending(p, evs)
    && KeyTotal(s.out, k, d) == SettleTotal(p, evs)
    && (k in s.dead <==> evs != [])
    && (k in s.dead ==> forall t :: s.dead[k] > t <==> Stale(evs, t))
  }

  lemma SettleOneKey(s: Settled, e: Event, keep: string -> bool, p: Option<nat>, evs: seq<KeyEvent>, k: Key,
                     d: Direction)
    requires keep(k.src) && KeyView(s, p, evs, k, d) && e.hasCnt && e.key == k
    ensures KeyView(SettleOne(s, e, keep), p, evs + [KeyEvent(At(e.bytes, d), e.at)], k, d)
  {
    var ev := KeyEvent(At(e.bytes, d), e.at);
    EmitTotal(s.out, k, if k in s.prev then SatSub2(e.bytes, s.prev[k]) else e.bytes, k, d);
    assert (evs + [ev])[..|evs|] == evs;
    StaleSnoc(evs, ev);
  }

  lemma {:induction false} SettleKey(prev: map<Key, Bytes>, events: seq<Event>, keep: string -> bool, k: Key,
                                     d: Direction)
    requires keep(k.src)
    ensures KeyView(SettleEvents(prev, events, keep), Get(prev, k, d), EventsOf(events, k, d), k, d)
  {
    if events != [] {
      var n := |events| - 1;
      SettleKey(prev, events[..n], keep, k, d);
      var s, e := SettleEvents(prev, events[..n], keep), events[n];
      if e.hasCnt && e.key == k {
        SettleOneKey(s, e, keep, Get(prev, k, d), EventsOf(events[..n], k, d), k, d);
      } else if e.hasCnt && keep(e.key.src) {
        EmitTotal(s.out, e.key, if e.key in s.prev then SatSub2(e.bytes, s.prev[e.key]) else e.bytes, k, d);
      }
    }
  }

  lemma StaleSnoc(evs: seq<KeyEvent>, e: KeyEvent)
    ensures forall t :: Stale(evs + [e], t) <==> Stale(evs, t) || e.at > t
  {
    forall t
      ensures Stale(evs + [e], t) <==> Stale(evs, t) || e.at > t
    {
      assert forall x :: x in evs + [e] <==> x in evs || x == e;
    }
  }

  lemma {:induction false} CountKey(s: Settled, entries: seq<Entry>, snapAt: int, keep: string -> bool, k: Key,
                                    d: Direction)
    requires keep(k.src) && UniqueKeys(entries)
    ensures var c := CountEntries(s, entries, snapAt, keep);
      var live := EntryOf(entries, k, d);
      if live.None? || (k in s.dead && s.dead[k] > snapAt)
      then Get(c.next, k, d) == None && KeyTotal(c.out, k, d) == KeyTotal(s.out, k, d)
      else Get(c.next, k, d) == live &&
           KeyTotal(c.out, k, d) == KeyTotal(s.out, k, d) + Over(Get(s.prev, k, d), live.value)
  {
    if entries != [] {
      var n := |entries| - 1;
      var e := entries[n];
      CountKey(s, entries[..n], snapAt, keep, k, d);
      var c := CountEntries(s, entries[..n], snapAt, keep);
      EmitTotal(c.out, e.key, if e.key in s.prev then SatSub2(e.bytes, s.prev[e.key]) else e.bytes, k, d);
      if e.key == k {
        EntryAbsent(entries[..n], k, d);
      }
    }
  }

  lemma {:induction false} EntryAbsent(entries: seq<Entry>, k: Key, d: Direction)
    requires forall i :: 0 <= i < |entries| ==> entries[i].key != k
    ensures EntryOf(entries, k, d) == None
  {
    if entries != [] {
      EntryAbsent(entries[..|entries| - 1], k, d);
    }
  }

  /** The step treats every kept key on its own: what it records and keeps for a key is a
      function of that key's last reading, its events and its entry alone. */
  lemma StepOfKey(prev: map<Key, Bytes>, entries: seq<Entry>, snapAt: int, events: seq<Event>, keep: string -> bool,
                  k: Key, d: Direction)
    requires keep(k.src) && UniqueKeys(entries)
    ensures var c := Step(prev, entries, snapAt, events, keep);
      KeyResult(Get(c.next, k, d), KeyTotal(c.out, k, d)) ==
      KeyStep(Get(prev, k, d), EventsOf(events, k, d), EntryOf(entries, k, d), snapAt)
  {
    SettleKey(prev, events, keep, k, d);
    CountKey(SettleEvents(prev, events, keep), entries, snapAt, keep, k, d);
  }

  lemma {:induction false} BaselineOfKey(entries: seq<Entry>, keep: string -> bool, k: Key, d: Direction)
    requires keep(k.src)
    ensures Get(Baseline(entries, keep), k, d) == EntryOf(entries, k, d)
  {
    if entries != [] {
      BaselineOfKey(entries[..|entries| - 1], keep, k, d);
    }
  }

  // ----- Keys of unknown devices -----

  lemma {:induction false} SettleUnkept(prev: map<Key, Bytes>, events: seq<Event>, keep: string -> bool, k: Key,
                                        d: Direction)
    requires !keep(k.src)
    ensures KeyTotal(SettleEvents(prev, events, keep).out, k, d) == 0
  {
    if events != [] {
      var n := |events| - 1;
      SettleUnkept(prev, events[..n], keep, k, d);
      var s, e := SettleEvents(prev, events[..n], keep), events[n];
      EmitTotal(s.out, e.key, if e.key in s.prev then SatSub2(e.bytes, s.prev[e.key]) else e.bytes, k, d);
    }
  }

  lemma {:induction false} CountUnkept(s: Settled, entries: seq<Entry>, snapAt: int, keep: string -> bool, k: Key,
                                       d: Direction)
    requires !keep(k.src)
    ensures var c := CountEntries(s, entries, snapAt, keep);
      k !in c.next && KeyTotal(c.out, k, d) == KeyTotal(s.out, k, d)
  {
    if entries != [] {
      var n := |entries| - 1;
      CountUnkept(s, entries[..n], snapAt, keep, k, d);
      var c, e := CountEntries(s, entries[..n], snapAt, keep), entries[n];
      EmitTotal(c.out, e.key, if e.key in s.prev then SatSub2(e.bytes, s.prev[e.key]) else e.bytes, k, d);
    }
  }

  /** A key whose device is unknown is forgotten, and nothing is recorded for it. */
  lemma StepUnkept(prev: map<Key, Bytes>, entries: seq<Entry>, snapAt: int, events: seq<Event>, keep: string -> bool,
                   k: Key, d: Direction)
    requires !keep(k.src)
    ensures var c := Step(prev, entries, snapAt, events, keep); Get(c.next, k, d) == None && KeyTotal(c.out, k, d) == 0
  {
    SettleUnkept(prev, events, keep, k, d);
    CountUnkept(SettleEvents(prev, events, keep), entries, snapAt, keep, k, d);
  }

  lemma {:induction false} BaselineUnkept(entries: seq<Entry>, keep: string -> bool, k: Key)
    requires !keep(k.src)
    ensures k !in Baseline(entries, keep)
  {
    if entries != [] {
      BaselineUnkept(entries[..|entries| - 1], keep, k);
    }
  }
}
