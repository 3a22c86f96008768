/** The records of a message one by one, and what a parsed answer says about them (dns_wire.go:259-342). */
module DnsRecords {
  import opened Common
  import opened Bytes
  import opened DnsWire
  import DnsMessages
  import opened DnsCache
  import opened DnsReplies

  /** A record: its owner's text, and where its type field stands. */
  datatype Rec = Rec(owner: bytes, np: nat)

  predicate AllWhole(b: bytes, xs: seq<Rec>) { xs != [] ==> RecordOK(b, xs[0].np) && AllWhole(b, xs[1..]) }

  lemma AllWholeCons(b: bytes, x: Rec, xs: seq<Rec>)
    requires RecordOK(b, x.np) && AllWhole(b, xs)
    ensures AllWhole(b, [x] + xs)
  {
    hide RecordOK;
    assert ([x] + xs)[1..] == xs;
  }

  /** The record that begins at `p`, and where the next one does. */
  function RecordAt(b: bytes, p: nat): (r: Option<(Rec, nat)>)
    ensures r.Some? ==> RecordOK(b, r.value.0.np)
  {
    var o := NameOf(b, p);
    if o.BadName? || !RecordOK(b, o.next) then None else Some((Rec(o.text, o.next), o.next + 10 + U16(b, o.next + 8)))
  }

  /** The `n` records that begin at `p`, if they are all well formed. */
  function RecordsFrom(b: bytes, p: nat, n: nat): (r: Option<seq<Rec>>)
    ensures r.Some? ==> |r.value| == n && AllWhole(b, r.value)
    decreases n
  {
    if n == 0 then Some([]) else
      var x := RecordAt(b, p);
      if x.None? then None else
        var rest := RecordsFrom(b, x.value.1, n - 1);
        if rest.None? then None else
          AllWholeCons(b, x.value.0, rest.value);
          Some([x.value.0] + rest.value)
  }

  /** The time to live, of which values from 2^31 on count as zero. */
  function TTLOf(b: bytes, x: Rec): nat
    requires RecordOK(b, x.np)
  {
    if U32(b, x.np + 4) >= 0x8000_0000 then 0 else U32(b, x.np + 4)
  }

  /** An address or alias of the answer section. */
  function AnswerOf(b: bytes, x: Rec): seq<RR>
    requires RecordOK(b, x.np)
  {
    var typ, size, data := U16(b, x.np), U16(b, x.np + 8), x.np + 10;
    if (typ == 1 && size == 4) || (typ == 28 && size == 16)
      then [RR(x.owner, typ, TTLOf(b, x), Addr(b[data..data + size]))]
    else if typ == 5 && NameOf(b, data).Name? then [RR(x.owner, 5, TTLOf(b, x), Target(NameOf(b, data).text))]
    else []
  }

  /** How long a start of authority lets a negative answer live: the lesser of its TTL and the last of its
      five numbers, which stand behind two names. */
  function NegativeOf(b: bytes, x: Rec): Option<nat>
    requires RecordOK(b, x.np)
  {
    if U16(b, x.np) != 6 then None else
      var first := Skip(b, x.np + 10);
      var second := if first.Some? then Skip(b, first.value) else None;
      if second.None? || second.value + 20 > x.np + 10 + U16(b, x.np + 8) then None
      else Some(Min(TTLOf(b, x), U32(b, second.value + 16)))
  }

  function AnswersOf(b: bytes, xs: seq<Rec>, i: nat, an: nat): seq<RR>
    requires AllWhole(b, xs)
  {
    if xs == [] then [] else (if i < an then AnswerOf(b, xs[0]) else []) + AnswersOf(b, xs[1..], i + 1, an)
  }

  /** Where the TTL fields stand: in all records but those of EDNS. */
  function FieldsOf(b: bytes, xs: seq<Rec>): seq<nat>
    requires AllWhole(b, xs)
  {
    if xs == [] then [] else (if U16(b, xs[0].np) == 41 then [] else [xs[0].np + 4]) + FieldsOf(b, xs[1..])
  }

  /** The negative TTLs that the records of the authority section bring. */
  function NegativesOf(b: bytes, xs: seq<Rec>, i: nat, an: nat, ns: nat): seq<nat>
    requires AllWhole(b, xs)
  {
    if xs == [] then [] else
      (if an <= i < an + ns && NegativeOf(b, xs[0]).Some? then [NegativeOf(b, xs[0]).value] else [])
      + NegativesOf(b, xs[1..], i + 1, an, ns)
  }

  /** The negative TTL of `r` is the least of those in `vs` and of that of `m`. */
  predicate LeastNegative(vs: seq<nat>, m: Info, r: Info) {
    && (r.haveSOA <==> m.haveSOA || vs != [])
    && (m.haveSOA ==> r.negTTL <= m.negTTL)
    && (forall v <- vs :: r.negTTL <= v)
    && (r.haveSOA ==> (m.haveSOA && r.negTTL == m.negTTL) || r.negTTL in vs)
  }

  lemma NoteOne(b: bytes, x: Rec, i: nat, an: nat, ns: nat, m: Info)
    requires RecordOK(b, x.np)
    ensures var r := NoteRecord(b, x.owner, x.np, i, an, ns, m);
      && r.answers == m.answers + (if i < an then AnswerOf(b, x) else [])
      && r.ttlOffsets == m.ttlOffsets + (if U16(b, x.np) == 41 then [] else [x.np + 4])
      && r.q.qend == m.q.qend
  {
    hide U16, U32, NameOf, SoaTTL;
    assert m.answers + [] == m.answers && m.ttlOffsets + [] == m.ttlOffsets;
  }

  lemma NoteNegative(b: bytes, x: Rec, i: nat, an: nat, ns: nat, m: Info)
    requires RecordOK(b, x.np)
    ensures var r := NoteRecord(b, x.owner, x.np, i, an, ns, m);
      var v := if an <= i < an + ns then NegativeOf(b, x) else None;
      && (r.haveSOA <==> m.haveSOA || v.Some?)
      && (r.haveSOA ==>
          r.negTTL == if !m.haveSOA then v.value else if v.None? then m.negTTL else Min(m.negTTL, v.value))
  {
    hide U16, U32, NameOf, Skip;
  }

  lemma LeastStep(v: Option<nat>, vs: seq<nat>, m: Info, m2: Info, r: Info)
    requires LeastNegative(vs, m2, r) && (m2.haveSOA <==> m.haveSOA || v.Some?)
    requires m2.haveSOA ==>
            m2.negTTL == if !m.haveSOA then v.value else if v.None? then m.negTTL else Min(m.negTTL, v.value)
    ensures LeastNegative((if v.Some? then [v.value] else []) + vs, m, r)
  {
    var all := (if v.Some? then [v.value] else []) + vs;
    assert v.Some? ==> all[0] == v.value && all[1..] == vs;
    assert v.None? ==> all == vs;
  }

  lemma {:induction false} ScanTells(b: bytes, p: nat, i: nat, n: nat, an: nat, ns: nat, m: Info)
    requires i <= n
    ensures var s, rs := ScanRecords(b, p, i, n, an, ns, m), RecordsFrom(b, p, n - i);
      && (s.Good? <==> rs.Some?)
      && (s.Good? ==>
          && s.m.answers == m.answers + AnswersOf(b, rs.value, i, an)
          && s.m.ttlOffsets == m.ttlOffsets + FieldsOf(b, rs.value)
          && LeastNegative(NegativesOf(b, rs.value, i, an, ns), m, s.m))
    decreases n - i
  {
    hide NoteRecord, NameOf, U16, AnswerOf, NegativeOf, LeastNegative, AnswersOf, FieldsOf, NegativesOf, AllWhole;
    if i == n {
      Nothing(b, i, an, ns, m);
    } else {
      var o := NameOf(b, p);
      if o.Name? && RecordOK(b, o.next) {
        var x, p2 := Rec(o.text, o.next), o.next + 10 + U16(b, o.next + 8);
        var m2 := NoteRecord(b, o.text, o.next, i, an, ns, m);
        ScanTells(b, p2, i + 1, n, an, ns, m2);
        NoteOne(b, x, i, an, ns, m);
        NoteNegative(b, x, i, an, ns, m);
        var rest := RecordsFrom(b, p2, n - i - 1);
        if rest.Some? {
          var s := ScanRecords(b, p2, i + 1, n, an, ns, m2).m;
          LeastStep(if an <= i < an + ns then NegativeOf(b, x) else None, NegativesOf(b, rest.value, i + 1, an, ns), m,
            m2, s);
          Consed(b, x, rest.value, i, an, ns);
        }
      }
    }
  }

  lemma Consed(b: bytes, x: Rec, xs: seq<Rec>, i: nat, an: nat, ns: nat)
    requires RecordOK(b, x.np) && AllWhole(b, xs)
    ensures AllWhole(b, [x] + xs)
    ensures AnswersOf(b, [x] + xs, i, an) == (if i < an then AnswerOf(b, x) else []) + AnswersOf(b, xs, i + 1, an)
    ensures FieldsOf(b, [x] + xs) == (if U16(b, x.np) == 41 then [] else [x.np + 4]) + FieldsOf(b, xs)
    ensures NegativesOf(b, [x] + xs, i, an, ns) ==
            (if an <= i < an + ns && NegativeOf(b, x).Some? then [NegativeOf(b, x).value] else []) +
              NegativesOf(b, xs, i + 1, an, ns)
  {
    hide AnswerOf, U16, NegativeOf, RecordOK;
    assert ([x] + xs)[1..] == xs;
  }

  lemma Nothing(b: bytes, i: nat, an: nat, ns: nat, m: Info)
    ensures LeastNegative(NegativesOf(b, [], i, an, ns), m, m) && m.answers + AnswersOf(b, [], i, an) == m.answers
    ensures m.ttlOffsets + FieldsOf(b, []) == m.ttlOffsets
  {
  }

  /** What is known of a message from its records. */
  predicate Tells(b: bytes, m: Info, xs: seq<Rec>)
    requires |b| >= 12 && AllWhole(b, xs)
  {
    var an, ns := U16(b, 6), U16(b, 8);
    var vs := NegativesOf(b, xs, 0, an, ns);
    && m.anCount == an && m.rcode == U16(b, 2) % 16
    && m.answers == AnswersOf(b, xs, 0, an) && m.ttlOffsets == FieldsOf(b, xs)
    && (m.haveSOA <==> vs != []) && (forall v <- vs :: m.negTTL <= v) && (m.haveSOA ==> m.negTTL in vs)
  }

  /** The records of a message with a proper question. */
  function AllRecords(b: bytes): (r: Option<seq<Rec>>)
    ensures r.Some? ==> |b| >= 12 && AllWhole(b, r.value)
  {
    if Question(b).BadQuery? || Counts(b) > 128 then None else RecordsFrom(b, Question(b).q.qend, Counts(b))
  }

  /** A response is accepted exactly if its question is, and it has at most 128 records, all well formed; then
      the answers are the addresses and aliases of the answer section in order, the TTL fields are those of
      all records but EDNS, and the negative TTL is the least that the authority section brings. */
  lemma ParsedRecords(b: bytes)
    ensures ParseResponse(b).Good? <==> AllRecords(b).Some?
    ensures ParseResponse(b).Good? ==> Tells(b, ParseResponse(b).m, AllRecords(b).value)
  {
    hide ScanRecords, RecordsFrom, NameOf, AnswersOf, FieldsOf, NegativesOf, U16, AllWhole;
    if Question(b).Parsed? && Counts(b) <= 128 {
      var q := Question(b).q;
      ScanTells(b, q.qend, 0, Counts(b), U16(b, 6), U16(b, 8), EmptyInfo(q, U16(b, 6)));
      ScanKeepsCounts(b, q.qend, 0, Counts(b), U16(b, 6), U16(b, 8), EmptyInfo(q, U16(b, 6)));
      assert q.flags == U16(b, 2);
    }
  }

  lemma {:induction false} ScanKeepsCounts(b: bytes, p: nat, i: nat, n: nat, an: nat, ns: nat, m: Info)
    ensures var r := ScanRecords(b, p, i, n, an, ns, m); r.Good? ==> r.m.anCount == m.anCount && r.m.rcode == m.rcode
    decreases n - i
  {
    hide NameOf, SoaTTL, U16, U32;
    if i < n {
      var o := NameOf(b, p);
      if o.Name? && RecordOK(b, o.next) {
        ScanKeepsCounts(b, o.next + 10 + U16(b, o.next + 8), i + 1, n, an, ns,
          NoteRecord(b, o.text, o.next, i, an, ns, m));
      }
    }
  }

  // ----- How long an answer lives -----

  /** The TTLs of all records but those of EDNS. */
  function TTLsOf(b: bytes, xs: seq<Rec>): seq<nat>
    requires AllWhole(b, xs)
  {
    if xs == [] then [] else (if U16(b, xs[0].np) == 41 then [] else [TTLOf(b, xs[0])]) + TTLsOf(b, xs[1..])
  }

  lemma {:induction false} FieldsHoldTTLs(b: bytes, xs: seq<Rec>)
    requires AllWhole(b, xs)
    ensures |TTLsOf(b, xs)| == |FieldsOf(b, xs)| && InMessage(b, FieldsOf(b, xs))
    ensures forall i :: 0 <= i < |TTLsOf(b, xs)| ==> TTLsOf(b, xs)[i] == MaskTTL(U32(b, FieldsOf(b, xs)[i]))
  {
    hide U16, U32;
    if xs != [] {
      FieldsHoldTTLs(b, xs[1..]);
    }
  }

  /** The least of some numbers and a cap; nothing without any. */
  predicate LeastUpTo(vs: seq<nat>, cap: nat, r: nat) {
    if vs == [] then r == 0 else r <= cap && (forall v <- vs :: r <= v) && (r == cap || r in vs)
  }

  /** A positive answer lives for the least TTL of its records, but an hour at most; a negative one for the
      least negative TTL of its authority section, but five minutes at most; any other does not live. */
  lemma LifeExactly(b: bytes, m: Info)
    requires ParseResponse(b) == Good(m)
    ensures AllRecords(b).Some?
    ensures var xs := AllRecords(b).value;
      && (m.rcode == 0 && m.anCount > 0 ==> LeastUpTo(TTLsOf(b, xs), 3600, Life(m)))
      && ((m.rcode == 0 && m.anCount == 0) || m.rcode == 3 ==>
          LeastUpTo(NegativesOf(b, xs, 0, U16(b, 6), U16(b, 8)), 300, Life(m)))
      && (m.rcode != 0 && m.rcode != 3 ==> Life(m) == 0)
  {
    hide ParseResponse, AllRecords, TTLsOf, FieldsOf, AnswersOf, NegativesOf, U16, U32, MaskTTL, AllWhole;
    ParsedRecords(b);
    ParsedTTLs(b, m);
    var xs := AllRecords(b).value;
    FieldsHoldTTLs(b, xs);
    assert m.ttlOffsets == FieldsOf(b, xs);
    LeastIs(b, m, TTLsOf(b, xs));
  }

  lemma LeastIs(b: bytes, m: Info, vs: seq<nat>)
    requires InMessage(b, m.ttlOffsets) && LeastTTL(b, m) && |vs| == |m.ttlOffsets|
    requires forall i :: 0 <= i < |vs| ==> vs[i] == MaskTTL(U32(b, m.ttlOffsets[i]))
    ensures m.haveTTL <==> vs != []
    ensures m.haveTTL ==> LeastUpTo(vs, 3600, Min(m.minTTL, 3600))
  {
    hide U32, MaskTTL;
    if m.haveTTL {
      var k :| 0 <= k < |m.ttlOffsets| && m.minTTL == MaskTTL(U32(b, m.ttlOffsets[k]));
      assert vs[k] == m.minTTL;
    }
  }

  /** Nothing is served for longer than that: of a negative answer, held since it came, every negative TTL of
      its authority section and five minutes are still ahead; of a positive one every TTL and an hour. */
  lemma ServedInTime(es: seq<Ent>, q: Query, now: int, e: Ent)
    requires AllMade(es) && HoldsLive(es, q, now, e)
    ensures AllRecords(e.msg).Some?
    ensures var xs := AllRecords(e.msg).value;
      var vs := if e.info.rcode == 0 && e.info.anCount > 0 then TTLsOf(e.msg, xs)
                else NegativesOf(e.msg, xs, 0, U16(e.msg, 6), U16(e.msg, 8));
      && vs != [] && (forall v <- vs :: now < e.stored + v * SECOND)
      && now < e.stored + (if e.info.rcode == 0 && e.info.anCount > 0 then 3600 else 300) * SECOND
  {
    assert EntOK(e);
    EntLife(e);
    hide EntOK, AllRecords, TTLsOf, NegativesOf, Life, U16, CacheKey;
    LifeExactly(e.msg, e.info);
  }

  lemma EntLife(e: Ent)
    requires EntOK(e)
    ensures ParseResponse(e.msg) == Good(e.info) && e.expire == e.stored + Life(e.info) * SECOND && Life(e.info) > 0
  {
    hide ParseResponse, TtlsOf;
  }

  // ----- The EDNS record of a query -----

  /** Where the type fields of the records that begin at `p` stand, `n` of them or those before the first
      that is malformed. */
  function Heads(b: bytes, p: nat, n: nat): (r: seq<nat>)
    ensures |r| <= n && forall k :: 0 <= k < |r| ==> r[k] + 10 <= |b|
    decreases n
  {
    if n == 0 then [] else
      var h := Skip(b, p);
      if h.None? || |b| < h.value + 10 || |b| < h.value + 10 + U16(b, h.value + 8) then []
      else [h.value] + Heads(b, h.value + 10 + U16(b, h.value + 8), n - 1)
  }

  /** Record `k` is the last EDNS record of the additional section, which begins with record `first`; or
      there is none, and `k` is -1. */
  predicate LastEdns(b: bytes, hs: seq<nat>, k: int, first: int)
    requires forall j :: 0 <= j < |hs| ==> hs[j] + 10 <= |b|
  {
    && -1 <= k < |hs| && (k >= 0 ==> k >= first && U16(b, hs[k]) == 41)
    && forall j :: k < j < |hs| ==> !(j >= first && U16(b, hs[j]) == 41)
  }

  /** What the EDNS record at `h` says of a query: a size for replies from 512 to 4096, whether DNSSEC records
      are wanted, and how long its options are. */
  function WithEdns(b: bytes, h: nat, q: Query): Query
    requires h + 10 <= |b|
  {
    q.(hasOPT := true, udpSize := Max(512, Min(4096, U16(b, h + 2))), wantDO := Bit(U16(b, h + 6), 15) == 1,
       optLen := U16(b, h + 8))
  }

  lemma HeadsStep(b: bytes, p: nat, n: nat)
    requires n > 0 && Heads(b, p, n) != []
    ensures var h := Skip(b, p);
      && h.Some? && h.value + 10 <= |b| && RecordOK(b, h.value)
      && Heads(b, p, n) == [h.value] + Heads(b, h.value + 10 + U16(b, h.value + 8), n - 1)
  {
    hide Skip, U16;
  }

  lemma ScanEnds(b: bytes, p: nat, i: nat, n: nat, additional: nat, q: Query)
    requires i <= n && Heads(b, p, n - i) == []
    ensures ScanOPT(b, p, i, n, additional, q) == q
  {
    hide Skip, U16, Bit;
  }

  lemma ScanStep(b: bytes, p: nat, i: nat, n: nat, additional: nat, q: Query, h: nat)
    requires i < n && Skip(b, p) == Some(h) && h + 10 <= |b| && RecordOK(b, h)
    ensures ScanOPT(b, p, i, n, additional, q) ==
            ScanOPT(b, h + 10 + U16(b, h + 8), i + 1, n, additional,
                    if i >= additional && U16(b, h) == 41 then WithEdns(b, h, q) else q)
  {
    hide Skip, U16, Bit;
  }

  lemma LastCounts(b: bytes, h: nat, g: nat, q: Query)
    requires h + 10 <= |b| && g + 10 <= |b|
    ensures WithEdns(b, h, WithEdns(b, g, q)) == WithEdns(b, h, q)
  {
    hide U16, Bit;
  }

  lemma {:induction false} ScanEdns(b: bytes, p: nat, i: nat, n: nat, additional: nat, q: Query, k: int)
    requires i <= n && LastEdns(b, Heads(b, p, n - i), k, additional - i)
    ensures ScanOPT(b, p, i, n, additional, q) == if k == -1 then q else WithEdns(b, Heads(b, p, n - i)[k], q)
    decreases n - i
  {
    hide U16, Bit, Skip, ScanOPT, Heads, WithEdns, RecordOK;
    var hs := Heads(b, p, n - i);
    if hs == [] {
      ScanEnds(b, p, i, n, additional, q);
    } else {
      HeadsStep(b, p, n - i);
      var m, p2 := hs[0], hs[0] + 10 + U16(b, hs[0] + 8);
      var rest := Heads(b, p2, n - i - 1);
      ScanStep(b, p, i, n, additional, q, m);
      LastInRest(b, m, rest, k, additional - i);
      hide LastEdns;
      var q2 := if i >= additional && U16(b, m) == 41 then WithEdns(b, m, q) else q;
      ScanEdns(b, p2, i + 1, n, additional, q2, if k >= 0 then k - 1 else -1);
      if k > 0 {
        assert hs[k] == rest[k - 1];
        LastCounts(b, rest[k - 1], m, q);
      }
    }
  }

  lemma LastInRest(b: bytes, h: nat, rest: seq<nat>, k: int, first: int)
    requires h + 10 <= |b| && forall j :: 0 <= j < |rest| ==> rest[j] + 10 <= |b|
    requires LastEdns(b, [h] + rest, k, first)
    ensures LastEdns(b, rest, if k >= 0 then k - 1 else -1, first - 1)
    ensures k == -1 ==> !(0 >= first && U16(b, h) == 41)
    ensures k == 0 ==> 0 >= first && U16(b, h) == 41
  {
    hide U16;
    var hs := [h] + rest;
    assert hs[0] == h && forall j :: 0 <= j < |rest| ==> rest[j] == hs[j + 1];
  }

  /** A query's size and EDNS indications are those of the last EDNS record of its additional section, before
      a malformed record or the end; without one the size is 512. More than 128 records are not looked at. */
  lemma QueryEdns(b: bytes, q: Query, k: int)
    requires ParseQuery(b) == Parsed(q)
    ensures |b| >= 12 && q.qend <= |b|
    ensures var n := U16(b, 6) + U16(b, 8) + U16(b, 10);
      var hs := if n > 128 then [] else Heads(b, q.qend, n);
      var plain := q.(hasOPT := false, udpSize := 512, wantDO := false, optLen := 0);
      LastEdns(b, hs, k, U16(b, 6) + U16(b, 8)) ==> q == if k == -1 then plain else WithEdns(b, hs[k], plain)
  {
    hide U16, ScanOPT, Heads, WithEdns, NameOf;
    DnsMessages.ParsedQuery(b);
    var q0 := Question(b).q;
    var n := U16(b, 6) + U16(b, 8) + U16(b, 10);
    if n <= 128 {
      ScanKeepsRest(b, q0.qend, 0, n, U16(b, 6) + U16(b, 8), q0);
      if LastEdns(b, Heads(b, q.qend, n), k, U16(b, 6) + U16(b, 8)) {
        ScanEdns(b, q.qend, 0, n, U16(b, 6) + U16(b, 8), q0, k);
      }
    }
  }

  lemma {:induction false} ScanKeepsRest(b: bytes, p: nat, i: nat, n: nat, additional: nat, q: Query)
    ensures var r := ScanOPT(b, p, i, n, additional, q);
      r.(hasOPT := false, udpSize := 512, wantDO := false, optLen := 0) ==
      q.(hasOPT := false, udpSize := 512, wantDO := false, optLen := 0) && r.qend == q.qend
    decreases n - i
  {
    hide U16, Bit, Skip;
    if i < n {
      var h := Skip(b, p);
      if h.Some? && RecordOK(b, h.value) {
        var m, rdl := h.value, U16(b, h.value + 8);
        var q2 := if i >= additional && U16(b, m) == 41 then WithEdns(b, m, q) else q;
        ScanKeepsRest(b, m + 10 + rdl, i + 1, n, additional, q2);
      }
    }
  }
}
