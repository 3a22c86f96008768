/** What a client reads from an answer served out of the cache: the stored records, older. */
module DnsHits {
  import opened Common
  import opened Bytes
  import opened DnsWire
  import opened DnsNames
  import opened DnsLabels
  import opened DnsMessages
  import opened DnsCache
  import opened DnsCaching
  import opened DnsHandle
  import opened DnsTwins

  // ----- Two messages that differ as a served answer does -----

  /** An octet behind the header and outside the TTL fields. */
  predicate Free(offs: seq<nat>, j: nat) { j >= 12 && forall i :: 0 <= i < |offs| ==> !(offs[i] <= j < offs[i] + 4) }

  predicate FreeSpan(offs: seq<nat>, lo: nat, hi: nat) { forall j :: lo <= j < hi ==> Free(offs, j) }

  /** `c` has the octets of `b`, but for the case of letters in the name of the question, which ends
      4 octets before `qend`, and for the TTL fields, which are `el` seconds older. */
  predicate Near(b: bytes, c: bytes, offs: seq<nat>, qend: nat, el: nat) {
    && |b| == |c| && 16 <= qend <= |b| && InMessage(b, offs)
    && (forall j :: 4 <= j < 12 ==> c[j] == b[j])
    && (forall j :: qend - 4 <= j < |b| && Free(offs, j) ==> c[j] == b[j])
    && (forall j :: 12 <= j < qend - 4 ==> LowerByte(c[j]) == LowerByte(b[j]))
    && (forall i :: 0 <= i < |offs| ==> U32(c, offs[i]) == Left(MaskTTL(U32(b, offs[i])), el))
  }

  /** Reading the name at `off` touches no header octet and no TTL field, and its pointers stand
      behind the question. */
  predicate NameClear(b: bytes, off: nat, hops: nat, offs: seq<nat>, qend: nat)
    decreases 128 - hops
  {
    hops <= 127 && off < |b| ==>
      && Free(offs, off)
      && (b[off] >= 192 ==> qend <= off && Free(offs, off + 1))
      && (b[off] >= 192 && off + 1 < |b| && U16(b, off) % 0x4000 < off ==>
          NameClear(b, U16(b, off) % 0x4000, hops + 1, offs, qend))
      && (0 < b[off] < 64 && off + 1 + b[off] as int <= |b| ==>
          && FreeSpan(offs, off + 1, off + 1 + b[off] as int)
          && NameClear(b, off + 1 + b[off] as int, hops + 1, offs, qend))
  }

  // ----- Names read the same -----

  lemma NearSize(b: bytes, c: bytes, offs: seq<nat>, qend: nat, el: nat)
    requires Near(b, c, offs, qend, el)
    ensures |b| == |c| && 16 <= qend <= |b|
  {
  }

  lemma NearAt(b: bytes, c: bytes, offs: seq<nat>, qend: nat, el: nat, j: nat)
    requires Near(b, c, offs, qend, el) && Free(offs, j) && j < |b|
    ensures LowerByte(c[j]) == LowerByte(b[j])
            && (b[j] < 64 || b[j] >= 192 || c[j] < 64 || c[j] >= 192 || j >= qend ==> c[j] == b[j])
  {
  }

  lemma NearSpan(b: bytes, c: bytes, offs: seq<nat>, qend: nat, el: nat, lo: nat, hi: nat)
    requires Near(b, c, offs, qend, el) && FreeSpan(offs, lo, hi) && lo <= hi <= |b|
    ensures Lower(c[lo..hi]) == Lower(b[lo..hi])
  {
    forall k | 0 <= k < hi - lo ensures LowerByte(c[lo..hi][k]) == LowerByte(b[lo..hi][k]) {
      NearAt(b, c, offs, qend, el, lo + k);
    }
  }

  lemma SameAdded(s: bytes, t: bytes, x: bytes, y: bytes)
    requires Lower(s) == Lower(t) && Lower(x) == Lower(y)
    ensures Lower(AddLabel(s, x)) == Lower(AddLabel(t, y)) && |AddLabel(s, x)| == |AddLabel(t, y)|
  {
    assert |s| == |Lower(s)| && |t| == |Lower(t)| && |x| == |Lower(x)| && |y| == |Lower(y)|;
    LowerConcat(s + [DOT], x);
    LowerConcat(t + [DOT], y);
    LowerConcat(s, [DOT]);
    LowerConcat(t, [DOT]);
    hide Lower;
  }

  lemma {:induction false} ReadsSame(b: bytes, c: bytes, offs: seq<nat>, qend: nat, el: nat, off: nat, hops: nat,
                                     s: bytes, t: bytes, next: Option<nat>)
    requires Near(b, c, offs, qend, el) && NameClear(b, off, hops, offs, qend) && Lower(s) == Lower(t)
    ensures ReadFrom(c, off, hops, t, next) == ReadFrom(b, off, hops, s, next)
    decreases 128 - hops
  {
    hide Near, Free, FreeSpan, Lower, AddLabel;
    NearSize(b, c, offs, qend, el);
    if hops <= 127 && off < |b| {
      NearAt(b, c, offs, qend, el, off);
      if b[off] >= 192 {
        if off + 1 < |b| {
          NearAt(b, c, offs, qend, el, off + 1);
          if U16(b, off) % 0x4000 < off {
            ReadsSame(b, c, offs, qend, el, U16(b, off) % 0x4000, hops + 1, s, t, Some(next.GetOr(off + 2)));
          }
        }
      } else if 0 < b[off] < 64 && off + 1 + b[off] as int <= |b| {
        var o := off + 1 + b[off] as int;
        NearSpan(b, c, offs, qend, el, off + 1, o);
        SameAdded(s, t, b[off + 1..o], c[off + 1..o]);
        ReadsSame(b, c, offs, qend, el, o, hops + 1, AddLabel(s, b[off + 1..o]), AddLabel(t, c[off + 1..o]), next);
      }
    }
  }

  lemma NameSame(b: bytes, c: bytes, offs: seq<nat>, qend: nat, el: nat, off: nat)
    requires Near(b, c, offs, qend, el) && NameClear(b, off, 0, offs, qend)
    ensures NameOf(c, off) == NameOf(b, off)
  {
    hide Near, NameClear, ReadFrom;
    ReadsSame(b, c, offs, qend, el, off, 0, [], [], None);
  }

  // ----- Records read the same, but for their age -----

  function Aged(rrs: seq<RR>, el: nat): (r: seq<RR>)
    ensures |r| == |rrs|
  {
    seq(|rrs|, i requires 0 <= i < |rrs| => rrs[i].(ttl := Left(rrs[i].ttl, el)))
  }

  /** The same message `el` seconds older: every TTL of a record, and so the least of them, is lower by
      that or zero; the negative TTL is lowered by that at most. */
  predicate Older(m: Info, r: Info, el: nat) {
    && r.q == m.q.(id := r.q.id, flags := r.q.flags) && r.rcode == m.rcode && r.anCount == m.anCount
    && r.answers == Aged(m.answers, el) && r.ttlOffsets == m.ttlOffsets
    && r.haveTTL == m.haveTTL && r.minTTL == Left(m.minTTL, el)
    && r.haveSOA == m.haveSOA && Left(m.negTTL, el) <= r.negTTL <= m.negTTL
  }

  lemma AgedAppend(rrs: seq<RR>, x: RR, el: nat)
    ensures Aged(rrs + [x], el) == Aged(rrs, el) + [x.(ttl := Left(x.ttl, el))]
  {
  }

  predicate SameSpan(b: bytes, c: bytes, lo: nat, hi: nat) {
    |b| == |c| && lo <= hi <= |b| && forall j :: lo <= j < hi ==> c[j] == b[j]
  }

  predicate Beyond(r: Option<nat>, end: nat) { r.Some? ==> r.value > end }

  /** Skipping within a span that is the same ends alike, or beyond it. */
  lemma {:induction false} SkipsSame(b: bytes, c: bytes, lo: nat, off: nat, hops: nat, end: nat)
    requires SameSpan(b, c, lo, end) && lo <= off
    ensures SkipFrom(c, off, hops) == SkipFrom(b, off, hops)
         || (Beyond(SkipFrom(c, off, hops), end) && Beyond(SkipFrom(b, off, hops), end))
    decreases 128 - hops
  {
    if hops < 128 && off < end && 0 < b[off] < 64 {
      SkipsSame(b, c, lo, off + 1 + b[off] as int, hops + 1, end);
    }
  }

  lemma SoaSame(b: bytes, c: bytes, rd: nat, end: nat, ttl: nat, el: nat)
    requires SameSpan(b, c, rd, end)
    ensures var x, y := SoaTTL(b, rd, end, ttl), SoaTTL(c, rd, end, Left(ttl, el));
      x.Some? == y.Some? && (x.Some? ==> Left(x.value, el) <= y.value <= x.value)
  {
    hide SkipFrom;
    SkipsSame(b, c, rd, rd, 0, end);
    var m := Skip(b, rd);
    if m.Some? && m.value <= end {
      SkipsSame(b, c, rd, m.value, 0, end);
    }
  }

  lemma FieldSame(b: bytes, c: bytes, lo: nat, hi: nat, o: nat)
    requires SameSpan(b, c, lo, hi) && lo <= o && o + 2 <= hi
    ensures U16(c, o) == U16(b, o)
  {
  }

  lemma SpanSame(b: bytes, c: bytes, lo: nat, hi: nat)
    requires SameSpan(b, c, lo, hi)
    ensures c[lo..hi] == b[lo..hi]
  {
  }

  /** The fields of a record but its TTL are the same, and the name in its data reads the same. */
  predicate NearRecord(b: bytes, c: bytes, np: nat, i: nat, an: nat, el: nat) {
    && RecordOK(b, np) && SameSpan(b, c, np, np + 4) && SameSpan(b, c, np + 8, np + 10 + U16(b, np + 8))
    && (U16(b, np) != TYPE_OPT ==> U32(c, np + 4) == Left(MaskTTL(U32(b, np + 4)), el))
    && (i < an && U16(b, np) == TYPE_CNAME ==> NameOf(c, np + 10) == NameOf(b, np + 10))
  }

  lemma NoteOlder(b: bytes, c: bytes, owner: bytes, np: nat, i: nat, an: nat, ns: nat, m: Info, r: Info, el: nat)
    requires NearRecord(b, c, np, i, an, el) && Older(m, r, el)
    ensures RecordOK(c, np) && U16(c, np + 8) == U16(b, np + 8)
    ensures var x, y := NoteRecord(b, owner, np, i, an, ns, m), NoteRecord(c, owner, np, i, an, ns, r);
      Older(x, y, el) && y.id == r.id && y.flags == r.flags && y.q.id == r.q.id && y.q.flags == r.q.flags
  {
    hide U16, U32, NameOf, SoaTTL, Aged;
    FieldSame(b, c, np, np + 4, np);
    FieldSame(b, c, np + 8, np + 10 + U16(b, np + 8), np + 8);
    var ttl, rd, rdl := MaskTTL(U32(b, np + 4)), np + 10, U16(b, np + 8);
    assert SameSpan(b, c, rd, rd + rdl);
    SpanSame(b, c, rd, rd + rdl);
    SoaSame(b, c, rd, rd + rdl, ttl, el);
    AgedAppend(m.answers, RR(owner, U16(b, np), ttl, Addr(b[rd..rd + rdl])), el);
    if NameOf(b, rd).Name? {
      AgedAppend(m.answers, RR(owner, U16(b, np), ttl, Target(NameOf(b, rd).text)), el);
    }
  }

  /** Every name that is read out of the records from `p` on is clear. */
  predicate RecordsClear(b: bytes, p: nat, i: nat, n: nat, an: nat, offs: seq<nat>, qend: nat)
    decreases n - i
  {
    i < n ==>
      && NameClear(b, p, 0, offs, qend)
      && var o := NameOf(b, p);
        o.Name? && RecordOK(b, o.next) ==>
          && (i < an && U16(b, o.next) == TYPE_CNAME ==> NameClear(b, o.next + 10, 0, offs, qend))
          && RecordsClear(b, o.next + 10 + U16(b, o.next + 8), i + 1, n, an, offs, qend)
  }

  lemma {:induction false} SpacedBelow(offs: seq<nat>, lo: nat, hi: nat, k: nat)
    requires Spaced(offs, lo, hi) && k < |offs|
    ensures lo <= offs[k] && offs[k] + 4 <= hi
    decreases |offs|
  {
    SpacedEnds(offs[1..], offs[0] + 4, hi);
    if k > 0 {
      SpacedBelow(offs[1..], offs[0] + 4, hi, k - 1);
    }
  }

  lemma {:induction false} SpacedEnds(offs: seq<nat>, lo: nat, hi: nat)
    requires Spaced(offs, lo, hi)
    ensures lo <= hi
    decreases |offs|
  {
    if offs != [] {
      SpacedEnds(offs[1..], offs[0] + 4, hi);
    }
  }

  lemma NoteOffsets(b: bytes, owner: bytes, np: nat, i: nat, an: nat, ns: nat, m: Info)
    requires RecordOK(b, np)
    ensures NoteRecord(b, owner, np, i, an, ns, m).ttlOffsets == m.ttlOffsets + if U16(b, np) == TYPE_OPT then []
            else [np + 4]
  {
    hide U16, U32, NameOf, SoaTTL;
  }

  /** TTL fields found from `p` on stand behind `p` and behind those found before. */
  lemma {:induction false} LaterOffsets(b: bytes, p: nat, i: nat, n: nat, an: nat, ns: nat, m: Info, r: Info)
    requires ScanRecords(b, p, i, n, an, ns, m) == Good(r)
    ensures m.ttlOffsets <= r.ttlOffsets
    ensures forall k :: |m.ttlOffsets| <= k < |r.ttlOffsets| ==> r.ttlOffsets[k] > p + 4
    decreases n - i
  {
    hide NoteRecord, NameOf, U16;
    if i < n {
      var o := NameOf(b, p);
      NameMoves(b, p);
      NoteOffsets(b, o.text, o.next, i, an, ns, m);
      LaterOffsets(b, o.next + 10 + U16(b, o.next + 8), i + 1, n, an, ns, NoteRecord(b, o.text, o.next, i, an, ns, m),
        r);
    }
  }

  /** The fields of a record, but for its own TTL, are free. */
  lemma RecordFree(b: bytes, p: nat, i: nat, n: nat, an: nat, ns: nat, m: Info, r: Info, np: nat, m2: Info)
    requires NameOf(b, p).Name? && np == NameOf(b, p).next && RecordOK(b, np) && Spaced(m.ttlOffsets, m.q.qend, p)
            && 12 <= p
    requires m2 == NoteRecord(b, NameOf(b, p).text, np, i, an, ns, m)
    requires ScanRecords(b, np + 10 + U16(b, np + 8), i + 1, n, an, ns, m2) == Good(r)
    ensures p < np && FreeSpan(r.ttlOffsets, np, np + 4) && FreeSpan(r.ttlOffsets, np + 8, np + 10 + U16(b, np + 8))
    ensures U16(b, np) != TYPE_OPT ==> |m.ttlOffsets| < |r.ttlOffsets| && r.ttlOffsets[|m.ttlOffsets|] == np + 4
  {
    hide NoteRecord, NameOf, U16, ScanRecords, Spaced;
    NameMoves(b, p);
    NoteOffsets(b, NameOf(b, p).text, np, i, an, ns, m);
    LaterOffsets(b, np + 10 + U16(b, np + 8), i + 1, n, an, ns, m2, r);
    forall k | 0 <= k < |m.ttlOffsets| ensures r.ttlOffsets[k] + 4 <= p {
      SpacedBelow(m.ttlOffsets, m.q.qend, p, k);
      assert r.ttlOffsets[k] == m.ttlOffsets[k];
    }
  }

  lemma NearFields(b: bytes, c: bytes, qend: nat, el: nat, i: nat, an: nat, np: nat, offs: seq<nat>, k: nat)
    requires Near(b, c, offs, qend, el) && RecordOK(b, np) && qend <= np
    requires FreeSpan(offs, np, np + 4) && FreeSpan(offs, np + 8, np + 10 + U16(b, np + 8))
    requires U16(b, np) != TYPE_OPT ==> k < |offs| && offs[k] == np + 4
    requires i < an && U16(b, np) == TYPE_CNAME ==> NameClear(b, np + 10, 0, offs, qend)
    ensures NearRecord(b, c, np, i, an, el)
  {
    hide Free, NameClear, ReadFrom, U16, U32;
    if i < an && U16(b, np) == TYPE_CNAME {
      NameSame(b, c, offs, qend, el, np + 10);
    }
  }

  /** Two infos of one served answer. */
  predicate Follows(m: Info, r: Info, x: Info, y: Info, el: nat) {
    Older(x, y, el) && y.id == r.id && y.flags == r.flags && y.q.id == r.q.id && y.q.flags == r.q.flags
      && x.q.qend == m.q.qend
  }

  lemma {:induction false} ScanOlder(b: bytes, c: bytes, p: nat, i: nat, n: nat, an: nat, ns: nat, m: Info, r: Info,
                                     x: Info, el: nat)
    requires Near(b, c, x.ttlOffsets, m.q.qend, el) && ScanRecords(b, p, i, n, an, ns, m) == Good(x) && Older(m, r, el)
    requires RecordsClear(b, p, i, n, an, x.ttlOffsets, m.q.qend) && Spaced(m.ttlOffsets, m.q.qend, p)
            && m.q.qend <= p <= |b|
    ensures var s := ScanRecords(c, p, i, n, an, ns, r); s.Good? && Follows(m, r, x, s.m, el)
    decreases n - i
  {
    hide Near, NearRecord, NameClear, NoteRecord, Older, U16, ReadFrom, NameOf, Spaced, FreeSpan;
    if i < n {
      var o := NameOf(b, p);
      var np := o.next;
      var m2 := NoteRecord(b, o.text, np, i, an, ns, m);
      var p2 := np + 10 + U16(b, np + 8);
      NearSize(b, c, x.ttlOffsets, m.q.qend, el);
      RecordFree(b, p, i, n, an, ns, m, x, np, m2);
      NameSame(b, c, x.ttlOffsets, m.q.qend, el, p);
      NearFields(b, c, m.q.qend, el, i, an, np, x.ttlOffsets, |m.ttlOffsets|);
      NoteOlder(b, c, o.text, np, i, an, ns, m, r, el);
      NoteQuestion(b, o.text, np, i, an, ns, m);
      NextSpaced(b, o.text, p, np, i, an, ns, m);
      ScanOlder(b, c, p2, i + 1, n, an, ns, m2, NoteRecord(c, o.text, np, i, an, ns, r), x, el);
    }
  }

  lemma NoteQuestion(b: bytes, owner: bytes, np: nat, i: nat, an: nat, ns: nat, m: Info)
    requires RecordOK(b, np)
    ensures NoteRecord(b, owner, np, i, an, ns, m).q.qend == m.q.qend
  {
    hide U16, U32, NameOf, SoaTTL;
  }

  lemma NextSpaced(b: bytes, owner: bytes, p: nat, np: nat, i: nat, an: nat, ns: nat, m: Info)
    requires RecordOK(b, np) && p < np && Spaced(m.ttlOffsets, m.q.qend, p)
    ensures Spaced(NoteRecord(b, owner, np, i, an, ns, m).ttlOffsets, m.q.qend, np + 10 + U16(b, np + 8))
  {
    hide NoteRecord, U16, Spaced;
    NoteOffsets(b, owner, np, i, an, ns, m);
    SpacedAppend(m.ttlOffsets, m.q.qend, p, np + 4, np + 10 + U16(b, np + 8));
    SpacedWider(m.ttlOffsets, m.q.qend, p, np + 10 + U16(b, np + 8));
    assert m.ttlOffsets + [] == m.ttlOffsets;
  }

  // ----- A served answer -----

  /** No name of the message runs through its header or a TTL field, or takes octets of its question
      for a pointer. */
  predicate Legible(b: bytes, m: Info) {
    && NameClear(b, 12, 0, m.ttlOffsets, m.q.qend)
    && |b| >= 12 && RecordsClear(b, m.q.qend, 0, Counts(b), U16(b, 6), m.ttlOffsets, m.q.qend)
  }

  /** The question of the query is the stored one, up to the case of letters, if it is as long. */
  predicate SameAsked(e: Ent, query: bytes, q: Query) {
    && q.qtype == e.info.q.qtype && q.qclass == e.info.q.qclass
    && (CopiesQuestion(e.msg, query, q, e.info) ==> forall j :: 12 <= j < q.qend - 4 ==>
        LowerByte(query[j]) == LowerByte(e.msg[j]))
  }

  lemma EntParsed(e: Ent)
    requires EntOK(e)
    ensures ParseResponse(e.msg) == Good(e.info) && |e.msg| >= 12
  {
  }

  /** The fixed part of a parsed question. */
  lemma QuestionFields(b: bytes, m: Info)
    requires ParseResponse(b) == Good(m)
    ensures 16 < m.q.qend <= |b| && Question(b) == Parsed(m.q.(hasOPT := false)) && Counts(b) <= MAX_RECORDS
    ensures m.q.qtype == U16(b, m.q.qend - 4) && m.q.qclass == U16(b, m.q.qend - 2)
    ensures m.flags == U16(b, 2) == m.q.flags && m.q.id == m.id && NameOf(b, 12) == Name(m.q.qname, m.q.qend - 4)
    ensures ScanRecords(b, m.q.qend, 0, Counts(b), U16(b, 6), U16(b, 8), EmptyInfo(Question(b).q, U16(b, 6))) == Good(m)
  {
    hide ScanRecords, NameOf, Skip;
    SkipStopsWhereReadStops(b, 12);
    var q := Question(b).q;
    ScanKeepsQuestion(b, q.qend, 0, Counts(b), U16(b, 6), U16(b, 8), EmptyInfo(q, U16(b, 6)));
  }

  lemma ServedTTLField(e: Ent, query: bytes, q: Query, now: int, i: nat)
    requires EntOK(e) && q.qend >= 12 && i < |e.info.ttlOffsets|
    ensures Servable(e, q) && InMessage(e.msg, e.info.ttlOffsets)
    ensures var o := e.info.ttlOffsets[i];
      U32(Served(e, query, q, now), o) == Left(MaskTTL(U32(e.msg, o)), Elapsed(now, e.stored))
  {
    hide EntOK, Served, Elapsed, U32, MaskTTL;
    Offsets(e);
    FieldValue(e, i);
    ServedField(e, query, q, now, i);
  }

  lemma SameTypeOctets(b: bytes, c: bytes, o: nat)
    requires o + 4 <= |b| && o + 4 <= |c| && U16(b, o) == U16(c, o) && U16(b, o + 2) == U16(c, o + 2)
    ensures forall j :: o <= j < o + 4 ==> b[j] == c[j]
  {
  }

  lemma TypesCopied(e: Ent, query: bytes, q: Query)
    requires EntOK(e) && ParseQuery(query) == Parsed(q) && q.qtype == e.info.q.qtype && q.qclass == e.info.q.qclass
    requires q.qend == e.info.q.qend
    ensures 16 < q.qend <= |query| && q.qend <= |e.msg|
    ensures forall j :: q.qend - 4 <= j < q.qend ==> query[j] == e.msg[j]
  {
    hide *;
    EntParsed(e);
    AskedFields(query, q);
    QuestionFields(e.msg, e.info);
    SameTypeOctets(query, e.msg, q.qend - 4);
  }

  lemma AskedFields(query: bytes, q: Query)
    requires ParseQuery(query) == Parsed(q)
    ensures 16 < q.qend <= |query| && q.qtype == U16(query, q.qend - 4) && q.qclass == U16(query, q.qend - 2)
  {
    hide ParseQuery, NameOf, U16;
    ParsedQuery(query);
  }

  lemma OffsetsBehind(e: Ent)
    requires EntOK(e)
    ensures 16 < e.info.q.qend <= |e.msg| && InMessage(e.msg, e.info.ttlOffsets)
            && Spaced(e.info.ttlOffsets, e.info.q.qend, |e.msg|)
    ensures forall i :: 0 <= i < |e.info.ttlOffsets| ==> e.info.q.qend <= e.info.ttlOffsets[i]
  {
    hide *;
    EntParsed(e);
    QuestionFields(e.msg, e.info);
    ParsedTTLs(e.msg, e.info);
    forall i | 0 <= i < |e.info.ttlOffsets| ensures e.info.q.qend <= e.info.ttlOffsets[i] {
      SpacedBelow(e.info.ttlOffsets, e.info.q.qend, |e.msg|, i);
    }
  }

  /** An octet of a served answer outside its TTL fields. */
  lemma ServedOctet(e: Ent, query: bytes, q: Query, now: int, j: nat)
    requires EntOK(e) && ParseQuery(query) == Parsed(q) && SameAsked(e, query, q) && 4 <= j < |e.msg|
    requires forall i :: 0 <= i < |e.info.ttlOffsets| ==> !(e.info.ttlOffsets[i] <= j < e.info.ttlOffsets[i] + 4)
    ensures Servable(e, q)
    ensures 12 <= j < e.info.q.qend - 4 ==> LowerByte(Served(e, query, q, now)[j]) == LowerByte(e.msg[j])
    ensures j < 12 || e.info.q.qend - 4 <= j ==> Served(e, query, q, now)[j] == e.msg[j]
  {
    hide ParseQuery, EntOK, Served, LowerByte;
    AskedFields(query, q);
    ServedTouches(e, query, q, now, j);
    if q.qend == e.info.q.qend {
      TypesCopied(e, query, q);
    }
  }

  /** A served answer is near the stored one. */
  lemma ServedIsNear(e: Ent, query: bytes, q: Query, now: int)
    requires EntOK(e) && ParseQuery(query) == Parsed(q) && SameAsked(e, query, q)
    ensures Servable(e, q)
    ensures Near(e.msg, Served(e, query, q, now), e.info.ttlOffsets, e.info.q.qend, Elapsed(now, e.stored))
  {
    hide ParseQuery, EntOK, Served, Elapsed, U32, MaskTTL, SameAsked, Left, LowerByte, Spaced;
    AskedFields(query, q);
    OffsetsBehind(e);
    MadeServable(e);
    var b, c, offs, qend := e.msg, Served(e, query, q, now), e.info.ttlOffsets, e.info.q.qend;
    forall i | 0 <= i < |offs| ensures U32(c, offs[i]) == Left(MaskTTL(U32(b, offs[i])), Elapsed(now, e.stored)) {
      ServedTTLField(e, query, q, now, i);
    }
    forall j | 12 <= j < qend - 4 ensures LowerByte(c[j]) == LowerByte(b[j]) { ServedOctet(e, query, q, now, j); }
    forall j | 4 <= j < 12 ensures c[j] == b[j] { ServedOctet(e, query, q, now, j); }
    forall j | qend - 4 <= j < |b| && Free(offs, j) ensures c[j] == b[j] { ServedOctet(e, query, q, now, j); }
  }

  lemma ServedFlagsField(e: Ent, query: bytes, q: Query, now: int)
    requires EntOK(e) && ParseQuery(query) == Parsed(q)
    ensures Servable(e, q)
    ensures var c := Served(e, query, q, now);
      && U16(c, 0) == q.id && U16(c, 2) == ServedFlags(e.info.flags, q.flags) && U16(c, 2) % 16 == e.info.flags % 16
  {
    hide *;
    EntParsed(e);
    ParsedBounds(query, q);
    QuestionFields(e.msg, e.info);
    HeaderIs(e, query, q, now);
    FlagsOnly(e.info.flags, q.flags, 0);
    FlagsNibble(e.info.flags, q.flags);
  }

  lemma HeaderIs(e: Ent, query: bytes, q: Query, now: int)
    requires EntOK(e) && q.qend >= 12 && |e.msg| >= 12
    ensures Servable(e, q)
    ensures var c := Served(e, query, q, now);
      U16(c, 0) == q.id % 0x1_0000 && U16(c, 2) == ServedFlags(U16(e.msg, 2), q.flags) % 0x1_0000
  {
    hide EntOK, Served, ServedHead, ServedFlags, Be16, U16;
    ServedPrefix(e, query, q, now);
    var c, h := Served(e, query, q, now), ServedHead(e.msg, query, q, e.info);
    HeadFields(e.msg, query, q, e.info, h);
    PrefixFields(c, h, e.info.q.qend);
    U16Of(c, 0, q.id);
    U16Of(c, 2, ServedFlags(U16(e.msg, 2), q.flags));
  }

  lemma FlagsNibble(f: nat, query: nat)
    ensures ServedFlags(f, query) % 16 == f % 16
  {
    hide SetBit, Bit;
    SetBitNibble(f, 8, Bit(query, 8));
    SetBitNibble(SetBit(f, 8, Bit(query, 8)), 4, Bit(query, 4));
  }

  lemma NearHeader(b: bytes, c: bytes, offs: seq<nat>, qend: nat, el: nat)
    requires Near(b, c, offs, qend, el) && forall i :: 0 <= i < |offs| ==> qend <= offs[i]
    ensures |c| == |b| >= qend >= 16 && U16(c, 4) == U16(b, 4) && U16(c, 6) == U16(b, 6) && U16(c, 8) == U16(b, 8)
            && U16(c, 10) == U16(b, 10)
    ensures U16(c, qend - 4) == U16(b, qend - 4) && U16(c, qend - 2) == U16(b, qend - 2)
  {
    forall j | qend - 4 <= j < qend ensures c[j] == b[j] {
      assert Free(offs, j);
    }
  }

  /** Two near messages have the same question. */
  lemma QuestionNear(b: bytes, c: bytes, m: Info, el: nat)
    requires ParseResponse(b) == Good(m) && Near(b, c, m.ttlOffsets, m.q.qend, el)
            && NameClear(b, 12, 0, m.ttlOffsets, m.q.qend)
    requires forall i :: 0 <= i < |m.ttlOffsets| ==> m.q.qend <= m.ttlOffsets[i]
    ensures |b| >= 12 && |c| >= 12 && Question(b).Parsed?
            && Question(c) == Parsed(Question(b).q.(id := U16(c, 0), flags := U16(c, 2)))
    ensures U16(c, 6) == U16(b, 6) && U16(c, 8) == U16(b, 8) && Counts(c) == Counts(b)
  {
    hide ParseResponse, ScanRecords, NameClear, ReadFrom, Near, U16;
    QuestionFields(b, m);
    NearHeader(b, c, m.ttlOffsets, m.q.qend, el);
    NameSame(b, c, m.ttlOffsets, m.q.qend, el, 12);
  }

  lemma ResponseScan(c: bytes)
    requires |c| >= 12 && Question(c).Parsed? && Counts(c) <= MAX_RECORDS
    ensures ParseResponse(c) == ScanRecords(c, Question(c).q.qend, 0, Counts(c), U16(c, 6), U16(c, 8),
            EmptyInfo(Question(c).q, U16(c, 6)))
  {
    hide Question, ScanRecords, U16, Counts;
  }

  lemma StartOlder(q: Query, id: nat, flags: nat, an: nat, el: nat)
    requires flags % 16 == q.flags % 16
    ensures Older(EmptyInfo(q, an), EmptyInfo(q.(id := id, flags := flags), an), el)
  {
  }

  /** What the client parses from a hit: ID and flags for its query, the stored question, and the stored
      records, each with its owner, type and data, older by the whole seconds since the answer came. */
  lemma HitReads(e: Ent, query: bytes, q: Query, now: int)
    requires EntOK(e) && ParseQuery(query) == Parsed(q) && SameAsked(e, query, q) && Legible(e.msg, e.info)
    ensures Servable(e, q)
    ensures var s := ParseResponse(Served(e, query, q, now));
      && s.Good? && Older(e.info, s.m, Elapsed(now, e.stored))
      && s.m.id == q.id && s.m.flags == ServedFlags(e.info.flags, q.flags)
  {
    hide EntOK, ParseQuery, ParseResponse, Near, NameClear, RecordsClear, Older, Question, ScanRecords, Spaced, U16,
      SameAsked, Counts, Served, ServedFlags, Elapsed, InMessage, Servable, NameOf;
    EntParsed(e);
    OffsetsBehind(e);
    ServedIsNear(e, query, q, now);
    ServedFlagsField(e, query, q, now);
    QuestionFields(e.msg, e.info);
    var b, c, m, el := e.msg, Served(e, query, q, now), e.info, Elapsed(now, e.stored);
    QuestionNear(b, c, m, el);
    var x, y := EmptyInfo(Question(b).q, U16(b, 6)), EmptyInfo(Question(c).q, U16(c, 6));
    StartOlder(Question(b).q, U16(c, 0), U16(c, 2), U16(b, 6), el);
    SpacedNone(m.q.qend);
    ScanOlder(b, c, m.q.qend, 0, Counts(b), U16(b, 6), U16(b, 8), x, y, m, el);
    ResponseScan(c);
  }

  lemma SpacedNone(p: nat)
    ensures Spaced([], p, p)
  {
  }

  // ----- Questions written out -----

  lemma {:induction false} WrittenAlike(a: seq<bytes>, b: seq<bytes>)
    requires AllOK(a) && AllOK(b) && SameName(a, b)
    ensures Lower(EncLabels(a)) == Lower(EncLabels(b)) && |EncLabels(a)| == |EncLabels(b)|
    decreases |a|
  {
    assert |a| == |LowerAll(a)| == |LowerAll(b)| == |b|;
    if a != [] {
      assert LowerAll(a)[0] == Lower(a[0]) && LowerAll(b)[0] == Lower(b[0]);
      assert LowerAll(a[1..]) == LowerAll(a)[1..] && LowerAll(b[1..]) == LowerAll(b)[1..];
      WrittenAlike(a[1..], b[1..]);
      assert |a[0]| == |Lower(a[0])| == |b[0]|;
      LowerConcat([|a[0]| % 256] + a[0], EncLabels(a[1..]));
      LowerConcat([|b[0]| % 256] + b[0], EncLabels(b[1..]));
      LowerConcat([|a[0]| % 256], a[0]);
      LowerConcat([|b[0]| % 256], b[0]);
    }
  }

  lemma OctetsAlike(b: bytes, c: bytes, v: bytes, w: bytes, j: nat)
    requires Holds(b, 12, v) && Holds(c, 12, w) && Lower(v) == Lower(w) && 12 <= j < 12 + |v|
    ensures j < |b| && j < |c| && LowerByte(b[j]) == LowerByte(c[j])
  {
    assert |v| == |Lower(v)| == |w|;
    HoldsSlice(b, 12, v);
    HoldsSlice(c, 12, w);
    assert b[j] == b[12..12 + |v|][j - 12] && c[j] == c[12..12 + |w|][j - 12];
    assert Lower(v)[j - 12] == LowerByte(v[j - 12]) && Lower(w)[j - 12] == LowerByte(w[j - 12]);
  }

  lemma AskedAlike(e: Ent, query: bytes, q: Query, ls: seq<bytes>, ms: seq<bytes>)
    requires EntOK(e) && ParseQuery(query) == Parsed(q) && q.qtype == e.info.q.qtype && q.qclass == e.info.q.qclass
    requires AllOK(ls) && AllOK(ms) && Holds(query, 12, EncLabels(ls)) && Holds(e.msg, 12, EncLabels(ms))
            && SameName(ls, ms)
    ensures SameAsked(e, query, q)
  {
    hide EntOK, ParseQuery, ParseResponse, Holds, EncLabels, LowerByte, Lower, SameName, AllOK, Joined, Be16, U16,
      NameOf, ScanRecords;
    WrittenOut(query, q, ls);
    WrittenAlike(ls, ms);
    AskedFields(query, q);
    if CopiesQuestion(e.msg, query, q, e.info) {
      forall j | 12 <= j < q.qend - 4 ensures LowerByte(query[j]) == LowerByte(e.msg[j]) {
        OctetsAlike(query, e.msg, EncLabels(ls), EncLabels(ms), j);
      }
    }
  }

  /** For names written out, without dots in their labels: what is served from the cache parses as an
      answer to the query, with the stored records, older by the whole seconds since they came. */
  lemma CachedReads(query: bytes, es: seq<Ent>, internal: bool, allowed: bool, blocked: bool, now: int,
                    upstream: Option<bytes>, ls: seq<bytes>, ms: seq<bytes>)
    requires AllMade(es) && AllAbout(es)
    requires Decide(query, es, internal, allowed, blocked, now, upstream).Cached?
    requires AllOK(ls) && Holds(query, 12, EncLabels(ls)) && Dotless(ls)
    requires var e := Decide(query, es, internal, allowed, blocked, now, upstream).e;
      AllOK(ms) && Holds(e.msg, 12, EncLabels(ms)) && Dotless(ms) && Legible(e.msg, e.info)
    ensures var e, q := Decide(query, es, internal, allowed, blocked, now, upstream).e, ParseQuery(query).q;
      && ParseQuery(query).Parsed? && Servable(e, q)
      && var s := ParseResponse(Served(e, query, q, now));
        && s.Good? && SameQuestion(q, s.m) && Older(e.info, s.m, Elapsed(now, e.stored))
        && s.m.flags == ServedFlags(e.info.flags, q.flags)
  {
    hide AllMade, AllAbout, Decide, ParseQuery, ParseResponse, EntOK, Holds, EncLabels, AllOK, Dotless, Legible, Served,
      ServedFlags, Elapsed, Dropped, Cacheable, CacheKey, SameText, SameName, LabelsFrom, NameOf, ScanRecords, Joined,
      Lower, U16, Be16, Servable, InMessage, Question, Counts, Aged, Left;
    var d := Decide(query, es, internal, allowed, blocked, now, upstream);
    DecisionOK(query, es, internal, allowed, blocked, now, upstream);
    CachedNames(query, es, internal, allowed, blocked, now, upstream);
    CachedIsAbout(query, es, internal, allowed, blocked, now, upstream);
    CachedParsed(query);
    EntParsed(d.e);
    QuestionFields(d.e.msg, d.e.info);
    ReadWhole(d.e.msg, ms);
    WrittenOut(query, ParseQuery(query).q, ls);
    LabelsWritten(query, 12, 0, ls);
    LabelsWritten(d.e.msg, 12, 0, ms);
    var q := ParseQuery(query).q;
    AskedAlike(d.e, query, q, ls, ms);
    HitReads(d.e, query, q, now);
    var s := ParseResponse(Served(d.e, query, q, now)).m;
    assert s.q.qname == d.e.info.q.qname && s.q.qtype == d.e.info.q.qtype && s.q.qclass == d.e.info.q.qclass;
  }

  lemma CachedParsed(query: bytes)
    ensures !Dropped(query) ==> ParseQuery(query).Parsed?
  {
    hide ParseQuery;
  }

  lemma {:induction false} WrittenIsClear(b: bytes, off: nat, hops: nat, ls: seq<bytes>, offs: seq<nat>, qend: nat)
    requires AllOK(ls) && Holds(b, off, EncLabels(ls)) && FreeSpan(offs, off, off + |EncLabels(ls)|)
    ensures NameClear(b, off, hops, offs, qend)
    decreases |ls|
  {
    if ls == [] {
      HoldsOne(b, off, 0);
    } else {
      EncLabelsCons(b, off, ls);
      assert Free(offs, off);
      WrittenIsClear(b, off + 1 + |ls[0]|, hops + 1, ls[1..], offs, qend);
    }
  }

  lemma PointerIsClear(b: bytes, p: nat, offs: seq<nat>, qend: nat)
    requires p + 2 <= |b| && b[p] == 192 && U16(b, p) == 0xC00C && 12 < qend <= p && Free(offs, p) && Free(offs, p + 1)
    requires NameClear(b, 12, 1, offs, qend)
    ensures NameClear(b, p, 0, offs, qend)
  {
    hide U16, Free;
  }

  /** The parts of the answer that matter here. */
  lemma AnswerFields(ls: seq<bytes>, m: Info)
    requires Askable(ls) && ParseResponse(AnswerTo(ls)) == Good(m)
    ensures var b, p := AnswerTo(ls), 16 + |EncLabels(ls)|;
      && m.ttlOffsets == [p + 6] && m.q.qend == p && Holds(b, 12, EncLabels(ls))
      && p + 4 <= |b| && U16(b, p) == 0xC00C && b[p] == 192 && U16(b, p + 2) == TYPE_A && U16(b, 6) == 1
          && Counts(b) == 1
      && NameOf(b, p).Name? && NameOf(b, p).next == p + 2
  {
    hide ParseQuery, ParseResponse, BlockReply, Holds, Header, Zeros, ZeroRecord, EncLabels, Joined, Lower, AllOK,
      ReplyFlags, U16, U32, Be16, AskFor, NameOf, Bit;
    AskParses(ls);
    var b, q, p := AnswerTo(ls), QueryFor(ls), 16 + |EncLabels(ls)|;
    WrittenOut(AskFor(ls), q, ls);
    BlockReplyRoundTrip(AskFor(ls), q, ls);
    BlockParts(AskFor(ls), q, 4, b, AskFor(ls)[12..p]);
    HoldsAppend(b, 12, EncLabels(ls), Be16(TYPE_A) + Be16(1));
    HoldsHeader(b, 0, ReplyFlags(q.flags, 0), 1, 1, 0, 0);
    HoldsZeroRecord(b, p, TYPE_A, 4);
    NameByPointer(b, p, ls);
  }

  lemma OneRecordClear(b: bytes, p: nat, offs: seq<nat>)
    requires NameClear(b, p, 0, offs, p) && NameOf(b, p).Name? && NameOf(b, p).next == p + 2
    requires p + 4 <= |b| && U16(b, p + 2) == TYPE_A
    ensures RecordsClear(b, p, 0, 1, 1, offs, p)
  {
    hide NameClear, NameOf, U16;
  }

  lemma FreeBefore(p: nat)
    requires p >= 16
    ensures FreeSpan([p + 6], 12, p - 4) && Free([p + 6], p) && Free([p + 6], p + 1)
  {
  }

  /** An answer whose only record has a pointer to the question for its owner is such a message. */
  lemma AnswerIsLegible(ls: seq<bytes>, m: Info)
    requires Askable(ls) && ParseResponse(AnswerTo(ls)) == Good(m)
    ensures Legible(AnswerTo(ls), m)
  {
    hide Holds, EncLabels, AllOK, Joined, Free, FreeSpan, NameClear, RecordsClear, NameOf, U16, ParseResponse, AnswerTo,
      Counts;
    AnswerFields(ls, m);
    var b, p, offs := AnswerTo(ls), 16 + |EncLabels(ls)|, m.ttlOffsets;
    FreeBefore(p);
    WrittenIsClear(b, 12, 0, ls, offs, p);
    WrittenIsClear(b, 12, 1, ls, offs, p);
    PointerIsClear(b, p, offs, p);
    OneRecordClear(b, p, offs);
  }
}
