/** What the answer cache guarantees: who is served what, and for how long. */
module DnsCaching {
  import opened Common
  import opened Bytes
  import opened DnsWire
  import opened DnsCache

  // ----- Served answers -----

  lemma U32Of(b: bytes, o: nat, n: nat)
    requires o + 4 <= |b| && b[o..o + 4] == Be32(n)
    ensures U32(b, o) == n % 0x1_0000_0000
  {
    var s := b[o..o + 4];
    assert s[0] == b[o] && s[1] == b[o + 1] && s[2] == b[o + 2] && s[3] == b[o + 3];
  }

  /** Rewriting TTL fields leaves everything before the first of them alone. */
  lemma {:induction false} RetimeBefore(out: bytes, offs: seq<nat>, ttls: seq<nat>, el: nat, lo: nat)
    requires |offs| == |ttls| && InMessage(out, offs) && Spaced(offs, lo, |out|)
    ensures lo <= |out| && Retime(out, offs, ttls, el)[..lo] == out[..lo]
    decreases |offs|
  {
    hide Be32;
    if offs != [] {
      var out2 := Put(out, offs[0], Be32(Left(ttls[0], el)));
      RetimeBefore(out2, offs[1..], ttls[1..], el, offs[0] + 4);
      var r := Retime(out, offs, ttls, el);
      assert forall j :: 0 <= j < lo ==> r[j] == r[..offs[0] + 4][j] == out2[..offs[0] + 4][j] == out[j];
    }
  }

  /** Every field holds its own new value. */
  lemma {:induction false} RetimeAt(out: bytes, offs: seq<nat>, ttls: seq<nat>, el: nat, lo: nat, i: nat)
    requires |offs| == |ttls| && InMessage(out, offs) && Spaced(offs, lo, |out|) && i < |offs|
    ensures U32(Retime(out, offs, ttls, el), offs[i]) == Left(ttls[i], el) % 0x1_0000_0000
    decreases |offs|
  {
    hide Be32, U32;
    var v := Be32(Left(ttls[0], el));
    var out2 := Put(out, offs[0], v);
    var r := Retime(out, offs, ttls, el);
    if i > 0 {
      RetimeAt(out2, offs[1..], ttls[1..], el, offs[0] + 4, i - 1);
    } else {
      var o := offs[0];
      RetimeBefore(out2, offs[1..], ttls[1..], el, o + 4);
      assert r[o..o + 4] == r[..o + 4][o..] == out2[..o + 4][o..] == v;
      U32Of(r, o, Left(ttls[0], el));
    }
  }

  /** Octets outside the fields stay. */
  lemma {:induction false} RetimeElsewhere(out: bytes, offs: seq<nat>, ttls: seq<nat>, el: nat, j: nat)
    requires |offs| == |ttls| && InMessage(out, offs) && j < |out|
    requires forall i :: 0 <= i < |offs| ==> !(offs[i] <= j < offs[i] + 4)
    ensures Retime(out, offs, ttls, el)[j] == out[j]
    decreases |offs|
  {
    hide Be32;
    if offs != [] {
      var out2 := Put(out, offs[0], Be32(Left(ttls[0], el)));
      assert out2[j] == out[j];
      assert forall i :: 0 <= i < |offs| - 1 ==> offs[1..][i] == offs[i + 1];
      RetimeElsewhere(out2, offs[1..], ttls[1..], el, j);
    }
  }

  /** What `Put` recorded about a message it took. */
  lemma Made(e: Ent)
    requires EntOK(e)
    ensures Spaced(e.ttlOffs, e.info.q.qend, |e.msg|) && 12 < e.info.q.qend && |e.ttlOffs| == |e.ttls|
    ensures InMessage(e.msg, e.ttlOffs) && e.ttls == TtlsOf(e.msg, e.ttlOffs) && LeastTTL(e.msg, e.info)
    ensures e.ttlOffs == e.info.ttlOffsets && e.expire == e.stored + CacheTTL(e.info) * SECOND
    ensures |e.msg| >= 12
  {
    ParsedTTLs(e.msg, e.info);
    hide ParseResponse, CacheTTL, LeastTTL, Spaced;
  }

  lemma WholeSeconds(now: int, stored: int, ttl: nat)
    requires stored <= now < stored + ttl * SECOND && ttl <= MAX_TTL
    ensures Elapsed(now, stored) == (now - stored) / SECOND < ttl
  {
    var d := now - stored;
    assert d / SECOND < ttl;
  }

  lemma CacheTTLBound(m: Info)
    ensures CacheTTL(m) <= MAX_TTL
  {
  }

  lemma ServedField(e: Ent, query: bytes, q: Query, now: int, i: nat)
    requires EntOK(e) && q.qend >= 12 && i < |e.ttlOffs|
    ensures Servable(e, q)
    ensures U32(Served(e, query, q, now), e.ttlOffs[i]) == Left(e.ttls[i], Elapsed(now, e.stored)) % 0x1_0000_0000
  {
    Made(e);
    MadeServable(e);
    hide EntOK, U32, Spaced, ServedHead, Elapsed, Left, LeastTTL, CacheTTL;
    RetimeAt(ServedHead(e.msg, query, q, e.info), e.ttlOffs, e.ttls, Elapsed(now, e.stored), e.info.q.qend, i);
  }

  lemma FieldValue(e: Ent, i: nat)
    requires EntOK(e) && i < |e.ttlOffs|
    ensures e.ttlOffs == e.info.ttlOffsets && InMessage(e.msg, e.ttlOffs) && |e.ttls| == |e.ttlOffs|
    ensures e.ttls[i] == MaskTTL(U32(e.msg, e.ttlOffs[i])) <= 0x7FFF_FFFF
    ensures e.info.rcode == RCODE_NOERROR && e.info.anCount > 0 ==> CacheTTL(e.info) <= e.ttls[i]
    ensures e.expire == e.stored + CacheTTL(e.info) * SECOND
  {
    Made(e);
    hide EntOK, U32, Spaced;
  }

  /** Every TTL served is the original one less the whole seconds the entry has been kept, or
      zero; and of a positive answer, as long as it is served, every TTL is at least 1. */
  lemma ServedTTLs(e: Ent, query: bytes, q: Query, now: int, i: nat)
    requires EntOK(e) && q.qend >= 12 && e.stored <= now < e.expire && i < |e.info.ttlOffsets|
    ensures Servable(e, q) && InMessage(e.msg, e.info.ttlOffsets)
    ensures var o, was := e.info.ttlOffsets[i], MaskTTL(U32(e.msg, e.info.ttlOffsets[i]));
      var kept := (now - e.stored) / SECOND;
      && U32(Served(e, query, q, now), o) == Max(0, was - kept)
      && (e.info.rcode == RCODE_NOERROR && e.info.anCount > 0 ==> kept < was)
  {
    hide EntOK, U32, MaskTTL, CacheTTL, Served, Elapsed, Left;
    Offsets(e);
    FieldValue(e, i);
    CacheTTLBound(e.info);
    WholeSeconds(now, e.stored, CacheTTL(e.info));
    ServedField(e, query, q, now, i);
    LeftIs(e.ttls[i], Elapsed(now, e.stored));
  }

  lemma Offsets(e: Ent)
    requires EntOK(e)
    ensures e.ttlOffs == e.info.ttlOffsets
  {
    hide ParseResponse, CacheTTL, TtlsOf;
  }

  lemma LeftIs(was: nat, kept: nat)
    requires was <= 0x7FFF_FFFF
    ensures Left(was, kept) % 0x1_0000_0000 == Max(0, was - kept)
  {
  }

  /** A served answer differs from the stored one only in its ID, the flag octets, the question
      if the client's has the same length, and the TTL fields. */
  lemma ServedTouches(e: Ent, query: bytes, q: Query, now: int, j: nat)
    requires EntOK(e) && q.qend >= 12 && 4 <= j < |e.msg|
    requires forall i :: 0 <= i < |e.info.ttlOffsets| ==> !(e.info.ttlOffsets[i] <= j < e.info.ttlOffsets[i] + 4)
    ensures Servable(e, q)
    ensures Served(e, query, q, now)[j] ==
            if CopiesQuestion(e.msg, query, q, e.info) && 12 <= j < q.qend then query[j] else e.msg[j]
  {
    hide EntOK, Elapsed, Be16, ServedHead, CopiesQuestion;
    Offsets(e);
    MadeServable(e);
    var head := ServedHead(e.msg, query, q, e.info);
    HeadElsewhere(e.msg, query, q, e.info, head, j);
    RetimeElsewhere(head, e.ttlOffs, e.ttls, Elapsed(now, e.stored), j);
  }

  lemma HeadElsewhere(msg: bytes, query: bytes, q: Query, info: Info, head: bytes, j: nat)
    requires |msg| >= 12 && q.qend >= 12 && head == ServedHead(msg, query, q, info) && 4 <= j < |msg|
    ensures head[j] == if CopiesQuestion(msg, query, q, info) && 12 <= j < q.qend then query[j] else msg[j]
  {
    hide Be16, U16, ServedFlags;
  }

  lemma U16Of(b: bytes, o: nat, n: nat)
    requires o + 2 <= |b| && b[o..o + 2] == Be16(n)
    ensures U16(b, o) == n % 0x1_0000
  {
    var s := b[o..o + 2];
    assert s[0] == b[o] && s[1] == b[o + 1];
  }

  /** The first octets of a served answer, up to the end of the stored question. */
  lemma ServedPrefix(e: Ent, query: bytes, q: Query, now: int)
    requires EntOK(e) && q.qend >= 12
    ensures Servable(e, q) && 12 < e.info.q.qend <= |e.msg|
    ensures Served(e, query, q, now)[..e.info.q.qend] == ServedHead(e.msg, query, q, e.info)[..e.info.q.qend]
  {
    Made(e);
    MadeServable(e);
    hide EntOK, Spaced, Elapsed, ServedHead;
    RetimeBefore(ServedHead(e.msg, query, q, e.info), e.ttlOffs, e.ttls, Elapsed(now, e.stored), e.info.q.qend);
  }

  lemma FlagsOnly(f: nat, query: nat, k: nat)
    requires f < 0x1_0000
    ensures ServedFlags(f, query) < 0x1_0000
    ensures Bit(ServedFlags(f, query), k) == if k == 8 || k == 4 then Bit(query, k) else Bit(f, k)
  {
    hide SetBit, Bit;
    var f8 := SetBit(f, 8, Bit(query, 8));
    SetBitOnly(f, 8, Bit(query, 8), k);
    SetBitOnly(f8, 4, Bit(query, 4), k);
    SetBitBelow(f, 8, Bit(query, 8));
    SetBitBelow(f8, 4, Bit(query, 4));
  }

  /** It carries the ID of the query and its RD and CD bits; the other flags are as stored. */
  lemma ServedHeader(e: Ent, query: bytes, q: Query, now: int, k: nat)
    requires EntOK(e) && q.qend >= 12 && q.id < 0x1_0000
    ensures Servable(e, q)
    ensures var r := Served(e, query, q, now);
      && U16(r, 0) == q.id
      && Bit(U16(r, 2), k) == if k == 8 || k == 4 then Bit(q.flags, k) else Bit(U16(e.msg, 2), k)
  {
    ServedPrefix(e, query, q, now);
    Made(e);
    var r, h, f := Served(e, query, q, now), ServedHead(e.msg, query, q, e.info), U16(e.msg, 2);
    HeaderOf(r, h, e.msg, query, q, e.info, f, k);
  }

  lemma HeaderOf(r: bytes, h: bytes, msg: bytes, query: bytes, q: Query, info: Info, f: nat, k: nat)
    requires |msg| >= 12 && q.qend >= 12 && h == ServedHead(msg, query, q, info) && f == U16(msg, 2)
    requires 12 <= info.q.qend <= |r| && |h| == |r| && r[..info.q.qend] == h[..info.q.qend] && q.id < 0x1_0000
    ensures U16(r, 0) == q.id && Bit(U16(r, 2), k) == if k == 8 || k == 4 then Bit(q.flags, k) else Bit(f, k)
  {
    hide SetBit, Bit, Be16, U16, ServedHead, ServedFlags;
    FlagsOnly(f, q.flags, k);
    HeadFields(msg, query, q, info, h);
    PrefixFields(r, h, info.q.qend);
    U16Of(r, 0, q.id);
    U16Of(r, 2, ServedFlags(f, q.flags));
  }

  lemma PrefixFields(r: bytes, h: bytes, n: nat)
    requires 12 <= n <= |r| && n <= |h| && r[..n] == h[..n]
    ensures r[0..2] == h[0..2] && r[2..4] == h[2..4] && r[4..6] == h[4..6]
  {
    assert r[0..2] == r[..n][0..2] && h[0..2] == h[..n][0..2];
    assert r[2..4] == r[..n][2..4] && h[2..4] == h[..n][2..4];
    assert r[4..6] == r[..n][4..6] && h[4..6] == h[..n][4..6];
  }

  lemma HeadFields(msg: bytes, query: bytes, q: Query, info: Info, head: bytes)
    requires |msg| >= 12 && q.qend >= 12 && head == ServedHead(msg, query, q, info)
    ensures head[0..2] == Be16(q.id) && head[2..4] == Be16(ServedFlags(U16(msg, 2), q.flags))
  {
    hide Be16, U16, ServedFlags;
  }

  // ----- Keys -----

  predicate NoPipe(s: bytes) { forall i :: 0 <= i < |s| ==> s[i] != PIPE }

  /** The text behind the last bar. */
  function LastField(s: bytes): bytes {
    if s == [] || s[|s| - 1] == PIPE then [] else LastField(s[..|s| - 1]) + [s[|s| - 1]]
  }

  lemma {:induction false} LastFieldOf(x: bytes, f: bytes)
    requires NoPipe(f)
    ensures LastField(x + [PIPE] + f) == f
    decreases |f|
  {
    var s := x + [PIPE] + f;
    if f == [] {
      assert s[|s| - 1] == PIPE;
    } else {
      var f2 := f[..|f| - 1];
      LastFieldOf(x, f2);
      assert s[..|s| - 1] == x + [PIPE] + f2;
      assert f == f2 + [f[|f| - 1]];
    }
  }

  /** Where two texts end in fields, equal texts have equal fields and equal beginnings. */
  lemma SameField(x: bytes, f: bytes, y: bytes, g: bytes)
    requires NoPipe(f) && NoPipe(g) && x + [PIPE] + f == y + [PIPE] + g
    ensures x == y && f == g
  {
    LastFieldOf(x, f);
    LastFieldOf(y, g);
    assert x == (x + [PIPE] + f)[..|x|] && y == (y + [PIPE] + g)[..|y|];
  }

  /** An optional tag can be told from a last field that is not the tag. */
  lemma SameTag(a: bytes, on: bool, b: bytes, on2: bool, tag: bytes, x: bytes, f: bytes, y: bytes, g: bytes)
    requires a + Tag(on, tag) == b + Tag(on2, tag) && NoPipe(tag)
    requires a == x + [PIPE] + f && b == y + [PIPE] + g && NoPipe(f) && NoPipe(g) && f != tag && g != tag
    ensures on == on2 && a == b
  {
    LastFieldOf(x, f);
    LastFieldOf(y, g);
    LastFieldOf(a, tag);
    LastFieldOf(b, tag);
    assert a + ([PIPE] + tag) == a + [PIPE] + tag && b + ([PIPE] + tag) == b + [PIPE] + tag;
    assert a + [] == a && b + [] == b;
    if on && on2 {
      SameField(a, tag, b, tag);
    }
  }

  lemma {:induction false} DigitsAre(n: nat)
    ensures Digits(n) != [] && forall i :: 0 <= i < |Digits(n)| ==> 48 <= Digits(n)[i] <= 57
  {
    if n >= 10 {
      DigitsAre(n / 10);
    }
  }

  lemma {:induction false} DigitsInjective(m: nat, n: nat)
    requires Digits(m) == Digits(n)
    ensures m == n
  {
    var d, e := Digits(m), Digits(n);
    DigitsAre(m / 10);
    DigitsAre(n / 10);
    assert d[|d| - 1] == 48 + m % 10 && e[|e| - 1] == 48 + n % 10;
    if m >= 10 && n >= 10 {
      assert d[..|d| - 1] == Digits(m / 10) && e[..|e| - 1] == Digits(n / 10);
      DigitsInjective(m / 10, n / 10);
    }
  }

  /** The last field of a key before its tags, and of a key with some of its tags. */
  lemma Tagged(a: bytes, on: bool, tag: bytes, x: bytes, f: bytes) returns (y: bytes, g: bytes)
    requires a == x + [PIPE] + f && NoPipe(f) && NoPipe(tag)
    ensures a + Tag(on, tag) == y + [PIPE] + g && NoPipe(g) && g == if on then tag else f
  {
    if on {
      y, g := a, tag;
      assert a + ([PIPE] + tag) == a + [PIPE] + tag;
    } else {
      y, g := x, f;
    }
  }

  /** Two queries share a cache entry exactly when the text of the name, type, class and the EDNS, DO
      and CD indications agree, also if the text holds bars. */
  lemma CacheKeyInjective(p: Query, q: Query)
    ensures CacheKey(p) == CacheKey(q) <==>
            && p.qname == q.qname && p.qtype == q.qtype && p.qclass == q.qclass
            && p.hasOPT == q.hasOPT && p.wantDO == q.wantDO && (Bit(p.flags, 4) == 1 <==> Bit(q.flags, 4) == 1)
  {
    hide Bit, Digits;
    if CacheKey(p) == CacheKey(q) {
      DigitsAre(p.qclass);
      DigitsAre(q.qclass);
      TagsDiffer();
      var x, y := p.qname + [PIPE] + Digits(p.qtype), q.qname + [PIPE] + Digits(q.qtype);
      var cdp, cdq := Bit(p.flags, 4) == 1, Bit(q.flags, 4) == 1;
      SameKeys(x, Digits(p.qclass), p.hasOPT, p.wantDO, cdp, y, Digits(q.qclass), q.hasOPT, q.wantDO, cdq);
      SameField(x, Digits(p.qclass), y, Digits(q.qclass));
      DigitsAre(p.qtype);
      DigitsAre(q.qtype);
      SameField(p.qname, Digits(p.qtype), q.qname, Digits(q.qtype));
      DigitsInjective(p.qclass, q.qclass);
      DigitsInjective(p.qtype, q.qtype);
    }
  }

  lemma TagsDiffer()
    ensures NoPipe(TAG_E) && NoPipe(TAG_DO) && NoPipe(TAG_CD) && TAG_E != TAG_DO && TAG_DO != TAG_CD && TAG_E != TAG_CD
  {
    assert TAG_DO[0] != TAG_CD[0];
  }

  lemma SameKeys(x: bytes, f: bytes, e: bool, d: bool, c: bool, y: bytes, g: bytes, e2: bool, d2: bool, c2: bool)
    requires f != [] && g != []
    requires forall i :: 0 <= i < |f| ==> 48 <= f[i] <= 57
    requires forall i :: 0 <= i < |g| ==> 48 <= g[i] <= 57
    requires x + [PIPE] + f + Tag(e, TAG_E) + Tag(d, TAG_DO) + Tag(c, TAG_CD)
          == y + [PIPE] + g + Tag(e2, TAG_E) + Tag(d2, TAG_DO) + Tag(c2, TAG_CD)
    ensures e == e2 && d == d2 && c == c2 && x + [PIPE] + f == y + [PIPE] + g
  {
    TagsDiffer();
    assert f[0] <= 57 && g[0] <= 57;
    assert f != TAG_E && f != TAG_DO && f != TAG_CD && g != TAG_E && g != TAG_DO && g != TAG_CD;
    hide Tag, NoPipe;
    var a, b := x + [PIPE] + f, y + [PIPE] + g;
    assert NoPipe(f) && NoPipe(g) by { DigitsNoPipe(f); DigitsNoPipe(g); }
    var x1, f1 := Tagged(a, e, TAG_E, x, f);
    var y1, g1 := Tagged(b, e2, TAG_E, y, g);
    var x2, f2 := Tagged(a + Tag(e, TAG_E), d, TAG_DO, x1, f1);
    var y2, g2 := Tagged(b + Tag(e2, TAG_E), d2, TAG_DO, y1, g1);
    SameTag(a + Tag(e, TAG_E) + Tag(d, TAG_DO), c, b + Tag(e2, TAG_E) + Tag(d2, TAG_DO), c2, TAG_CD, x2, f2, y2, g2);
    SameTag(a + Tag(e, TAG_E), d, b + Tag(e2, TAG_E), d2, TAG_DO, x1, f1, y1, g1);
    SameTag(a, e, b, e2, TAG_E, x, f, y, g);
  }

  lemma DigitsNoPipe(f: bytes)
    requires forall i :: 0 <= i < |f| ==> 48 <= f[i] <= 57
    ensures NoPipe(f)
  {
  }

  // ----- Eviction -----

  /** What stays is a beginning of the list, so the most recently used, it fits, and no longer
      beginning does. */
  lemma {:induction false} TrimLongest(es: seq<Ent>, maxN: nat, maxBytes: nat, k: nat)
    requires k <= |es|
    ensures var r := Trim(es, maxN, maxBytes);
      && r <= es && FitsIn(r, maxN, maxBytes)
      && (|r| < k ==> !FitsIn(es[..k], maxN, maxBytes))
    decreases |es|
  {
    if !FitsIn(es, maxN, maxBytes) && es != [] {
      if k < |es| {
        TrimLongest(es[..|es| - 1], maxN, maxBytes, k);
        assert es[..|es| - 1][..k] == es[..k];
      } else {
        TrimLongest(es[..|es| - 1], maxN, maxBytes, 0);
        assert es[..k] == es;
      }
    }
  }

  // ----- Runs -----

  datatype Op = PutOp(key: Key, msg: bytes, info: Info, now: int) | GetOp(key: Key, now: int) | FlushOp

  predicate OpOK(op: Op) {
    op.PutOp? ==> ParseResponse(op.msg) == Good(op.info) && InMessage(op.msg, op.info.ttlOffsets)
  }

  predicate OpsOK(ops: seq<Op>) { forall i :: 0 <= i < |ops| ==> OpOK(ops[i]) }

  function Apply(es: seq<Ent>, op: Op, maxN: nat, maxBytes: nat): seq<Ent>
    requires OpOK(op)
  {
    match op
    case PutOp(key, msg, info, now) =>
      if Accepts(msg, info) then PutList(es, NewEnt(key, msg, info, now), maxN, maxBytes) else es
    case GetOp(key, now) => GetList(es, key, now)
    case FlushOp => []
  }

  /** The list after a run, newest operation last. */
  function Run(ops: seq<Op>, maxN: nat, maxBytes: nat): seq<Ent>
    requires OpsOK(ops)
  {
    if ops == [] then [] else Apply(Run(ops[..|ops| - 1], maxN, maxBytes), ops[|ops| - 1], maxN, maxBytes)
  }

  /** The plain map: the last message accepted under a key since the last flush. */
  function LastPut(ops: seq<Op>, key: Key): Option<Ent>
    requires OpsOK(ops)
  {
    if ops == [] then None else
      var op := ops[|ops| - 1];
      if op.FlushOp? then None
      else if op.PutOp? && op.key == key && Accepts(op.msg, op.info) then Some(NewEnt(key, op.msg, op.info, op.now))
      else LastPut(ops[..|ops| - 1], key)
  }

  lemma {:induction false} FindWithout(es: seq<Ent>, k: Key, key: Key)
    ensures Find(Without(es, k), key) == if key == k then None else Find(es, key)
  {
    if es != [] {
      FindWithout(es[1..], k, key);
      var w := Without(es[1..], k);
      assert ([es[0]] + w)[1..] == w;
      assert [] + w == w;
    }
  }

  lemma {:induction false} FindPrefix(es: seq<Ent>, r: seq<Ent>, key: Key)
    requires r <= es && Find(r, key).Some?
    ensures Find(es, key) == Find(r, key)
  {
    if es[0].key != key {
      FindPrefix(es[1..], r[1..], key);
    }
  }

  lemma FindPushed(es: seq<Ent>, e: Ent, key: Key)
    ensures Find([e] + Without(es, e.key), key) == if key == e.key then Some(e) else Find(es, key)
  {
    FindWithout(es, e.key, key);
    assert ([e] + Without(es, e.key))[1..] == Without(es, e.key);
  }

  lemma FindKey(es: seq<Ent>, key: Key)
    ensures Find(es, key).Some? ==> Find(es, key).value.key == key
  {
  }

  lemma NewKey(key: Key, msg: bytes, m: Info, now: int)
    requires InMessage(msg, m.ttlOffsets)
    ensures NewEnt(key, msg, m, now).key == key
  {
  }

  /** One operation: what can be found afterwards is the new entry or was found before. */
  lemma FindAfter(es: seq<Ent>, op: Op, maxN: nat, maxBytes: nat, key: Key)
    requires OpOK(op) && Find(Apply(es, op, maxN, maxBytes), key).Some?
    ensures !op.FlushOp?
    ensures Find(Apply(es, op, maxN, maxBytes), key) ==
            if op.PutOp? && op.key == key && Accepts(op.msg, op.info) then Some(NewEnt(key, op.msg, op.info, op.now))
            else Find(es, key)
  {
    hide NewEnt, Accepts, FitsIn;
    match op
    case PutOp(k, msg, info, now) =>
      if Accepts(msg, info) {
        var e := NewEnt(k, msg, info, now);
        NewKey(k, msg, info, now);
        FindPushed(es, e, key);
        TrimLongest([e] + Without(es, k), maxN, maxBytes, 0);
        FindPrefix([e] + Without(es, k), PutList(es, e, maxN, maxBytes), key);
      }
    case GetOp(k, now) =>
      FindKey(es, k);
      FindWithout(es, k, key);
      if Find(es, k).Some? {
        FindPushed(es, Find(es, k).value, key);
      }
    case FlushOp =>
  }

  /** In every run, what the cache finds under a key is the last message accepted under it: a
      rejected message leaves the older one in place. */
  lemma {:induction false} HitIsLastPut(ops: seq<Op>, maxN: nat, maxBytes: nat, key: Key)
    requires OpsOK(ops)
    ensures Find(Run(ops, maxN, maxBytes), key).Some? ==> Find(Run(ops, maxN, maxBytes), key) == LastPut(ops, key)
  {
    hide Apply, Accepts, NewEnt;
    if ops != [] && Find(Run(ops, maxN, maxBytes), key).Some? {
      var rest := ops[..|ops| - 1];
      FindAfter(Run(rest, maxN, maxBytes), ops[|ops| - 1], maxN, maxBytes, key);
      HitIsLastPut(rest, maxN, maxBytes, key);
    }
  }
}
