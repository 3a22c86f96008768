/**
 One query from parse to reply (dns_forwarder.go:359-452), as one atomic step over the cache
 and the rate limiter. The block list, the upstream exchange and the clock are parameters.
 */
module DnsHandle {
  import opened Common
  import opened Bytes
  import opened DnsWire
  import opened DnsNames
  import opened DnsMessages
  import opened DnsCache
  import opened DnsCaching

  // ----- Truncation -----

  /** The name at the start of a question ends within 258 octets, if it ends at all. */
  predicate ShortQuestion(b: bytes) { Skip(b, 12).Some? ==> Skip(b, 12).value <= 270 }

  /** A truncated message is within the limit, and one that was so before is as it was. */
  lemma TruncateFits(b: bytes, limit: nat)
    requires limit >= 512 && ShortQuestion(b)
    ensures |Truncate(b, limit)| <= limit && (|b| <= limit ==> Truncate(b, limit) == b)
  {
    hide Skip, SetTC;
  }

  /** The message says that it has one question, and has it in full. */
  predicate OneQuestion(b: bytes)
    requires |b| >= 12
  {
    U16(b, 4) == 1 && Skip(b, 12).Some? && Skip(b, 12).value + 4 <= |b|
  }

  /** A message that is too long becomes its header and question, or its header alone if it has not just
      one question, with the TC bit set, no records, and the other flags and the ID as before. */
  lemma TruncateKeeps(b: bytes, limit: nat, k: nat)
    requires 12 <= limit < |b|
    ensures var r := Truncate(b, limit);
      && 12 <= |r| && U16(r, 0) == U16(b, 0)
      && Bit(U16(r, 2), k) == (if k == 9 then 1 else Bit(U16(b, 2), k))
      && U16(r, 6) == 0 && U16(r, 8) == 0 && U16(r, 10) == 0
      && (if OneQuestion(b) then |r| == Skip(b, 12).value + 4 && r[12..] == b[12..|r|] && U16(r, 4) == 1
          else |r| == 12 && U16(r, 4) == 0)
  {
    hide SetBit, Bit, Skip, Be16, U16, Truncate, SetTC;
    var f := U16(b, 2);
    FlagTC(f, k);
    var r := Truncate(b, limit);
    TruncateForm(b, limit, r);
    TCFields(b);
    StartsAlike(r, SetTC(b[..12]), b);
    U16Of(r, 2, SetBit(f, 9, 1));
  }

  lemma FlagTC(f: nat, k: nat)
    requires f < 0x1_0000
    ensures SetBit(f, 9, 1) < 0x1_0000 && Bit(SetBit(f, 9, 1), k) == if k == 9 then 1 else Bit(f, k)
  {
    SetBitOnly(f, 9, 1, k);
    SetBitBelow(f, 9, 1);
  }

  lemma TruncateForm(b: bytes, limit: nat, r: bytes)
    requires 12 <= limit < |b| && r == Truncate(b, limit)
    ensures |r| >= 12 && r[..4] == SetTC(b[..12])[..4]
    ensures U16(r, 6) == 0 && U16(r, 8) == 0 && U16(r, 10) == 0
    ensures if OneQuestion(b) then |r| == Skip(b, 12).value + 4 && r[12..] == b[12..|r|] && U16(r, 4) == 1
            else |r| == 12 && U16(r, 4) == 0
  {
    hide Skip, Be16, SetBit;
    var head := SetTC(b[..12]);
    assert head[4] == b[4] && head[5] == b[5];
  }

  lemma TCFields(b: bytes)
    requires |b| >= 12
    ensures var h := SetTC(b[..12]); h[0..2] == b[0..2] && h[2..4] == Be16(SetBit(U16(b, 2), 9, 1))
  {
    hide Be16, SetBit;
  }

  lemma StartsAlike(r: bytes, h: bytes, b: bytes)
    requires |r| >= 4 && |h| >= 4 && |b| >= 4 && r[..4] == h[..4] && h[0..2] == b[0..2]
    ensures r[2..4] == h[2..4] && U16(r, 0) == U16(b, 0)
  {
    assert r[0] == r[..4][0] && r[1] == r[..4][1] && h[0] == h[..4][0] && h[1] == h[..4][1];
    assert h[0] == h[0..2][0] && h[1] == h[0..2][1] && b[0] == b[0..2][0] && b[1] == b[0..2][1];
    assert r[2..4] == r[..4][2..4] && h[2..4] == h[..4][2..4];
  }

  // ----- The decision -----

  datatype Decision = Drop | Refuse | Block | Cached(e: Ent) | Fail | Forward(resp: bytes, info: Info)

  /** What an upstream answer is worth for a query: nothing unless it parses and is about it. */
  function Exchange(q: Query, upstream: Option<bytes>): Decision {
    if upstream.None? then Fail else
      var m := ParseResponse(upstream.value);
      if m.BadResponse? || !SameQuestion(q, m.m) then Fail else Forward(upstream.value, m.m)
  }

  function Opcode(flags: nat): nat { flags / 2048 % 16 }

  predicate Cacheable(q: Query) { Opcode(q.flags) == 0 && q.qclass == 1 && q.optLen == 0 }

  predicate Dropped(query: bytes) { var r := ParseQuery(query); r.BadQuery? || Bit(r.q.flags, 15) == 1 }

  /** `allowed` and `blocked` are asked of clients only, not of the device itself. */
  function Decide(query: bytes, es: seq<Ent>, internal: bool, allowed: bool, blocked: bool, now: int,
                  upstream: Option<bytes>): Decision
  {
    if Dropped(query) then Drop else
      var q := ParseQuery(query).q;
      if !internal && !allowed then Refuse
      else if !internal && q.qname != [] && blocked then Block
      else Answer(q, es, now, upstream)
  }

  /** From the cache if it can, from upstream otherwise. */
  function Answer(q: Query, es: seq<Ent>, now: int, upstream: Option<bytes>): (d: Decision)
    ensures !d.Drop? && !d.Refuse? && !d.Block?
  {
    var f := if Cacheable(q) then Find(es, CacheKey(q)) else None;
    if f.Some? && now < f.value.expire then Cached(f.value) else Exchange(q, upstream)
  }

  predicate Servables(q: Query, d: Decision) { d.Cached? ==> Servable(d.e, q) }

  /** The reply before it is cut to the client's limit. */
  function Render(query: bytes, q: Query, d: Decision, zero: bool, now: int): bytes
    requires Fits(query, q) && Servables(q, d)
  {
    match d
    case Drop => []
    case Refuse => RcodeReply(query, q, RCODE_REFUSED)
    case Block => BlockReply(query, q, zero)
    case Cached(e) => Served(e, query, q, now)
    case Fail => RcodeReply(query, q, RCODE_SERVFAIL)
    case Forward(resp, _) => resp
  }

  /** A refusal goes out as it is; everything else is cut for UDP. */
  function Finish(resp: bytes, q: Query, d: Decision, udp: bool): bytes
    requires q.udpSize >= 12
  {
    if udp && !d.Refuse? then Truncate(resp, q.udpSize) else resp
  }

  /** Whether the answer is stored: not if it was cut short. */
  predicate Stores(q: Query, d: Decision) { d.Forward? && Cacheable(q) && Bit(d.info.flags, 9) == 0 }

  // ----- Every UDP reply fits -----

  lemma ParsedBounds(query: bytes, q: Query)
    requires ParseQuery(query) == Parsed(q)
    ensures Fits(query, q) && q.qend <= 274 && 512 <= q.udpSize <= 4096 && q.id == U16(query, 0) < 0x1_0000
            && q.flags < 0x1_0000
    ensures Skip(query, 12) == Some(q.qend - 4)
  {
    ParsedQuery(query);
    hide ParseQuery;
    SkipStopsWhereReadStops(query, 12);
  }

  lemma BlockLength(query: bytes, q: Query, zero: bool)
    requires Fits(query, q)
    ensures |BlockReply(query, q, zero)| <= q.qend + 39
  {
    hide AppendOPT, ReplyHeader, Zeros, Be16, Be32, RcodeReply;
    var rd := if q.qtype == TYPE_A then 4 else if q.qtype == TYPE_AAAA then 16 else 0;
    assert |Zeros(rd)| <= 16;
  }

  /** The question of a served answer is the stored one or the client's, so it is short. */
  lemma ServedIsShort(e: Ent, query: bytes, q: Query, now: int)
    requires EntOK(e) && ParseQuery(query) == Parsed(q)
    ensures Fits(query, q) && Servable(e, q)
    ensures ShortQuestion(Served(e, query, q, now))
  {
    ParsedBounds(query, q);
    ServedPrefix(e, query, q, now);
    EntQuestion(e);
    hide ParseQuery, EntOK, Served, ServedHead, Skip;
    var r, h := Served(e, query, q, now), ServedHead(e.msg, query, q, e.info);
    var qend := e.info.q.qend;
    HeadQuestion(e.msg, query, q, e.info, h);
    var src := if CopiesQuestion(e.msg, query, q, e.info) then query else e.msg;
    QuestionCopied(r, h, src, qend);
  }

  lemma QuestionCopied(r: bytes, h: bytes, src: bytes, qend: nat)
    requires 16 < qend <= |r| && qend <= |h| && qend <= |src|
    requires r[..qend] == h[..qend] && h[12..qend] == src[12..qend] && Skip(src, 12) == Some(qend - 4)
    ensures Skip(r, 12) == Some(qend - 4)
  {
    SameSlice(r, h, src, 12, qend - 4, qend);
    SkipSame(src, r, 12, 0, qend - 4);
  }

  lemma SameSlice(r: bytes, h: bytes, src: bytes, from: nat, end: nat, to: nat)
    requires from <= end <= to <= |r| && to <= |h| && to <= |src| && r[..to] == h[..to] && h[from..to] == src[from..to]
    ensures r[from..end] == src[from..end]
  {
    forall i | from <= i < end ensures r[i] == src[i] {
      assert r[i] == r[..to][i] == h[..to][i] == h[i];
      assert h[i] == h[from..to][i - from] && src[i] == src[from..to][i - from];
    }
  }

  lemma EntQuestion(e: Ent)
    requires EntOK(e)
    ensures 16 < e.info.q.qend <= 274 && e.info.q.qend <= |e.msg| && Skip(e.msg, 12) == Some(e.info.q.qend - 4)
  {
    InfoQuestion(e.msg, e.info);
  }

  /** A parsed answer keeps the question it was parsed with. */
  lemma InfoQuestion(b: bytes, m: Info)
    requires ParseResponse(b) == Good(m)
    ensures 16 < m.q.qend <= 274 && m.q.qend <= |b| && Skip(b, 12) == Some(m.q.qend - 4) && m.id == U16(b, 0)
    ensures ShortQuestion(b) && m.flags == U16(b, 2)
    ensures NameOf(b, 12) == Name(m.q.qname, m.q.qend - 4)
  {
    hide ScanRecords, NameOf, Skip;
    SkipStopsWhereReadStops(b, 12);
    var q := Question(b).q;
    ScanKeepsQuestion(b, q.qend, 0, Counts(b), U16(b, 6), U16(b, 8), EmptyInfo(q, U16(b, 6)));
  }

  lemma {:induction false} ScanKeepsQuestion(b: bytes, p: nat, i: nat, n: nat, an: nat, ns: nat, m: Info)
    ensures var r := ScanRecords(b, p, i, n, an, ns, m);
      r.Good? ==> && r.m.q == m.q.(hasOPT := r.m.q.hasOPT)
                  && r.m.id == m.id && r.m.flags == m.flags && r.m.rcode == m.rcode
    decreases n - i
  {
    hide NameOf, SoaTTL, U16, U32;
    if i < n {
      var o := NameOf(b, p);
      if o.Name? && RecordOK(b, o.next) {
        ScanKeepsQuestion(b, o.next + 10 + U16(b, o.next + 8), i + 1, n, an, ns,
          NoteRecord(b, o.text, o.next, i, an, ns, m));
      }
    }
  }

  lemma HeadQuestion(msg: bytes, query: bytes, q: Query, info: Info, head: bytes)
    requires |msg| >= 12 && q.qend >= 12 && head == ServedHead(msg, query, q, info) && 12 <= info.q.qend <= |msg|
    ensures head[12..info.q.qend] == if CopiesQuestion(msg, query, q, info) then query[12..info.q.qend]
            else msg[12..info.q.qend]
  {
    hide Be16, U16, ServedFlags;
  }

  predicate Forwarded(q: Query, d: Decision) {
    d.Forward? ==> ParseResponse(d.resp) == Good(d.info) && SameQuestion(q, d.info)
  }

  /** Every UDP reply, on every path, is within the limit the client stated, and every reply
      carries the ID of the query. */
  lemma ReplyFits(query: bytes, q: Query, d: Decision, zero: bool, now: int, udp: bool)
    requires ParseQuery(query) == Parsed(q) && !d.Drop? && (d.Cached? ==> EntOK(d.e)) && Forwarded(q, d)
    ensures Fits(query, q) && Servables(q, d) && q.udpSize >= 12
    ensures var r := Finish(Render(query, q, d, zero, now), q, d, udp);
      (udp ==> |r| <= q.udpSize) && 12 <= |r| && U16(r, 0) == q.id
  {
    ParsedBounds(query, q);
    hide ParseQuery, ParseResponse, EntOK, RcodeReply, BlockReply, Served, Truncate, Skip, U16;
    RenderKind(query, q, d, zero, now);
    var resp := Render(query, q, d, zero, now);
    if udp && !d.Refuse? {
      if |resp| <= q.udpSize {
        Short(resp, q.udpSize);
      } else {
        TruncateFits(resp, q.udpSize);
        TruncateKeeps(resp, q.udpSize, 0);
      }
    }
  }

  lemma Short(resp: bytes, limit: nat)
    requires |resp| <= limit && limit >= 12
    ensures Truncate(resp, limit) == resp
  {
  }

  lemma RenderKind(query: bytes, q: Query, d: Decision, zero: bool, now: int)
    requires ParseQuery(query) == Parsed(q) && !d.Drop? && (d.Cached? ==> EntOK(d.e)) && Forwarded(q, d)
    ensures Fits(query, q) && Servables(q, d)
    ensures var r := Render(query, q, d, zero, now);
      12 <= |r| && U16(r, 0) == q.id && (|r| <= 512 || ((d.Cached? || d.Forward?) && ShortQuestion(r)))
  {
    ParsedBounds(query, q);
    hide ParseQuery, ParseResponse, EntOK, RcodeReply, BlockReply, Served, Skip, U16;
    match d
    case Refuse => ReplyID(query, q, RCODE_REFUSED, zero);
    case Fail => ReplyID(query, q, RCODE_SERVFAIL, zero);
    case Block => ReplyID(query, q, 0, zero);
    case Cached(e) =>
      ServedIsShort(e, query, q, now);
      ServedHeader(e, query, q, now, 0);
      EntQuestion(e);
    case Forward(resp, m) =>
      InfoQuestion(resp, m);
  }

  /** Replies made here start with the octets of the query. */
  lemma ReplyID(query: bytes, q: Query, rcode: nat, zero: bool)
    requires Fits(query, q) && q.id == U16(query, 0) && q.qend <= 274
    ensures var r := RcodeReply(query, q, rcode); 12 <= |r| <= 512 && U16(r, 0) == q.id
    ensures var r := BlockReply(query, q, zero); 12 <= |r| <= 512 && U16(r, 0) == q.id
  {
    BlockLength(query, q, zero);
    BlockStarts(query, q, zero);
    RcodeStarts(query, q, rcode);
    StartsID(query, RcodeReply(query, q, rcode));
    StartsID(query, BlockReply(query, q, zero));
  }

  lemma StartsID(query: bytes, r: bytes)
    requires |query| >= 2 && |r| >= 2 && r[..2] == query[..2]
    ensures U16(r, 0) == U16(query, 0)
  {
    assert r[0] == r[..2][0] && r[1] == r[..2][1] && query[0] == query[..2][0] && query[1] == query[..2][1];
  }

  lemma AppendStarts(out: bytes, q: Query)
    requires |out| >= 12
    ensures AppendOPT(out, q)[..2] == out[..2]
  {
    hide Be16, OptRecord;
  }

  lemma RcodeStarts(query: bytes, q: Query, rcode: nat)
    requires Fits(query, q)
    ensures |RcodeReply(query, q, rcode)| >= 12 && RcodeReply(query, q, rcode)[..2] == query[..2]
  {
    AppendStarts(ReplyHeader(query, q, rcode, 0), q);
    hide Be16, OptRecord, ReplyFlags;
    assert ReplyHeader(query, q, rcode, 0)[..2] == query[..2];
  }

  lemma BlockStarts(query: bytes, q: Query, zero: bool)
    requires Fits(query, q)
    ensures |BlockReply(query, q, zero)| >= 12 && BlockReply(query, q, zero)[..2] == query[..2]
  {
    RcodeStarts(query, q, RCODE_NXDOMAIN);
    RcodeStarts(query, q, RCODE_NOERROR);
    hide Be16, Be32, OptRecord, ReplyFlags, AppendOPT, RcodeReply, Zeros;
    var rd := if q.qtype == TYPE_A then 4 else if q.qtype == TYPE_AAAA then 16 else 0;
    var head := ReplyHeader(query, q, RCODE_NOERROR, 1);
    assert head[..2] == query[..2];
    var rec := [0xC0, 0x0C] + (Be16(q.qtype) + (Be16(1) + (Be32(BLOCK_TTL) + (Be16(rd) + Zeros(rd)))));
    assert (head + rec)[..2] == head[..2];
    AppendStarts(head + rec, q);
  }

  // ----- The step -----

  /** An entry is about the question whose key it is under. */
  ghost predicate AboutKey(e: Ent) {
    forall q :: CacheKey(q) == e.key ==>
      e.info.q.qname == q.qname && e.info.q.qtype == q.qtype && e.info.q.qclass == q.qclass
  }

  ghost predicate AllAbout(es: seq<Ent>) { forall e <- es :: AboutKey(e) }

  /** The cache after a query: nothing changes if it is dropped, refused or blocked; otherwise a
      cacheable query looks its key up, and an answer worth keeping goes in. */
  function NextEnts(es: seq<Ent>, q: Query, d: Decision, now: int, maxN: nat, maxBytes: nat): seq<Ent>
    requires d.Forward? ==> InMessage(d.resp, d.info.ttlOffsets)
  {
    if d.Drop? || d.Refuse? || d.Block? || !Cacheable(q) then es else
      var g := GetList(es, CacheKey(q), now);
      if Stores(q, d) && Accepts(d.resp, d.info)
        then PutList(g, NewEnt(CacheKey(q), d.resp, d.info, now), maxN, maxBytes)
      else g
  }

  lemma {:induction false} AboutWithout(es: seq<Ent>, key: Key)
    requires AllAbout(es)
    ensures AllAbout(Without(es, key))
  {
    hide AboutKey;
    if es != [] {
      AboutWithout(es[1..], key);
    }
  }

  lemma {:induction false} FoundIn(es: seq<Ent>, key: Key)
    ensures Find(es, key).Some? ==> Find(es, key).value in es && Find(es, key).value.key == key
  {
    if es != [] {
      FoundIn(es[1..], key);
    }
  }

  lemma AboutPut(es: seq<Ent>, e: Ent, maxN: nat, maxBytes: nat)
    requires AllAbout(es) && AboutKey(e)
    ensures AllAbout(PutList(es, e, maxN, maxBytes))
  {
    AboutWithout(es, e.key);
    TrimLongest([e] + Without(es, e.key), maxN, maxBytes, 0);
    hide AboutKey, Trim;
    var full, r := [e] + Without(es, e.key), PutList(es, e, maxN, maxBytes);
    assert forall i :: 0 <= i < |r| ==> r[i] == full[i];
  }

  lemma AboutGet(es: seq<Ent>, key: Key, now: int)
    requires AllAbout(es)
    ensures AllAbout(GetList(es, key, now))
  {
    hide AboutKey;
    AboutWithout(es, key);
    FoundIn(es, key);
  }

  /** The answer to a query is about every query with the same key. */
  lemma AnswerAbout(q: Query, resp: bytes, m: Info, now: int)
    requires SameQuestion(q, m) && InMessage(resp, m.ttlOffsets)
    ensures AboutKey(NewEnt(CacheKey(q), resp, m, now))
  {
    hide CacheKey, CacheTTL, TtlsOf;
    var e := NewEnt(CacheKey(q), resp, m, now);
    forall p | CacheKey(p) == e.key ensures m.q.qname == p.qname && m.q.qtype == p.qtype && m.q.qclass == p.qclass {
      CacheKeyInjective(p, q);
    }
  }

  lemma NextAbout(es: seq<Ent>, q: Query, d: Decision, now: int, maxN: nat, maxBytes: nat)
    requires AllAbout(es) && (d.Forward? ==> SameQuestion(q, d.info) && InMessage(d.resp, d.info.ttlOffsets))
    ensures AllAbout(NextEnts(es, q, d, now, maxN, maxBytes))
  {
    hide AllAbout, AboutKey, GetList, PutList, NewEnt, CacheKey, SameQuestion, Accepts;
    if !(d.Drop? || d.Refuse? || d.Block? || !Cacheable(q)) {
      AboutGet(es, CacheKey(q), now);
      if Stores(q, d) && Accepts(d.resp, d.info) {
        AnswerAbout(q, d.resp, d.info, now);
        AboutPut(GetList(es, CacheKey(q), now), NewEnt(CacheKey(q), d.resp, d.info, now), maxN, maxBytes);
      }
    }
  }

  /** Where the decisions come from. */
  lemma DecisionOK(query: bytes, es: seq<Ent>, internal: bool, allowed: bool, blocked: bool, now: int,
                   upstream: Option<bytes>)
    requires AllMade(es)
    ensures var d := Decide(query, es, internal, allowed, blocked, now, upstream);
      && (d.Drop? <==> Dropped(query))
      && (!d.Drop? ==>
          var q := ParseQuery(query).q;
          && Forwarded(q, d) && (d.Forward? ==> InMessage(d.resp, d.info.ttlOffsets))
          && (d.Cached? ==> EntOK(d.e) && d.e in es && d.e.key == CacheKey(q) && now < d.e.expire && Cacheable(q)))
  {
    hide ParseQuery, ParseResponse, SameQuestion, CacheKey, EntOK, Find, Cacheable, InMessage;
    if ParseQuery(query).Parsed? {
      FoundIn(es, CacheKey(ParseQuery(query).q));
    }
    if upstream.Some? && ParseResponse(upstream.value).Good? {
      ParsedOffsets(upstream.value, ParseResponse(upstream.value).m);
    }
  }

  /** An answer from the cache was the answer to a question with the same text of its name, type and
      class. */
  lemma CachedIsAbout(query: bytes, es: seq<Ent>, internal: bool, allowed: bool, blocked: bool, now: int,
                      upstream: Option<bytes>)
    requires AllMade(es) && AllAbout(es)
    ensures var d := Decide(query, es, internal, allowed, blocked, now, upstream);
      d.Cached? ==> var q := ParseQuery(query).q;
                    d.e.info.q.qname == q.qname && d.e.info.q.qtype == q.qtype && d.e.info.q.qclass == q.qclass
  {
    DecisionOK(query, es, internal, allowed, blocked, now, upstream);
    hide ParseQuery, ParseResponse, CacheKey, EntOK, Find, Cacheable, AllMade, Decide;
    var d := Decide(query, es, internal, allowed, blocked, now, upstream);
    if d.Cached? {
      assert AboutKey(d.e);
    }
  }

  /** What a query comes to, in terms of its decision: the reply and the cache after it; every
      reply carries the ID of the query and, over UDP, is within the client's limit. */
  predicate Outcome(query: bytes, d: Decision, zero: bool, now: int, udp: bool, es: seq<Ent>, after: seq<Ent>,
                    maxN: nat, maxBytes: nat, r: Option<bytes>)
  {
    && (d.Forward? ==> InMessage(d.resp, d.info.ttlOffsets))
    && (d.Drop? <==> Dropped(query))
    && (d.Drop? ==> r.None? && after == es)
    && (!d.Drop? ==>
        var q := ParseQuery(query).q;
        && Fits(query, q) && Servables(q, d) && q.udpSize >= 12
        && r == Some(Finish(Render(query, q, d, zero, now), q, d, udp))
        && after == NextEnts(es, q, d, now, maxN, maxBytes)
        && (udp ==> |r.value| <= q.udpSize) && |r.value| >= 12 && U16(r.value, 0) == q.id)
  }

  lemma DropOutcome(query: bytes, d: Decision, zero: bool, now: int, udp: bool, es: seq<Ent>, maxN: nat, maxBytes: nat)
    requires d.Drop? && Dropped(query)
    ensures Outcome(query, d, zero, now, udp, es, es, maxN, maxBytes, None)
  {
    hide ParseQuery;
  }

  lemma SentOutcome(query: bytes, q: Query, d: Decision, zero: bool, now: int, udp: bool, es: seq<Ent>, after: seq<Ent>,
                    maxN: nat, maxBytes: nat, r: Option<bytes>)
    requires ParseQuery(query) == Parsed(q) && !Dropped(query) && !d.Drop? && (d.Cached? ==> EntOK(d.e))
            && Forwarded(q, d)
    requires d.Forward? ==> InMessage(d.resp, d.info.ttlOffsets)
    requires Fits(query, q) && Servables(q, d) && q.udpSize >= 12
    requires r == Some(Finish(Render(query, q, d, zero, now), q, d, udp))
            && after == NextEnts(es, q, d, now, maxN, maxBytes)
    ensures Outcome(query, d, zero, now, udp, es, after, maxN, maxBytes, r)
  {
    hide ParseQuery, ParseResponse, EntOK, Servable, Render, Finish, NextEnts, InMessage, U16, SameQuestion;
    ReplyFits(query, q, d, zero, now, udp);
  }
}
