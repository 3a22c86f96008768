/**
 What comes back for a query, and what is held afterwards (dns_forwarder.go:359-452), told from the
 query, what the limiter, the block list and upstream say, and the answers held before.
 */
module DnsReplies {
  import opened Common
  import opened Bytes
  import opened DnsWire
  import opened DnsLabels
  import opened DnsMessages
  import opened DnsCache
  import opened DnsCaching
  import opened DnsHandle
  import opened DnsRuns

  /** A query goes through: its decision, and the reply and the cache that follow from it. */
  predicate Handles(query: bytes, es: seq<Ent>, internal: bool, allowed: bool, blocked: bool, zero: bool, now: int,
                    udp: bool, upstream: Option<bytes>, maxN: nat, maxBytes: nat, r: Option<bytes>, after: seq<Ent>)
  {
    Outcome(query, Decide(query, es, internal, allowed, blocked, now, upstream), zero, now, udp, es, after, maxN,
      maxBytes, r)
  }

  // ----- Replies made here -----

  /** A response to the question of the query, with its ID, a code and a number of answers; a client that
      speaks EDNS gets one more record. */
  predicate MadeReply(query: bytes, q: Query, r: bytes, code: nat, answers: nat) {
    && 12 <= q.qend <= |r| && q.qend <= |query| && U16(r, 0) == q.id && U16(r, 2) % 16 == code
        && Bit(U16(r, 2), 15) == 1
    && U16(r, 4) == 1 && U16(r, 6) == answers && U16(r, 8) == 0 && U16(r, 10) == (if q.hasOPT then 1 else 0)
    && r[12..q.qend] == query[12..q.qend]
  }

  lemma AppendKeeps(out: bytes, q: Query)
    requires |out| >= 12
    ensures var r := AppendOPT(out, q); |out| <= |r| && r[..10] == out[..10] && r[12..|out|] == out[12..]
    ensures AppendOPT(out, q)[10..12] == if q.hasOPT then Be16(U16(out, 10) + 1) else out[10..12]
  {
    hide OptRecord, Be16;
    var r := AppendOPT(out, q);
    if q.hasOPT {
      var a, b, c := out[..10], Be16(U16(out, 10) + 1), out[12..];
      assert r == a + b + c + OptRecord(1232, q.wantDO);
      assert r[..10] == a && r[10..12] == b && r[12..|out|] == c;
    }
  }

  lemma HeaderParts(query: bytes, q: Query, code: nat, an: nat, h: bytes)
    requires Fits(query, q) && h == ReplyHeader(query, q, code, an)
    ensures |h| == q.qend && h[0..2] == query[0..2] && h[2..4] == Be16(ReplyFlags(q.flags, code)) && h[4..6] == Be16(1)
    ensures h[6..8] == Be16(an) && h[8..10] == Be16(0) && h[10..12] == Be16(0) && h[12..] == query[12..q.qend]
  {
    hide Be16, ReplyFlags;
  }

  lemma SlicesOf(r: bytes, out: bytes, h: bytes)
    requires |h| >= 12 && h <= out && |out| <= |r| && r[..10] == out[..10] && r[12..|out|] == out[12..]
    ensures r[0..2] == h[0..2] && r[2..4] == h[2..4] && r[4..6] == h[4..6] && r[6..8] == h[6..8] && r[8..10] == h[8..10]
    ensures r[12..|h|] == h[12..]
  {
    forall j | 0 <= j < |h| && (j < 10 || j >= 12) ensures r[j] == h[j] {
      if j < 10 {
        assert r[j] == r[..10][j] && out[j] == out[..10][j];
      } else {
        assert r[j] == r[12..|out|][j - 12] && out[j] == out[12..][j - 12];
      }
    }
  }

  /** A header of ours, with whatever records behind it. */
  lemma MadeFrom(query: bytes, q: Query, code: nat, an: nat, out: bytes, r: bytes)
    requires Fits(query, q) && q.id == U16(query, 0) && code < 16 && an < 0x1_0000
    requires ReplyHeader(query, q, code, an) <= out && r == AppendOPT(out, q)
    ensures MadeReply(query, q, r, code, an)
  {
    hide ReplyHeader, AppendOPT, Be16, U16, Bit, ReplyFlags;
    var h := ReplyHeader(query, q, code, an);
    HeaderParts(query, q, code, an, h);
    AppendKeeps(out, q);
    SlicesOf(r, out, h);
    ReplyFlagBits(q.flags, code, 15);
    U16Of(r, 2, ReplyFlags(q.flags, code));
    U16Of(r, 4, 1);
    U16Of(r, 6, an);
    U16Of(r, 8, 0);
    assert out[10..12] == h[10..12];
    U16Of(out, 10, 0);
    U16Of(r, 10, if q.hasOPT then 1 else 0);
    SameU16(r, query);
  }

  lemma SameU16(r: bytes, query: bytes)
    requires |r| >= 2 && |query| >= 2 && r[0..2] == query[0..2]
    ensures U16(r, 0) == U16(query, 0)
  {
    assert r[0] == r[0..2][0] && r[1] == r[0..2][1] && query[0] == query[0..2][0] && query[1] == query[0..2][1];
  }

  lemma RcodeMade(query: bytes, q: Query, code: nat)
    requires Fits(query, q) && q.id == U16(query, 0) && code < 16
    ensures MadeReply(query, q, RcodeReply(query, q, code), code, 0)
  {
    hide MadeReply, ReplyHeader, AppendOPT;
    MadeFrom(query, q, code, 0, ReplyHeader(query, q, code, 0), RcodeReply(query, q, code));
  }

  /** One answer: the name asked for, at no address at all, for a minute. */
  predicate NowhereAnswer(q: Query, r: bytes) {
    var p := ParseResponse(r);
    && p.Good? && p.m.rcode == 0 && |p.m.answers| == 1
    && var a := p.m.answers[0];
      && a.owner == q.qname && a.typ == q.qtype && a.ttl == 60 && a.value.Addr?
      && |a.value.a| == (if q.qtype == 1 then 4 else 16) && forall k :: 0 <= k < |a.value.a| ==> a.value.a[k] == 0
  }

  /** The question of a query stands there without pointers, in at most 126 labels. */
  predicate WrittenQuestion(query: bytes) {
    var ls := LabelsAt(query, 12);
    |ls| <= 126 && Holds(query, 12, EncLabels(ls))
  }

  /** A name that is blocked does not exist, or, in the mode for that, is nowhere. */
  predicate BlockAnswer(query: bytes, q: Query, zero: bool, r: bytes) {
    if !zero then MadeReply(query, q, r, 3, 0)
    else if q.qclass == 1 && (q.qtype == 1 || q.qtype == 28) then
      MadeReply(query, q, r, 0, 1) && (WrittenQuestion(query) ==> NowhereAnswer(q, r))
    else MadeReply(query, q, r, 0, 0)
  }

  lemma BlockMade(query: bytes, q: Query, zero: bool)
    requires ParseQuery(query) == Parsed(q)
    ensures Fits(query, q) && BlockAnswer(query, q, zero, BlockReply(query, q, zero))
            && |BlockReply(query, q, zero)| <= 512
  {
    ParsedBounds(query, q);
    BlockLength(query, q, zero);
    hide ParseQuery, MadeReply, NowhereAnswer, BlockReply, RcodeReply, WrittenQuestion;
    BlockCases(query, q, zero);
    if zero && q.qclass == 1 && (q.qtype == 1 || q.qtype == 28) {
      AddressMade(query, q);
      if WrittenQuestion(query) {
        BlockNowhere(query, q);
      }
    } else {
      RcodeMade(query, q, if zero then 0 else 3);
    }
  }

  lemma BlockCases(query: bytes, q: Query, zero: bool)
    requires Fits(query, q)
    ensures !(zero && q.qclass == 1 && (q.qtype == 1 || q.qtype == 28)) ==>
            BlockReply(query, q, zero) == RcodeReply(query, q, if zero then 0 else 3)
  {
    hide RcodeReply, AppendOPT, ReplyHeader, Be16, Be32, Zeros;
  }

  lemma AddressMade(query: bytes, q: Query)
    requires Fits(query, q) && q.id == U16(query, 0) && q.qclass == 1 && (q.qtype == 1 || q.qtype == 28)
    ensures MadeReply(query, q, BlockReply(query, q, true), 0, 1)
  {
    var rd := if q.qtype == 1 then 4 else 16;
    var out := ReplyHeader(query, q, RCODE_NOERROR, 1) + ZeroRecord(q.qtype, rd);
    BlockIs(query, q, rd, out);
    hide MadeReply, ReplyHeader, AppendOPT, ZeroRecord, BlockReply, U16;
    MadeFrom(query, q, 0, 1, out, BlockReply(query, q, true));
  }

  lemma BlockNowhere(query: bytes, q: Query)
    requires ParseQuery(query) == Parsed(q) && q.qclass == 1 && (q.qtype == 1 || q.qtype == 28)
            && WrittenQuestion(query)
    ensures Fits(query, q) && NowhereAnswer(q, BlockReply(query, q, true))
  {
    BlockReplyRoundTrip(query, q, LabelsAt(query, 12));
    ReplyFlagBits(q.flags, 0, 0);
    hide ParseQuery, ParseResponse, BlockReply, ReplyFlags, LabelsAt, Holds, EncLabels;
  }

  // ----- Which reply -----

  /** A query that is answered at all. */
  predicate Answered(query: bytes) {
    var p := ParseQuery(query);
    p.Parsed? && Bit(p.q.flags, 15) == 0
  }

  lemma NoReply(query: bytes, es: seq<Ent>, internal: bool, allowed: bool, blocked: bool, zero: bool, now: int,
                udp: bool, upstream: Option<bytes>, maxN: nat, maxBytes: nat, r: Option<bytes>, after: seq<Ent>)
    requires Handles(query, es, internal, allowed, blocked, zero, now, udp, upstream, maxN, maxBytes, r, after)
    ensures r.Some? <==> Answered(query)
    ensures r.None? ==> after == es
  {
    hide ParseQuery, Decide, Render, Finish, NextEnts, Bit;
  }

  /** An outside client that the limiter does not let through is refused, and nothing else happens. */
  lemma NotLetThrough(query: bytes, es: seq<Ent>, blocked: bool, zero: bool, now: int, udp: bool,
                      upstream: Option<bytes>, maxN: nat, maxBytes: nat, r: Option<bytes>, after: seq<Ent>)
    requires Handles(query, es, false, false, blocked, zero, now, udp, upstream, maxN, maxBytes, r, after)
            && Answered(query)
    ensures r.Some? && MadeReply(query, ParseQuery(query).q, r.value, 5, 0) && after == es
  {
    ParsedQuery(query);
    var q := ParseQuery(query).q;
    hide ParseQuery, MadeReply, RcodeReply, Bit;
    RcodeMade(query, q, 5);
  }

  /** An outside client that asks for a blocked name gets the block answer, whatever is held and whatever
      upstream would say, and nothing is held that was not before. */
  lemma BlockedIsBlocked(query: bytes, es: seq<Ent>, zero: bool, now: int, udp: bool, upstream: Option<bytes>,
                         maxN: nat, maxBytes: nat, r: Option<bytes>, after: seq<Ent>)
    requires Handles(query, es, false, true, true, zero, now, udp, upstream, maxN, maxBytes, r, after)
            && Answered(query)
    requires ParseQuery(query).q.qname != []
    ensures r.Some? && BlockAnswer(query, ParseQuery(query).q, zero, r.value) && after == es
  {
    var q := ParseQuery(query).q;
    ParsedBounds(query, q);
    hide ParseQuery, BlockAnswer, BlockReply, Bit, Truncate;
    BlockMade(query, q, zero);
    Short(BlockReply(query, q, zero), q.udpSize);
  }

  lemma BlockedAlike(query: bytes, es: seq<Ent>, es2: seq<Ent>, zero: bool, now: int, now2: int, udp: bool,
                     upstream: Option<bytes>, upstream2: Option<bytes>, maxN: nat, maxBytes: nat, r: Option<bytes>,
                     r2: Option<bytes>, after: seq<Ent>, after2: seq<Ent>)
    requires Handles(query, es, false, true, true, zero, now, udp, upstream, maxN, maxBytes, r, after)
            && Answered(query)
    requires Handles(query, es2, false, true, true, zero, now2, udp, upstream2, maxN, maxBytes, r2, after2)
    requires ParseQuery(query).q.qname != []
    ensures r == r2
  {
    hide ParseQuery, BlockReply, Bit, Truncate;
  }

  // ----- Queries that are looked up -----

  /** The limiter and the block list let the query pass, or it comes from the device itself. */
  predicate Passes(query: bytes, internal: bool, allowed: bool, blocked: bool) {
    Answered(query) && (internal || (allowed && !(blocked && ParseQuery(query).q.qname != [])))
  }

  /** Questions of a standard query, of class IN, without EDNS options, are looked up. */
  predicate LookedUp(q: Query) { q.flags / 2048 % 16 == 0 && q.qclass == 1 && q.optLen == 0 }

  /** An answer to the question is held and has not run out. */
  predicate HoldsLive(es: seq<Ent>, q: Query, now: int, e: Ent) {
    LookedUp(q) && e in es && e.key == CacheKey(q) && now < e.expire
  }

  /** What upstream sent answers this question. */
  predicate Answers(q: Query, upstream: Option<bytes>) {
    && upstream.Some? && ParseResponse(upstream.value).Good?
    && var m := ParseResponse(upstream.value).m;
      m.id == q.id && m.q.qname == q.qname && m.q.qtype == q.qtype && m.q.qclass == q.qclass
  }

  /** A reply as it is sent. */
  function Sent(resp: bytes, q: Query, udp: bool): bytes
    requires q.udpSize >= 12
  {
    if udp then Truncate(resp, q.udpSize) else resp
  }

  lemma PassesToAnswer(query: bytes, es: seq<Ent>, internal: bool, allowed: bool, blocked: bool, now: int,
                       upstream: Option<bytes>)
    requires Passes(query, internal, allowed, blocked)
    ensures ParseQuery(query).Parsed?
    ensures Decide(query, es, internal, allowed, blocked, now, upstream) ==
            Answer(ParseQuery(query).q, es, now, upstream)
  {
    hide ParseQuery, Answer, Bit;
  }

  lemma FindHeld(es: seq<Ent>, e: Ent)
    requires DistinctKeys(es) && e in es
    ensures Find(es, e.key) == Some(e)
  {
    var k :| 0 <= k < |es| && es[k] == e;
    FindAt(es, k);
  }

  lemma GetFinds(es: seq<Ent>, e: Ent, now: int, key: Key)
    requires Find(es, e.key) == Some(e) && now < e.expire
    ensures GetList(es, e.key, now) == [e] + Without(es, e.key) && Find(GetList(es, e.key, now), key) == Find(es, key)
  {
    FindPushed(es, e, key);
  }

  /** An answer that is held is what the client gets, whatever upstream would say; it becomes the most
      recently used, and everything else stays. */
  lemma HeldIsServed(query: bytes, es: seq<Ent>, internal: bool, allowed: bool, blocked: bool, zero: bool, now: int,
                     udp: bool, upstream: Option<bytes>, maxN: nat, maxBytes: nat, r: Option<bytes>, after: seq<Ent>,
                     e: Ent, key: Key)
    requires Handles(query, es, internal, allowed, blocked, zero, now, udp, upstream, maxN, maxBytes, r, after)
    requires Passes(query, internal, allowed, blocked) && DistinctKeys(es) && AllMade(es)
    requires HoldsLive(es, ParseQuery(query).q, now, e)
    ensures var q := ParseQuery(query).q;
      && Servable(e, q) && q.udpSize >= 12 && r == Some(Sent(Served(e, query, q, now), q, udp))
      && after != [] && after[0] == e && Find(after, key) == Find(es, key)
  {
    hide ParseQuery, ParseResponse, CacheKey, EntOK, Served, Truncate, Servable, InMessage, Answered, Decide, Dropped,
      U16, Bit, DistinctKeys, AllMade, Passes;
    PassesToAnswer(query, es, internal, allowed, blocked, now, upstream);
    FindHeld(es, e);
    GetFinds(es, e, now, key);
  }

  lemma NothingHeld(es: seq<Ent>, q: Query, now: int)
    requires LookedUp(q) && forall e :: !HoldsLive(es, q, now, e)
    ensures Find(es, CacheKey(q)).Some? ==> now >= Find(es, CacheKey(q)).value.expire
    ensures Find(GetList(es, CacheKey(q), now), CacheKey(q)).None?
  {
    hide CacheKey, LookedUp;
    FoundIn(es, CacheKey(q));
    if Find(es, CacheKey(q)).Some? {
      assert !HoldsLive(es, q, now, Find(es, CacheKey(q)).value);
    }
    FindWithout(es, CacheKey(q), CacheKey(q));
  }

  /** What is left of the answers held, once the one to this question has run out. */
  predicate Lapsed(es: seq<Ent>, after: seq<Ent>, q: Query) {
    if LookedUp(q) then after == Without(es, CacheKey(q)) || (after == es && Find(es, CacheKey(q)).None?)
      else after == es
  }

  /** With nothing held and no answer from upstream the client is told that the server failed. */
  lemma FailsWithout(query: bytes, es: seq<Ent>, internal: bool, allowed: bool, blocked: bool, zero: bool, now: int,
                     udp: bool, upstream: Option<bytes>, maxN: nat, maxBytes: nat, r: Option<bytes>, after: seq<Ent>)
    requires Handles(query, es, internal, allowed, blocked, zero, now, udp, upstream, maxN, maxBytes, r, after)
    requires Passes(query, internal, allowed, blocked) && (forall e :: !HoldsLive(es, ParseQuery(query).q, now, e))
    requires !Answers(ParseQuery(query).q, upstream)
    ensures r.Some? && MadeReply(query, ParseQuery(query).q, r.value, 2, 0) && Lapsed(es, after, ParseQuery(query).q)
  {
    PassesToAnswer(query, es, internal, allowed, blocked, now, upstream);
    var q := ParseQuery(query).q;
    ParsedBounds(query, q);
    hide ParseQuery, ParseResponse, CacheKey, Truncate, Answered, Decide, Dropped, U16, Bit, Passes, MadeReply,
      RcodeReply, HoldsLive;
    if LookedUp(q) {
      NothingHeld(es, q, now);
    }
    RcodeMade(query, q, 2);
    Short(RcodeReply(query, q, 2), q.udpSize);
  }

  // ----- Answers from upstream -----

  /** Seconds for which an answer may be held: a positive one for its least TTL and an hour at most, a
      negative one for its negative TTL and five minutes at most, any other not at all. */
  function Life(m: Info): nat {
    if m.rcode == 0 && m.anCount > 0 then (if m.haveTTL then Min(m.minTTL, 3600) else 0)
    else if m.rcode == 0 || m.rcode == 3 then (if m.haveSOA then Min(m.negTTL, 300) else 0)
    else 0
  }

  /** The answer is held: the question is looked up, it was not cut short, it lives, and is not too long. */
  predicate Keeps(q: Query, resp: bytes, m: Info) {
    LookedUp(q) && Bit(m.flags, 9) == 0 && Life(m) > 0 && |resp| <= 8192
  }

  lemma KeepsIff(q: Query, resp: bytes, m: Info)
    ensures Keeps(q, resp, m) <==> Stores(q, Forward(resp, m)) && Accepts(resp, m)
    ensures CacheTTL(m) == Life(m)
  {
    hide Bit;
  }

  /** An entry that fits by itself is there after it was put in front. */
  lemma PutStays(es: seq<Ent>, e: Ent, maxN: nat, maxBytes: nat)
    requires maxN >= 1 && |e.msg| <= maxBytes
    ensures PutList(es, e, maxN, maxBytes) != [] && PutList(es, e, maxN, maxBytes)[0] == e
    ensures Find(PutList(es, e, maxN, maxBytes), e.key) == Some(e)
  {
    var full := [e] + Without(es, e.key);
    TrimLongest(full, maxN, maxBytes, 1);
    hide Trim;
    assert full[..1] == [e] && Total([e]) == |e.msg|;
  }

  /** With nothing held an answer from upstream is what the client gets; it is held from then on, in the
      first place and for its life, if it may be, and nothing comes to be found under another key. */
  lemma PassedOn(query: bytes, es: seq<Ent>, internal: bool, allowed: bool, blocked: bool, zero: bool, now: int,
                 udp: bool, upstream: Option<bytes>, maxN: nat, maxBytes: nat, r: Option<bytes>, after: seq<Ent>,
                 key: Key)
    requires Handles(query, es, internal, allowed, blocked, zero, now, udp, upstream, maxN, maxBytes, r, after)
    requires Passes(query, internal, allowed, blocked) && (forall e :: !HoldsLive(es, ParseQuery(query).q, now, e))
    requires Answers(ParseQuery(query).q, upstream)
    ensures var q, m := ParseQuery(query).q, ParseResponse(upstream.value).m;
      && q.udpSize >= 12 && r == Some(Sent(upstream.value, q, udp))
      && (!Keeps(q, upstream.value, m) ==> Lapsed(es, after, q))
      && (Keeps(q, upstream.value, m) && maxN >= 1 && maxBytes >= 8192 ==>
          && after != [] && Find(after, CacheKey(q)) == Some(after[0])
          && after[0].msg == upstream.value && after[0].info == m && after[0].expire == now + Life(m) * SECOND)
      && (key != CacheKey(q) && Find(after, key).Some? ==> Find(after, key) == Find(es, key))
  {
    PassesToAnswer(query, es, internal, allowed, blocked, now, upstream);
    var q, m := ParseQuery(query).q, ParseResponse(upstream.value).m;
    ParsedBounds(query, q);
    ParsedOffsets(upstream.value, m);
    hide ParseQuery, ParseResponse, CacheKey, Truncate, Answered, Decide, Dropped, U16, Bit, Passes, HoldsLive, NewEnt,
      PutList, GetList, InMessage, Keeps, Accepts, Life, CacheTTL, Stores;
    if LookedUp(q) {
      NothingHeld(es, q, now);
      FoundAfterGet(es, CacheKey(q), now, key);
    }
    KeepsIff(q, upstream.value, m);
    LapsedIs(es, q, now);
    if Keeps(q, upstream.value, m) {
      var g := GetList(es, CacheKey(q), now);
      var e := NewEnt(CacheKey(q), upstream.value, m, now);
      NewIs(CacheKey(q), upstream.value, m, now);
      FoundAfterPut(g, e, maxN, maxBytes, key);
      KeptShort(q, upstream.value, m);
      if maxN >= 1 && maxBytes >= 8192 {
        PutStays(g, e, maxN, maxBytes);
      }
    }
  }

  lemma KeptShort(q: Query, resp: bytes, m: Info)
    requires Keeps(q, resp, m)
    ensures LookedUp(q) && |resp| <= 8192
  {
  }

  lemma NewIs(key: Key, msg: bytes, m: Info, now: int)
    requires InMessage(msg, m.ttlOffsets)
    ensures var e := NewEnt(key, msg, m, now);
      e.key == key && e.msg == msg && e.info == m && e.expire == now + CacheTTL(m) * SECOND
  {
    hide CacheTTL, TtlsOf;
  }

  lemma LapsedIs(es: seq<Ent>, q: Query, now: int)
    requires LookedUp(q) ==> Find(es, CacheKey(q)).Some? ==> now >= Find(es, CacheKey(q)).value.expire
    ensures LookedUp(q) ==> Lapsed(es, GetList(es, CacheKey(q), now), q)
    ensures !LookedUp(q) ==> Lapsed(es, es, q)
  {
    hide CacheKey, LookedUp;
  }
}
