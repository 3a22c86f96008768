/** The forwarder (dns_forwarder.go:359-452): its cache, its limiter, and one query at a time. */
module DnsForwarder {
  import opened Common
  import opened Bytes
  import opened DnsWire
  import opened DnsCache
  import opened DnsHandle
  import opened DnsReplies
  import DnsLimiter

  /** What a reply that follows from the decision is, told without it. */
  lemma Told(query: bytes, es: seq<Ent>, internal: bool, allowed: bool, blocked: bool, zero: bool, now: int, udp: bool,
             upstream: Option<bytes>, maxN: nat, maxBytes: nat, r: Option<bytes>, after: seq<Ent>)
    requires Outcome(query, Decide(query, es, internal, allowed, blocked, now, upstream), zero, now, udp, es, after,
            maxN, maxBytes, r)
    ensures Handles(query, es, internal, allowed, blocked, zero, now, udp, upstream, maxN, maxBytes, r, after)
    ensures r.Some? <==> Answered(query)
    ensures r.Some? ==> ParseQuery(query).Parsed?
    ensures r.Some? && !internal && !allowed ==> MadeReply(query, ParseQuery(query).q, r.value, 5, 0) && after == es
    ensures r.Some? && !internal && allowed && blocked && ParseQuery(query).q.qname != [] ==>
            BlockAnswer(query, ParseQuery(query).q, zero, r.value) && after == es
    ensures Answered(query) <==> !Dropped(query)
  {
    hide Outcome, Decide, ParseQuery, MadeReply, BlockAnswer, Bit;
    NoReply(query, es, internal, allowed, blocked, zero, now, udp, upstream, maxN, maxBytes, r, after);
    hide Handles;
    if Answered(query) && !internal {
      if !allowed {
        NotLetThrough(query, es, blocked, zero, now, udp, upstream, maxN, maxBytes, r, after);
      } else if blocked && ParseQuery(query).q.qname != [] {
        BlockedIsBlocked(query, es, zero, now, udp, upstream, maxN, maxBytes, r, after);
      }
    }
  }

  class Forwarder {
    const cache: Cache
    const limiter: DnsLimiter.Limiter

    ghost predicate Valid()
      reads this, cache, limiter
    {
      cache.Valid() && limiter.Valid() && AllAbout(Ents(cache.ll))
    }

    constructor (limits: DnsLimiter.Limits)
      ensures Valid() && fresh(cache) && fresh(limiter) && cache.ll == [] && limiter.m == map[] && limiter.l == limits
      ensures cache.maxN == MAX_ENTRIES && cache.maxBytes == MAX_BYTES
    {
      cache := new Cache(MAX_ENTRIES, MAX_BYTES);
      limiter := new DnsLimiter.Limiter(limits);
    }

    method Handle(query: bytes, client: DnsLimiter.Client, internal: bool, blocked: bool, zero: bool, now: int,
                  udp: bool, upstream: Option<bytes>) returns (r: Option<bytes>)
      requires Valid()
      modifies cache, limiter
      ensures Valid()
      ensures var allowed := DnsLimiter.AllowStep(old(limiter.m), client, now, limiter.l);
        && limiter.m == (if !Answered(query) || internal then old(limiter.m) else allowed.0)
        && Handles(query, old(Ents(cache.ll)), internal, allowed.1, blocked, zero, now, udp, upstream, cache.maxN,
            cache.maxBytes,
                   r, Ents(cache.ll))
      ensures r.Some? <==> Answered(query)
      ensures var allowed := DnsLimiter.AllowStep(old(limiter.m), client, now, limiter.l).1;
        && (r.Some? && !internal && !allowed ==>
            MadeReply(query, ParseQuery(query).q, r.value, 5, 0) && Ents(cache.ll) == old(Ents(cache.ll)))
        && (r.Some? && !internal && allowed && blocked && ParseQuery(query).q.qname != [] ==>
            BlockAnswer(query, ParseQuery(query).q, zero, r.value) && Ents(cache.ll) == old(Ents(cache.ll)))
    {
      hide Handles, Answered, MadeReply, BlockAnswer, Outcome, ParseQuery, ParseResponse, Served, RcodeReply,
        BlockReply, Truncate, Find, CacheKey, PutList, GetList, AllAbout, AllMade, NewEnt, FitsIn, DnsLimiter.AllowStep,
        U16, Bit, CacheTTL, Ents, Answer;
      ghost var es := Ents(cache.ll);
      ghost var allowed := DnsLimiter.AllowStep(limiter.m, client, now, limiter.l).1;
      ghost var d := Decide(query, es, internal, allowed, blocked, now, upstream);
      DecisionOK(query, es, internal, allowed, blocked, now, upstream);
      hide Linked, EntOK;
      var parsed := ParseQueryMsg(query);
      if parsed.BadQuery? || Bit(parsed.q.flags, 15) == 1 {
        DropOutcome(query, d, zero, now, udp, es, cache.maxN, cache.maxBytes);
        Told(query, es, internal, allowed, blocked, zero, now, udp, upstream, cache.maxN, cache.maxBytes, None,
          Ents(cache.ll));
        return None;
      }
      var q := parsed.q;
      ParsedBounds(query, q);
      hide Cacheable;
      NextAbout(es, q, d, now, cache.maxN, cache.maxBytes);
      if !internal {
        var ok := limiter.Allow(client, now);
        if !ok {
          r := Some(RcodeReply(query, q, RCODE_REFUSED));
          SentOutcome(query, q, d, zero, now, udp, es, Ents(cache.ll), cache.maxN, cache.maxBytes, r);
          Told(query, es, internal, allowed, blocked, zero, now, udp, upstream, cache.maxN, cache.maxBytes, r,
            Ents(cache.ll));
          return;
        }
      }
      var resp;
      if !internal && q.qname != [] && blocked {
        resp := BlockReply(query, q, zero);
      } else {
        resp := Reply(query, q, now, upstream);
      }
      r := Some(if udp then Truncate(resp, q.udpSize) else resp);
      SentOutcome(query, q, d, zero, now, udp, es, Ents(cache.ll), cache.maxN, cache.maxBytes, r);
      Told(query, es, internal, allowed, blocked, zero, now, udp, upstream, cache.maxN, cache.maxBytes, r,
        Ents(cache.ll));
    }

    /** The part of the step behind the limiter and the block list. */
    method Reply(query: bytes, q: Query, now: int, upstream: Option<bytes>) returns (resp: bytes)
      requires cache.Valid() && Fits(query, q)
      modifies cache
      ensures cache.Valid()
      ensures var d := Answer(q, old(Ents(cache.ll)), now, upstream);
        && Servables(q, d) && (d.Forward? ==> InMessage(d.resp, d.info.ttlOffsets))
        && resp == Render(query, q, d, false, now)
        && Ents(cache.ll) == NextEnts(old(Ents(cache.ll)), q, d, now, cache.maxN, cache.maxBytes)
    {
      hide ParseResponse, EntOK, Served, RcodeReply, Find, CacheKey, PutList, GetList,
        Linked, AllMade, NewEnt, FitsIn, U16, Bit, CacheTTL, Ents;
      if Cacheable(q) {
        var hit := cache.Get(CacheKey(q), query, q, now);
        if hit.Some? {
          return hit.value.0;
        }
      }
      if upstream.None? {
        return RcodeReply(query, q, RCODE_SERVFAIL);
      }
      var m := ParseResponseMsg(upstream.value);
      if m.BadResponse? || !SameQuestion(q, m.m) {
        return RcodeReply(query, q, RCODE_SERVFAIL);
      }
      ParsedOffsets(upstream.value, m.m);
      if Cacheable(q) && Bit(m.m.flags, 9) == 0 {
        cache.Put(CacheKey(q), upstream.value, m.m, now);
      }
      return upstream.value;
    }
  }
}
