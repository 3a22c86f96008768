/** Runs of queries: where the answers served from the cache come from, and how old they are. */
module DnsRuns {
  import opened Common
  import opened Bytes
  import opened DnsWire
  import opened DnsCache
  import opened DnsCaching
  import opened DnsHandle

  /** A query as it is handled: who asks, when, and what upstream would say. */
  datatype Asked = Asked(query: bytes, internal: bool, allowed: bool, blocked: bool, now: int, upstream: Option<bytes>)

  function DecisionFor(es: seq<Ent>, a: Asked): Decision {
    Decide(a.query, es, a.internal, a.allowed, a.blocked, a.now, a.upstream)
  }

  function AfterOne(es: seq<Ent>, a: Asked, maxN: nat, maxBytes: nat): seq<Ent> {
    var d := DecisionFor(es, a);
    if d.Drop? || (d.Forward? && !InMessage(d.resp, d.info.ttlOffsets)) then es
    else NextEnts(es, ParseQuery(a.query).q, d, a.now, maxN, maxBytes)
  }

  /** The cache after the queries so far, from an empty one. */
  function AfterAll(run: seq<Asked>, maxN: nat, maxBytes: nat): seq<Ent> {
    if run == [] then [] else AfterOne(AfterAll(run[..|run| - 1], maxN, maxBytes), run[|run| - 1], maxN, maxBytes)
  }

  /** The query goes upstream for this key. */
  predicate Upstream(es: seq<Ent>, a: Asked, key: Key) {
    var d := DecisionFor(es, a);
    (d.Forward? || d.Fail?) && Cacheable(ParseQuery(a.query).q) && CacheKey(ParseQuery(a.query).q) == key
  }

  /** The query fetches `e` and stores it. */
  predicate Fetches(es: seq<Ent>, a: Asked, e: Ent) {
    var d := DecisionFor(es, a);
    && d.Forward? && InMessage(d.resp, d.info.ttlOffsets) && Some(d.resp) == a.upstream
    && Stores(ParseQuery(a.query).q, d) && Accepts(d.resp, d.info)
    && e == NewEnt(CacheKey(ParseQuery(a.query).q), d.resp, d.info, a.now)
  }

  /** Query `k` of the run fetched `e`, and since then no query for its key went upstream. */
  ghost predicate FetchedAt(run: seq<Asked>, e: Ent, k: nat, maxN: nat, maxBytes: nat) {
    && k < |run| && Fetches(AfterAll(run[..k], maxN, maxBytes), run[k], e)
    && forall m :: k < m < |run| ==> !Upstream(AfterAll(run[..m], maxN, maxBytes), run[m], e.key)
  }

  /** What one query does to what can be found under a key. */
  lemma FoundAfterOne(es: seq<Ent>, a: Asked, key: Key, maxN: nat, maxBytes: nat)
    requires AllMade(es) && Find(AfterOne(es, a, maxN, maxBytes), key).Some?
    ensures var e := Find(AfterOne(es, a, maxN, maxBytes), key).value;
      e.key == key && (Fetches(es, a, e) || (Find(es, key) == Some(e) && !Upstream(es, a, key)))
  {
    hide ParseQuery, ParseResponse, CacheKey, NewEnt, Accepts, EntOK, InMessage, PutList, GetList, Find, Cacheable,
      AllMade, Bit;
    var d := DecisionFor(es, a);
    DecisionOK(a.query, es, a.internal, a.allowed, a.blocked, a.now, a.upstream);
    FindKeyed(AfterOne(es, a, maxN, maxBytes), key);
    if !d.Drop? && !d.Refuse? && !d.Block? && Cacheable(ParseQuery(a.query).q) {
      var k := CacheKey(ParseQuery(a.query).q);
      var g := GetList(es, k, a.now);
      FoundAfterGet(es, k, a.now, key);
      ForwardIsUpstream(a.query, es, a.internal, a.allowed, a.blocked, a.now, a.upstream);
      if Stores(ParseQuery(a.query).q, d) && Accepts(d.resp, d.info) && InMessage(d.resp, d.info.ttlOffsets) {
        var e := NewEnt(k, d.resp, d.info, a.now);
        NewKey(k, d.resp, d.info, a.now);
        FoundAfterPut(g, e, maxN, maxBytes, key);
      }
    }
  }

  lemma FindKeyed(es: seq<Ent>, key: Key)
    ensures Find(es, key).Some? ==> Find(es, key).value.key == key
  {
    FoundIn(es, key);
  }

  /** A query for a key goes upstream only if nothing live is found under it, and then nothing is
      left under it. */
  lemma ForwardIsUpstream(query: bytes, es: seq<Ent>, internal: bool, allowed: bool, blocked: bool, now: int,
                          upstream: Option<bytes>)
    ensures var d := Decide(query, es, internal, allowed, blocked, now, upstream);
      && (d.Forward? ==> Some(d.resp) == upstream && d == Exchange(ParseQuery(query).q, upstream))
      && (d.Forward? || d.Fail? ==> ParseQuery(query).Parsed?)
      && ((d.Forward? || d.Fail?) && Cacheable(ParseQuery(query).q) ==>
            Find(GetList(es, CacheKey(ParseQuery(query).q), now), CacheKey(ParseQuery(query).q)).None?)
  {
    hide ParseQuery, ParseResponse, CacheKey, SameQuestion, Cacheable;
    if ParseQuery(query).Parsed? {
      var k := CacheKey(ParseQuery(query).q);
      FindWithout(es, k, k);
    }
  }

  lemma FoundAfterGet(es: seq<Ent>, k: Key, now: int, key: Key)
    ensures Find(GetList(es, k, now), key).Some? ==> Find(GetList(es, k, now), key) == Find(es, key)
  {
    FoundIn(es, k);
    FindWithout(es, k, key);
    if Find(es, k).Some? {
      FindPushed(es, Find(es, k).value, key);
    }
  }

  lemma FoundAfterPut(es: seq<Ent>, e: Ent, maxN: nat, maxBytes: nat, key: Key)
    ensures Find(PutList(es, e, maxN, maxBytes), key).Some? ==>
              Find(PutList(es, e, maxN, maxBytes), key) == if key == e.key then Some(e) else Find(es, key)
  {
    FindPushed(es, e, key);
    TrimLongest([e] + Without(es, e.key), maxN, maxBytes, 0);
    hide Trim;
    if Find(PutList(es, e, maxN, maxBytes), key).Some? {
      FindPrefix([e] + Without(es, e.key), PutList(es, e, maxN, maxBytes), key);
    }
  }

  lemma {:induction false} AllMadeAfter(run: seq<Asked>, maxN: nat, maxBytes: nat)
    ensures AllMade(AfterAll(run, maxN, maxBytes))
  {
    if run != [] {
      var n := |run| - 1;
      AllMadeAfter(run[..n], maxN, maxBytes);
      MadeAfterOne(AfterAll(run[..n], maxN, maxBytes), run[n], maxN, maxBytes);
    }
  }

  lemma MadeAfterOne(es: seq<Ent>, a: Asked, maxN: nat, maxBytes: nat)
    requires AllMade(es)
    ensures AllMade(AfterOne(es, a, maxN, maxBytes))
  {
    hide ParseQuery, ParseResponse, CacheKey, NewEnt, Accepts, EntOK, InMessage, PutList, GetList, Find, Cacheable,
      AllMade, Bit;
    var d := DecisionFor(es, a);
    DecisionOK(a.query, es, a.internal, a.allowed, a.blocked, a.now, a.upstream);
    if !d.Drop? {
      var k := CacheKey(ParseQuery(a.query).q);
      MadeAfterGet(es, k, a.now);
      if d.Forward? && InMessage(d.resp, d.info.ttlOffsets) && Accepts(d.resp, d.info) {
        ForwardParsed(a.query, es, a.internal, a.allowed, a.blocked, a.now, a.upstream);
        ParsedOffsets(d.resp, d.info);
        NewIsMade(k, d.resp, d.info, a.now);
        MadeAfterPut(GetList(es, k, a.now), NewEnt(k, d.resp, d.info, a.now), maxN, maxBytes);
      }
    }
  }

  lemma ForwardParsed(query: bytes, es: seq<Ent>, internal: bool, allowed: bool, blocked: bool, now: int,
                      upstream: Option<bytes>)
    ensures var d := Decide(query, es, internal, allowed, blocked, now, upstream);
      d.Forward? ==> ParseResponse(d.resp) == Good(d.info)
  {
    hide ParseQuery, ParseResponse, CacheKey, SameQuestion, Cacheable, Find;
  }

  lemma NewIsMade(key: Key, msg: bytes, m: Info, now: int)
    requires ParseResponse(msg) == Good(m) && Accepts(msg, m) && InMessage(msg, m.ttlOffsets) && |msg| >= 12
    ensures EntOK(NewEnt(key, msg, m, now))
  {
    hide ParseResponse, CacheTTL, TtlsOf;
    MadeByPut(NewEnt(key, msg, m, now), m);
  }

  lemma MadeAfterGet(es: seq<Ent>, key: Key, now: int)
    requires AllMade(es)
    ensures AllMade(GetList(es, key, now))
  {
    hide EntOK;
    WithoutMade(es, key);
    FoundIn(es, key);
  }

  lemma MadeAfterPut(es: seq<Ent>, e: Ent, maxN: nat, maxBytes: nat)
    requires AllMade(es) && EntOK(e)
    ensures AllMade(PutList(es, e, maxN, maxBytes))
  {
    WithoutMade(es, e.key);
    TrimLongest([e] + Without(es, e.key), maxN, maxBytes, 0);
    hide EntOK, Trim;
    var full, r := [e] + Without(es, e.key), PutList(es, e, maxN, maxBytes);
    assert forall i :: 0 <= i < |r| ==> r[i] == full[i];
  }

  /** In every run of queries, what the cache holds under a key is the answer that the last query of
      that key to go upstream brought: while an answer is held, no query of its key goes upstream, so
      it is never held beside a newer one. */
  lemma {:induction false} FoundMeans(run: seq<Asked>, maxN: nat, maxBytes: nat, key: Key) returns (k: nat)
    requires Find(AfterAll(run, maxN, maxBytes), key).Some?
    ensures FetchedAt(run, Find(AfterAll(run, maxN, maxBytes), key).value, k, maxN, maxBytes)
    ensures Find(AfterAll(run, maxN, maxBytes), key).value.key == key
  {
    hide AfterOne, Fetches, Upstream, AllMade, DecisionFor;
    var n := |run| - 1;
    var es := AfterAll(run[..n], maxN, maxBytes);
    AllMadeAfter(run[..n], maxN, maxBytes);
    FoundAfterOne(es, run[n], key, maxN, maxBytes);
    var e := Find(AfterAll(run, maxN, maxBytes), key).value;
    if Fetches(es, run[n], e) {
      k := n;
    } else {
      k := FoundMeans(run[..n], maxN, maxBytes, key);
      assert run[..n][..k] == run[..k] && run[..n][k] == run[k];
      forall m | k < m < |run| ensures !Upstream(AfterAll(run[..m], maxN, maxBytes), run[m], e.key) {
        assert m < n ==> run[..n][..m] == run[..m] && run[..n][m] == run[m];
      }
    }
  }

  /** An answer served from the cache was fetched by an earlier query of the run, the last one of its
      key to go upstream; and with time not running backwards since then, every TTL served is that of
      the answer as it came, less the whole seconds since it came, or zero; of a positive answer it
      is at least 1. */
  lemma ServedInRun(run: seq<Asked>, maxN: nat, maxBytes: nat, a: Asked, i: nat) returns (k: nat)
    requires DecisionFor(AfterAll(run, maxN, maxBytes), a).Cached?
    requires var e := DecisionFor(AfterAll(run, maxN, maxBytes), a).e; i < |e.info.ttlOffsets|
    ensures var e := DecisionFor(AfterAll(run, maxN, maxBytes), a).e;
      && FetchedAt(run, e, k, maxN, maxBytes) && run[k].upstream == Some(e.msg)
      && ParseQuery(a.query).Parsed? && e.key == CacheKey(ParseQuery(a.query).q)
      && Fits(a.query, ParseQuery(a.query).q) && Servable(e, ParseQuery(a.query).q)
          && InMessage(e.msg, e.info.ttlOffsets)
      && (run[k].now <= a.now ==>
          var o := e.info.ttlOffsets[i];
          var was, kept := MaskTTL(U32(e.msg, o)), (a.now - run[k].now) / SECOND;
          && U32(Served(e, a.query, ParseQuery(a.query).q, a.now), o) == Max(0, was - kept)
          && (e.info.rcode == RCODE_NOERROR && e.info.anCount > 0 ==> kept < was))
  {
    hide ParseQuery, ParseResponse, EntOK, AfterAll, Served, Servable, InMessage, MaskTTL, U32, CacheTTL, AllMade,
      Fetches, Upstream, CacheKey;
    var es := AfterAll(run, maxN, maxBytes);
    AllMadeAfter(run, maxN, maxBytes);
    DecisionOK(a.query, es, a.internal, a.allowed, a.blocked, a.now, a.upstream);
    var q, e := ParseQuery(a.query).q, DecisionFor(es, a).e;
    CachedIsFound(a.query, es, a.internal, a.allowed, a.blocked, a.now, a.upstream);
    k := FoundMeans(run, maxN, maxBytes, e.key);
    FetchedFields(AfterAll(run[..k], maxN, maxBytes), run[k], e);
    ParsedBounds(a.query, q);
    MadeServable(e);
    Made(e);
    if run[k].now <= a.now {
      ServedTTLs(e, a.query, q, a.now, i);
    }
  }

  lemma CachedIsFound(query: bytes, es: seq<Ent>, internal: bool, allowed: bool, blocked: bool, now: int,
                      upstream: Option<bytes>)
    ensures var d := Decide(query, es, internal, allowed, blocked, now, upstream);
      d.Cached? ==> Find(es, d.e.key) == Some(d.e) && now < d.e.expire
  {
    hide ParseQuery, ParseResponse, CacheKey, SameQuestion, Cacheable;
    if ParseQuery(query).Parsed? {
      FoundIn(es, CacheKey(ParseQuery(query).q));
    }
  }

  lemma FetchedFields(es: seq<Ent>, a: Asked, e: Ent)
    requires Fetches(es, a, e)
    ensures a.upstream == Some(e.msg) && e.stored == a.now
  {
    hide ParseQuery, ParseResponse, CacheKey, CacheTTL, TtlsOf, Accepts, Stores, InMessage, DecisionFor;
  }
}
