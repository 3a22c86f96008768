/**
 The answer cache (dns_forwarder.go:602-750): a list in order of use, a map into it, a byte
 count, two caps, and answers whose TTLs are counted down when they are served.
 Times are in nanoseconds.
 */
module DnsCache {
  import opened Common
  import opened Bytes
  import opened DnsWire
  import DnsNames

  const SECOND := 1_000_000_000
  const MAX_TTL := 3600
  const MAX_NEG_TTL := 300
  const MAX_MSG := 8192
  const MAX_ENTRIES := 2048
  const MAX_BYTES := 4194304

  // ----- Keys -----

  type Key = bytes

  const PIPE: byte := 124

  function Digits(n: nat): bytes {
    if n < 10 then [48 + n] else Digits(n / 10) + [48 + n % 10]
  }

  function Tag(on: bool, tag: bytes): bytes { if on then [PIPE] + tag else [] }

  const TAG_E: bytes := [101]
  const TAG_DO: bytes := [100, 111]
  const TAG_CD: bytes := [99, 100]

  function KeyBase(q: Query): bytes { q.qname + [PIPE] + Digits(q.qtype) + [PIPE] + Digits(q.qclass) }

  function CacheKey(q: Query): Key {
    KeyBase(q) + Tag(q.hasOPT, TAG_E) + Tag(q.wantDO, TAG_DO) + Tag(Bit(q.flags, 4) == 1, TAG_CD)
  }

  // ----- Entries -----

  datatype Ent = Ent(key: Key, msg: bytes, ttlOffs: seq<nat>, ttls: seq<nat>, stored: int, expire: int, info: Info)

  /** Seconds for which an answer may be cached; 0 for not at all. */
  function CacheTTL(m: Info): nat {
    if m.rcode == RCODE_NOERROR && m.anCount > 0 then
      if !m.haveTTL then 0 else Min(m.minTTL, MAX_TTL)
    else if m.rcode == RCODE_NOERROR || m.rcode == RCODE_NXDOMAIN then
      if !m.haveSOA then 0 else Min(m.negTTL, MAX_NEG_TTL)
    else 0
  }

  predicate InMessage(msg: bytes, offs: seq<nat>) { forall i :: 0 <= i < |offs| ==> offs[i] + 4 <= |msg| }

  function TtlsOf(msg: bytes, offs: seq<nat>): (r: seq<nat>)
    requires InMessage(msg, offs)
    ensures |r| == |offs|
  {
    seq(|offs|, i requires 0 <= i < |offs| => MaskTTL(U32(msg, offs[i])))
  }

  function NewEnt(key: Key, msg: bytes, m: Info, now: int): Ent
    requires InMessage(msg, m.ttlOffsets)
  {
    Ent(key, msg, m.ttlOffsets, TtlsOf(msg, m.ttlOffsets), now, now + CacheTTL(m) * SECOND, m)
  }

  predicate Accepts(msg: bytes, m: Info) { CacheTTL(m) != 0 && |msg| <= MAX_MSG }

  // ----- The list -----

  function Total(es: seq<Ent>): nat { if es == [] then 0 else |es[0].msg| + Total(es[1..]) }

  predicate FitsIn(es: seq<Ent>, maxN: nat, maxBytes: nat) { |es| <= maxN && Total(es) <= maxBytes }

  function Without(es: seq<Ent>, key: Key): seq<Ent> {
    if es == [] then [] else (if es[0].key == key then [] else [es[0]]) + Without(es[1..], key)
  }

  function Find(es: seq<Ent>, key: Key): Option<Ent> {
    if es == [] then None else if es[0].key == key then Some(es[0]) else Find(es[1..], key)
  }

  /** The least recently used entries go until both caps hold. */
  function Trim(es: seq<Ent>, maxN: nat, maxBytes: nat): (r: seq<Ent>)
    decreases |es|
  {
    if FitsIn(es, maxN, maxBytes) || es == [] then es else Trim(es[..|es| - 1], maxN, maxBytes)
  }

  function PutList(es: seq<Ent>, e: Ent, maxN: nat, maxBytes: nat): seq<Ent> {
    Trim([e] + Without(es, e.key), maxN, maxBytes)
  }

  /** A hit moves to the front, an entry whose time is over is removed. */
  function GetList(es: seq<Ent>, key: Key, now: int): seq<Ent> {
    var f := Find(es, key);
    if f.None? then es else if now < f.value.expire then [f.value] + Without(es, key) else Without(es, key)
  }

  // ----- What is served -----

  /** Whole seconds from `stored` to `now`, cut off towards zero, as 32 bits. */
  function Elapsed(now: int, stored: int): (s: nat) {
    if now >= stored then (now - stored) / SECOND % 0x1_0000_0000 else (-((stored - now) / SECOND)) % 0x1_0000_0000
  }

  function Left(ttl: nat, elapsed: nat): nat { if ttl > elapsed then ttl - elapsed else 0 }

  function ServedFlags(flags: nat, query: nat): nat { SetBit(SetBit(flags, 8, Bit(query, 8)), 4, Bit(query, 4)) }

  predicate CopiesQuestion(msg: bytes, query: bytes, q: Query, info: Info) {
    q.qend == info.q.qend && q.qend <= |msg| && q.qend <= |query|
  }

  function ServedHead(msg: bytes, query: bytes, q: Query, info: Info): (r: bytes)
    requires |msg| >= 12 && q.qend >= 12
    ensures |r| == |msg|
  {
    var a := Put(msg, 0, Be16(q.id));
    var b := Put(a, 2, Be16(ServedFlags(U16(msg, 2), q.flags)));
    if CopiesQuestion(msg, query, q, info) then Put(b, 12, query[12..q.qend]) else b
  }

  function Retime(out: bytes, offs: seq<nat>, ttls: seq<nat>, elapsed: nat): (r: bytes)
    requires |offs| == |ttls| && InMessage(out, offs)
    ensures |r| == |out|
    decreases |offs|
  {
    if offs == [] then out
    else Retime(Put(out, offs[0], Be32(Left(ttls[0], elapsed))), offs[1..], ttls[1..], elapsed)
  }

  predicate Servable(e: Ent, q: Query) {
    |e.msg| >= 12 && q.qend >= 12 && |e.ttlOffs| == |e.ttls| && InMessage(e.msg, e.ttlOffs)
  }

  function Served(e: Ent, query: bytes, q: Query, now: int): (r: bytes)
    requires Servable(e, q)
    ensures |r| == |e.msg|
  {
    Retime(ServedHead(e.msg, query, q, e.info), e.ttlOffs, e.ttls, Elapsed(now, e.stored))
  }

  /** An entry as `Put` makes it from a parsed answer. */
  predicate EntOK(e: Ent) {
    && ParseResponse(e.msg) == Good(e.info) && InMessage(e.msg, e.info.ttlOffsets)
    && |e.msg| >= 12 && Accepts(e.msg, e.info)
    && e == NewEnt(e.key, e.msg, e.info, e.stored)
  }

  // ----- The cache -----

  class Elem {
    const ent: Ent

    constructor (e: Ent)
      ensures ent == e
    {
      ent := e;
    }
  }

  function Ents(ll: seq<Elem>): (r: seq<Ent>)
    ensures |r| == |ll|
    ensures forall i :: 0 <= i < |ll| ==> r[i] == ll[i].ent
  {
    seq(|ll|, i requires 0 <= i < |ll| => ll[i].ent)
  }

  /** Unlinks an element, found by identity. */
  function Unlink(ll: seq<Elem>, el: Elem): seq<Elem> {
    if ll == [] then [] else if ll[0] == el then ll[1..] else [ll[0]] + Unlink(ll[1..], el)
  }

  predicate DistinctKeys(es: seq<Ent>) { forall i, j :: 0 <= i < j < |es| ==> es[i].key != es[j].key }

  ghost predicate Listed(ll: seq<Elem>, m: map<Key, Elem>) {
    forall i :: 0 <= i < |ll| ==> ll[i].ent.key in m && m[ll[i].ent.key] == ll[i]
  }

  ghost predicate Mapped(ll: seq<Elem>, m: map<Key, Elem>) {
    forall k <- m :: m[k] in ll && m[k].ent.key == k
  }

  /** List and map are in bijection and the byte count is the sum of the message lengths. */
  ghost predicate Linked(ll: seq<Elem>, m: map<Key, Elem>, size: int) {
    DistinctKeys(Ents(ll)) && Listed(ll, m) && Mapped(ll, m) && size == Total(Ents(ll))
  }

  /** Every entry was made by `Put`. */
  predicate AllMade(es: seq<Ent>) { forall e <- es :: EntOK(e) }

  // ----- Lists -----

  lemma {:induction false} TotalAppend(a: seq<Ent>, b: seq<Ent>)
    ensures Total(a + b) == Total(a) + Total(b)
  {
    if a == [] {
      assert a + b == b;
    } else {
      TotalAppend(a[1..], b);
      assert (a + b)[1..] == a[1..] + b && (a + b)[0] == a[0];
    }
  }

  lemma {:induction false} WithoutMissing(es: seq<Ent>, key: Key)
    requires forall i :: 0 <= i < |es| ==> es[i].key != key
    ensures Without(es, key) == es
  {
    if es != [] {
      assert forall i :: 0 <= i < |es[1..]| ==> es[1..][i] == es[i + 1];
      WithoutMissing(es[1..], key);
    }
  }

  lemma {:induction false} FindMissing(es: seq<Ent>, key: Key)
    requires forall i :: 0 <= i < |es| ==> es[i].key != key
    ensures Find(es, key).None?
  {
    if es != [] {
      FindMissing(es[1..], key);
    }
  }

  lemma {:induction false} FindAt(es: seq<Ent>, k: nat)
    requires DistinctKeys(es) && k < |es|
    ensures Find(es, es[k].key) == Some(es[k])
  {
    if k > 0 {
      assert es[1..][k - 1] == es[k];
      FindAt(es[1..], k - 1);
    }
  }

  /** With distinct keys, leaving out a key leaves out one place. */
  lemma {:induction false} WithoutAt(es: seq<Ent>, k: nat)
    requires DistinctKeys(es) && k < |es|
    ensures Without(es, es[k].key) == es[..k] + es[k + 1..]
  {
    if k == 0 {
      WithoutMissing(es[1..], es[0].key);
      assert es[..0] + es[1..] == es[1..];
    } else {
      assert es[1..][k - 1] == es[k];
      WithoutAt(es[1..], k - 1);
      assert es[1..][..k - 1] == es[1..k] && es[1..][k..] == es[k + 1..];
      assert es[..k] == [es[0]] + es[1..k];
    }
  }

  lemma {:induction false} UnlinkAt(ll: seq<Elem>, k: nat)
    requires k < |ll| && forall i :: 0 <= i < k ==> ll[i] != ll[k]
    ensures Unlink(ll, ll[k]) == ll[..k] + ll[k + 1..]
  {
    if k == 0 {
      assert ll[..0] + ll[1..] == ll[1..];
    } else {
      assert ll[1..][k - 1] == ll[k];
      assert forall i :: 0 <= i < k - 1 ==> ll[1..][i] == ll[i + 1];
      UnlinkAt(ll[1..], k - 1);
      assert ll[1..][..k - 1] == ll[1..k] && ll[1..][k..] == ll[k + 1..];
      assert ll[..k] == [ll[0]] + ll[1..k];
    }
  }

  /** Where an element of the map stands. */
  lemma Place(ll: seq<Elem>, m: map<Key, Elem>, size: int, el: Elem) returns (k: nat)
    requires Linked(ll, m, size) && el.ent.key in m && m[el.ent.key] == el
    ensures k < |ll| && ll[k] == el
    ensures Unlink(ll, el) == ll[..k] + ll[k + 1..]
    ensures Ents(ll)[k] == el.ent && Ents(Unlink(ll, el)) == Ents(ll)[..k] + Ents(ll)[k + 1..]
    ensures forall i :: 0 <= i < |ll| && i != k ==> ll[i].ent.key != el.ent.key
  {
    k := KeyPlace(ll, m, el);
    UnlinkAt(ll, k);
    EntsCut(ll, k);
  }

  lemma KeyPlace(ll: seq<Elem>, m: map<Key, Elem>, el: Elem) returns (k: nat)
    requires DistinctKeys(Ents(ll)) && Mapped(ll, m) && el.ent.key in m && m[el.ent.key] == el
    ensures k < |ll| && ll[k] == el
    ensures forall i :: 0 <= i < |ll| && i != k ==> ll[i].ent.key != el.ent.key
  {
    k :| 0 <= k < |ll| && ll[k] == el;
    forall i | 0 <= i < |ll| && i != k ensures ll[i].ent.key != el.ent.key {
      assert Ents(ll)[i].key != Ents(ll)[k].key;
    }
  }

  lemma EntsCut(ll: seq<Elem>, k: nat)
    requires k < |ll|
    ensures Ents(ll[..k] + ll[k + 1..]) == Ents(ll)[..k] + Ents(ll)[k + 1..]
  {
    var l2 := ll[..k] + ll[k + 1..];
    assert forall i :: 0 <= i < |l2| ==> l2[i] == ll[if i < k then i else i + 1];
  }

  lemma FindLinked(ll: seq<Elem>, m: map<Key, Elem>, size: int, el: Elem)
    requires Linked(ll, m, size) && el.ent.key in m && m[el.ent.key] == el
    ensures Find(Ents(ll), el.ent.key) == Some(el.ent)
  {
    var k := Place(ll, m, size, el);
    FindAt(Ents(ll), k);
  }

  lemma UnlinkKeeps(ll: seq<Elem>, m: map<Key, Elem>, size: int, el: Elem)
    requires Linked(ll, m, size) && el.ent.key in m && m[el.ent.key] == el
    ensures Linked(Unlink(ll, el), m - {el.ent.key}, size - |el.ent.msg|)
    ensures Ents(Unlink(ll, el)) == Without(Ents(ll), el.ent.key)
  {
    var k := Place(ll, m, size, el);
    var es := Ents(ll);
    WithoutAt(es, k);
    SplitTotal(es, k);
    CutMap(ll, m, k, el, Unlink(ll, el), m - {el.ent.key});
    CutDistinct(es, k);
  }

  lemma CutDistinct(es: seq<Ent>, k: nat)
    requires DistinctKeys(es) && k < |es|
    ensures DistinctKeys(es[..k] + es[k + 1..])
  {
    var r := es[..k] + es[k + 1..];
    assert forall i :: 0 <= i < |r| ==> r[i] == es[if i < k then i else i + 1];
  }

  lemma CutMap(ll: seq<Elem>, m: map<Key, Elem>, k: nat, el: Elem, l2: seq<Elem>, m2: map<Key, Elem>)
    requires Listed(ll, m) && Mapped(ll, m) && k < |ll| && ll[k] == el && m2 == m - {el.ent.key}
    requires l2 == ll[..k] + ll[k + 1..] && forall i :: 0 <= i < |ll| && i != k ==> ll[i].ent.key != el.ent.key
    ensures Listed(l2, m2) && Mapped(l2, m2)
  {
    forall i | 0 <= i < |l2| ensures l2[i].ent.key in m2 && m2[l2[i].ent.key] == l2[i] {
      assert l2[i] == ll[if i < k then i else i + 1];
    }
    forall key <- m2 ensures m2[key] in l2 {
      var i :| 0 <= i < |ll| && ll[i] == m[key];
      assert i != k;
      assert l2[if i < k then i else i - 1] == ll[i];
    }
  }

  lemma SplitTotal(es: seq<Ent>, k: nat)
    requires k < |es|
    ensures Total(es) == Total(es[..k] + es[k + 1..]) + |es[k].msg|
  {
    assert es == es[..k] + ([es[k]] + es[k + 1..]);
    TotalAppend(es[..k], [es[k]] + es[k + 1..]);
    TotalAppend(es[..k], es[k + 1..]);
  }

  lemma PushKeeps(ll: seq<Elem>, m: map<Key, Elem>, size: int, e: Elem)
    requires Linked(ll, m, size) && e.ent.key !in m
    ensures Linked([e] + ll, m[e.ent.key := e], size + |e.ent.msg|)
    ensures Ents([e] + ll) == [e.ent] + Ents(ll)
  {
    assert Ents([e] + ll) == [e.ent] + Ents(ll);
    assert ([e.ent] + Ents(ll))[1..] == Ents(ll);
    PushMap(ll, m, e, [e] + ll, m[e.ent.key := e]);
    forall i | 0 <= i < |ll| ensures Ents(ll)[i].key != e.ent.key {
      assert ll[i].ent.key in m;
    }
    PushDistinct(Ents(ll), e.ent);
  }

  lemma PushDistinct(es: seq<Ent>, e: Ent)
    requires DistinctKeys(es) && forall i :: 0 <= i < |es| ==> es[i].key != e.key
    ensures DistinctKeys([e] + es)
  {
    var r := [e] + es;
    assert forall i :: 1 <= i < |r| ==> r[i] == es[i - 1];
  }

  lemma PushMap(ll: seq<Elem>, m: map<Key, Elem>, e: Elem, l2: seq<Elem>, m2: map<Key, Elem>)
    requires Listed(ll, m) && Mapped(ll, m) && e.ent.key !in m && l2 == [e] + ll && m2 == m[e.ent.key := e]
    ensures Listed(l2, m2) && Mapped(l2, m2)
  {
    forall i | 0 <= i < |l2| ensures l2[i].ent.key in m2 && m2[l2[i].ent.key] == l2[i] {
      assert i > 0 ==> l2[i] == ll[i - 1];
    }
    forall key <- m2 ensures m2[key] in l2 && m2[key].ent.key == key {
      if key != e.ent.key {
        var i :| 0 <= i < |ll| && ll[i] == m[key];
        assert l2[i + 1] == m[key];
      } else {
        assert l2[0] == e;
      }
    }
  }

  lemma {:induction false} WithoutMade(es: seq<Ent>, key: Key)
    requires AllMade(es)
    ensures AllMade(Without(es, key))
  {
    hide EntOK;
    if es != [] {
      WithoutMade(es[1..], key);
    }
  }

  lemma PushMade(es: seq<Ent>, e: Ent)
    requires AllMade(es) && EntOK(e)
    ensures AllMade([e] + es)
  {
    hide EntOK;
  }

  lemma NotLinked(ll: seq<Elem>, m: map<Key, Elem>, size: int, key: Key)
    requires Linked(ll, m, size) && key !in m
    ensures Find(Ents(ll), key).None? && Without(Ents(ll), key) == Ents(ll)
  {
    forall i | 0 <= i < |ll| ensures Ents(ll)[i].key != key {
      assert ll[i].ent.key in m;
    }
    FindMissing(Ents(ll), key);
    WithoutMissing(Ents(ll), key);
  }

  lemma LinkedTotal(ll: seq<Elem>, m: map<Key, Elem>, size: int)
    requires Linked(ll, m, size)
    ensures size == Total(Ents(ll))
  {
  }

  lemma MadeByPut(e: Ent, info: Info)
    requires ParseResponse(e.msg) == Good(info) && Accepts(e.msg, info) && InMessage(e.msg, info.ttlOffsets)
            && |e.msg| >= 12
    requires e == NewEnt(e.key, e.msg, info, e.stored)
    ensures EntOK(e)
  {
    hide ParseResponse, CacheTTL, TtlsOf;
  }

  lemma MadeServable(e: Ent)
    requires EntOK(e)
    ensures forall q: Query :: q.qend >= 12 ==> Servable(e, q)
  {
    hide ParseResponse, CacheTTL;
  }

  lemma TrimStep(es: seq<Ent>, maxN: nat, maxBytes: nat)
    requires !FitsIn(es, maxN, maxBytes) && es != []
    ensures Trim(es, maxN, maxBytes) == Trim(es[..|es| - 1], maxN, maxBytes)
    ensures AllMade(es) ==> AllMade(es[..|es| - 1])
  {
    hide EntOK;
  }

  /** Taking an entry out, or moving it to the front, keeps both caps. */
  lemma FitsWithout(es: seq<Ent>, e: Ent, maxN: nat, maxBytes: nat)
    requires DistinctKeys(es) && Find(es, e.key) == Some(e) && FitsIn(es, maxN, maxBytes)
    ensures FitsIn(Without(es, e.key), maxN, maxBytes) && FitsIn([e] + Without(es, e.key), maxN, maxBytes)
  {
    var k := FindIndex(es, e);
    WithoutAt(es, k);
    SplitTotal(es, k);
    assert ([e] + Without(es, e.key))[1..] == Without(es, e.key);
  }

  lemma {:induction false} FindIndex(es: seq<Ent>, e: Ent) returns (k: nat)
    requires Find(es, e.key) == Some(e)
    ensures k < |es| && es[k] == e
  {
    if es[0].key == e.key {
      k := 0;
    } else {
      k := FindIndex(es[1..], e);
      k := k + 1;
    }
  }

  lemma DropKeeps(ll: seq<Elem>, m: map<Key, Elem>, size: int)
    requires Linked(ll, m, size) && ll != []
    ensures var l2, b := ll[..|ll| - 1], ll[|ll| - 1];
      Linked(l2, m - {b.ent.key}, size - |b.ent.msg|) && Ents(l2) == Ents(ll)[..|ll| - 1]
  {
    var b := ll[|ll| - 1];
    var k := Place(ll, m, size, b);
    assert ll[k + 1..] == [] by { assert k == |ll| - 1; }
    assert Unlink(ll, b) == ll[..|ll| - 1];
    UnlinkKeeps(ll, m, size, b);
  }

  class Cache {
    var ll: seq<Elem>
    var m: map<Key, Elem>
    var size: int
    const maxN: nat
    const maxBytes: nat

    ghost predicate Valid()
      reads this
    {
      Linked(ll, m, size) && FitsIn(Ents(ll), maxN, maxBytes) && AllMade(Ents(ll))
    }

    constructor (n: nat, b: nat)
      ensures Valid() && ll == [] && maxN == n && maxBytes == b
    {
      ll, m, size, maxN, maxBytes := [], map[], 0, n, b;
    }

    method Put(key: Key, msg: bytes, info: Info, now: int)
      requires Valid() && ParseResponse(msg) == Good(info)
      modifies this
      ensures Valid()
      ensures InMessage(msg, info.ttlOffsets)
      ensures Ents(ll) == if Accepts(msg, info) then PutList(old(Ents(ll)), NewEnt(key, msg, info, now), maxN, maxBytes)
                          else old(Ents(ll))
    {
      hide Linked, EntOK, AllMade, ParseResponse, CacheTTL, Without, Trim, FitsIn, Unlink, Ents, U32;
      ParsedOffsets(msg, info);
      var ttl := CacheTTL(info);
      if ttl == 0 || |msg| > MAX_MSG {
        return;
      }
      var ttls: seq<nat> := [];
      for i := 0 to |info.ttlOffsets|
        invariant ttls == TtlsOf(msg, info.ttlOffsets)[..i]
      {
        var t := U32(msg, info.ttlOffsets[i]);
        if t > 0x7FFFFFFF {
          t := 0;
        }
        ttls := ttls + [t];
      }
      var e := new Elem(Ent(key, msg, info.ttlOffsets, ttls, now, now + ttl * SECOND, info));
      ghost var es := Ents(ll);
      MadeByPut(e.ent, info);
      WithoutMade(es, key);
      PushMade(Without(es, key), e.ent);
      if key in m {
        var el := Lookup(key);
        UnlinkKeeps(ll, m, size, el);
        size := size - |el.ent.msg|;
        ll := Unlink(ll, el);
        m := m - {key};
      } else {
        NotLinked(ll, m, size, key);
      }
      PushKeeps(ll, m, size, e);
      m := m[key := e];
      ll := [e] + ll;
      size := size + |msg|;
      Evict();
    }

    /** Drops entries from the back while a cap is exceeded. */
    method Evict()
      requires Linked(ll, m, size) && AllMade(Ents(ll))
      modifies this
      ensures Valid() && Ents(ll) == Trim(old(Ents(ll)), maxN, maxBytes)
    {
      hide Linked, EntOK, DistinctKeys, AllMade;
      LinkedTotal(ll, m, size);
      while (|ll| > maxN || size > maxBytes) && |ll| > 0
        invariant Linked(ll, m, size) && AllMade(Ents(ll)) && size == Total(Ents(ll))
        invariant Trim(Ents(ll), maxN, maxBytes) == Trim(old(Ents(ll)), maxN, maxBytes)
        decreases |ll|
      {
        var b := ll[|ll| - 1];
        DropKeeps(ll, m, size);
        TrimStep(Ents(ll), maxN, maxBytes);
        size := size - |b.ent.msg|;
        ll := ll[..|ll| - 1];
        m := m - {b.ent.key};
        LinkedTotal(ll, m, size);
      }
    }

    method Get(key: Key, query: bytes, q: Query, now: int) returns (r: Option<(bytes, Info)>)
      requires Valid() && q.qend >= 12
      modifies this
      ensures Valid()
      ensures Ents(ll) == GetList(old(Ents(ll)), key, now)
      ensures var f := Find(old(Ents(ll)), key);
        if f.Some? && now < f.value.expire
        then f.value.key == key && Servable(f.value, q) && r == Some((Served(f.value, query, q, now), f.value.info))
        else r.None?
    {
      hide Linked, EntOK, AllMade, Without, Find, FitsIn, Unlink, Ents, Served;
      ghost var es := Ents(ll);
      if key !in m {
        NotLinked(ll, m, size, key);
        return None;
      }
      var el := Lookup(key);
      var e := el.ent;
      UnlinkKeeps(ll, m, size, el);
      WithoutMade(es, key);
      FitsWithout(es, e, maxN, maxBytes);
      if now >= e.expire {
        size := size - |e.msg|;
        ll := Unlink(ll, el);
        m := m - {key};
        return None;
      }
      PushMade(Without(es, key), e);
      PushKeeps(Unlink(ll, el), m - {key}, size - |e.msg|, el);
      assert m == (m - {key})[key := el];
      ll := [el] + Unlink(ll, el);
      var out := ServeCopy(e, query, q, now);
      return Some((out, e.info));
    }

    method Lookup(key: Key) returns (el: Elem)
      requires Valid() && key in m
      ensures el == m[key] && el.ent.key == key && Find(Ents(ll), key) == Some(el.ent)
      ensures EntOK(el.ent) && forall q: Query :: q.qend >= 12 ==> Servable(el.ent, q)
      ensures DistinctKeys(Ents(ll))
    {
      el := m[key];
      var k := Place(ll, m, size, el);
      assert EntOK(Ents(ll)[k]);
      hide EntOK;
      FindLinked(ll, m, size, el);
      MadeServable(el.ent);
    }

    method Flush()
      modifies this
      ensures Valid() && ll == []
    {
      ll, m, size := [], map[], 0;
    }
  }

  method ServeCopy(e: Ent, query: bytes, q: Query, now: int) returns (out: bytes)
    requires Servable(e, q)
    ensures out == Served(e, query, q, now)
  {
    hide Be16, Be32, U16, ServedFlags;
    out := Put(e.msg, 0, Be16(q.id));
    out := Put(out, 2, Be16(ServedFlags(U16(e.msg, 2), q.flags)));
    if q.qend == e.info.q.qend && q.qend <= |out| && q.qend <= |query| {
      out := Put(out, 12, query[12..q.qend]);
    }
    assert out == ServedHead(e.msg, query, q, e.info);
    var el := Elapsed(now, e.stored);
    for i := 0 to |e.ttlOffs|
      invariant |out| == |e.msg|
      invariant Retime(out, e.ttlOffs[i..], e.ttls[i..], el) == Served(e, query, q, now)
    {
      var t := e.ttls[i];
      if t > el {
        t := t - el;
      } else {
        t := 0;
      }
      assert e.ttlOffs[i..][1..] == e.ttlOffs[i + 1..] && e.ttls[i..][1..] == e.ttls[i + 1..];
      out := Put(out, e.ttlOffs[i], Be32(t));
    }
  }

  // ----- What a parsed answer says about its TTLs -----

  /** Fields of four octets, one after the other, between `lo` and `hi`. */
  predicate Spaced(offs: seq<nat>, lo: nat, hi: nat)
    decreases |offs|
  {
    if offs == [] then lo <= hi else lo <= offs[0] && Spaced(offs[1..], offs[0] + 4, hi)
  }

  lemma {:induction false} SpacedAppend(offs: seq<nat>, lo: nat, mid: nat, x: nat, hi: nat)
    requires Spaced(offs, lo, mid) && mid <= x && x + 4 <= hi
    ensures Spaced(offs + [x], lo, hi)
    decreases |offs|
  {
    if offs == [] {
      assert (offs + [x])[1..] == [];
    } else {
      SpacedAppend(offs[1..], offs[0] + 4, mid, x, hi);
      assert (offs + [x])[1..] == offs[1..] + [x];
    }
  }

  lemma {:induction false} SpacedWider(offs: seq<nat>, lo: nat, mid: nat, hi: nat)
    requires Spaced(offs, lo, mid) && mid <= hi
    ensures Spaced(offs, lo, hi)
    decreases |offs|
  {
    if offs != [] {
      SpacedWider(offs[1..], offs[0] + 4, mid, hi);
    }
  }

  /** The least TTL is that of some record and at most that of each. */
  predicate LeastTTL(b: bytes, m: Info)
    requires InMessage(b, m.ttlOffsets)
  {
    && (m.haveTTL <==> m.ttlOffsets != [])
    && (forall i :: 0 <= i < |m.ttlOffsets| ==> m.minTTL <= MaskTTL(U32(b, m.ttlOffsets[i])))
    && (m.haveTTL ==> exists i :: 0 <= i < |m.ttlOffsets| && m.minTTL == MaskTTL(U32(b, m.ttlOffsets[i])))
  }

  lemma NoteTTL(b: bytes, owner: bytes, np: nat, i: nat, an: nat, ns: nat, m: Info, m2: Info)
    requires RecordOK(b, np) && InMessage(b, m.ttlOffsets) && LeastTTL(b, m)
    requires m2 == NoteRecord(b, owner, np, i, an, ns, m)
    ensures m2.ttlOffsets == m.ttlOffsets || m2.ttlOffsets == m.ttlOffsets + [np + 4]
    ensures InMessage(b, m2.ttlOffsets) && LeastTTL(b, m2)
    ensures m2.q.qend == m.q.qend
  {
    hide U16, NameOf, SoaTTL;
    var ttl := MaskTTL(U32(b, np + 4));
    if U16(b, np) != TYPE_OPT {
      var o2 := m.ttlOffsets + [np + 4];
      assert m2.ttlOffsets == o2 && m2.haveTTL;
      assert m2.minTTL == if !m.haveTTL || ttl < m.minTTL then ttl else m.minTTL;
      assert o2[|o2| - 1] == np + 4;
      if m.haveTTL {
        var k :| 0 <= k < |m.ttlOffsets| && m.minTTL == MaskTTL(U32(b, m.ttlOffsets[k]));
        assert o2[k] == m.ttlOffsets[k];
      }
    }
  }

  lemma NameMoves(b: bytes, p: nat)
    ensures NameOf(b, p).Name? ==> p < NameOf(b, p).next <= |b|
  {
    DnsNames.SkipStopsWhereReadStops(b, p);
  }

  lemma {:induction false} ScanTTL(b: bytes, p: nat, i: nat, n: nat, an: nat, ns: nat, m: Info)
    requires p <= |b| && Spaced(m.ttlOffsets, m.q.qend, p) && InMessage(b, m.ttlOffsets) && LeastTTL(b, m)
    ensures var r := ScanRecords(b, p, i, n, an, ns, m);
      r.Good? ==> && Spaced(r.m.ttlOffsets, r.m.q.qend, |b|) && InMessage(b, r.m.ttlOffsets) && LeastTTL(b, r.m)
                  && r.m.q.qend == m.q.qend
    decreases n - i
  {
    hide NoteRecord, LeastTTL, U16, NameOf, Spaced, InMessage;
    if i >= n {
      SpacedWider(m.ttlOffsets, m.q.qend, p, |b|);
    } else {
      var o := NameOf(b, p);
      NameMoves(b, p);
      if o.Name? && RecordOK(b, o.next) {
        var m2 := NoteRecord(b, o.text, o.next, i, an, ns, m);
        var p2 := o.next + 10 + U16(b, o.next + 8);
        NoteTTL(b, o.text, o.next, i, an, ns, m, m2);
        SpacedAppend(m.ttlOffsets, m.q.qend, p, o.next + 4, p2);
        SpacedWider(m.ttlOffsets, m.q.qend, p, p2);
        ScanTTL(b, p2, i + 1, n, an, ns, m2);
      }
    }
  }

  /** In a parsed answer the TTL fields stand behind the question, inside the message and apart
      from each other, and the least of them is the one reported. */
  lemma ParsedTTLs(b: bytes, m: Info)
    requires ParseResponse(b) == Good(m)
    ensures |b| >= 12 && 12 < m.q.qend && Spaced(m.ttlOffsets, m.q.qend, |b|)
    ensures InMessage(b, m.ttlOffsets) && LeastTTL(b, m)
  {
    hide ScanRecords;
    DnsNames.SkipStopsWhereReadStops(b, 12);
    var q := Question(b).q;
    ScanTTL(b, q.qend, 0, Counts(b), U16(b, 6), U16(b, 8), EmptyInfo(q, U16(b, 6)));
  }

  lemma ParsedOffsets(b: bytes, m: Info)
    requires ParseResponse(b) == Good(m)
    ensures |b| >= 12 && InMessage(b, m.ttlOffsets)
  {
    hide ParseResponse;
    ParsedTTLs(b, m);
  }
}
