/**
 What the answer cache keeps (dns_forwarder.go:602-750): its list is in the order of last use, and an
 answer stays until enough other questions have been stored or served to push it out.
 */
module DnsRecency {
  import opened Common
  import opened Bytes
  import opened DnsWire
  import opened DnsCache
  import opened DnsCaching

  /** The operation stores or looks up an answer under the key. */
  predicate Uses(op: Op, key: Key) {
    (op.GetOp? && op.key == key) || (op.PutOp? && op.key == key && Accepts(op.msg, op.info))
  }

  function LastUse(ops: seq<Op>, key: Key): int {
    if ops == [] then -1 else if Uses(ops[|ops| - 1], key) then |ops| - 1 else LastUse(ops[..|ops| - 1], key)
  }

  /** The list is in the order of last use, and no message is longer than 8192 octets. */
  predicate InOrder(es: seq<Ent>, ops: seq<Op>) {
    && (forall i, j :: 0 <= i < j < |es| ==> LastUse(ops, es[i].key) > LastUse(ops, es[j].key))
    && (forall i :: 0 <= i < |es| ==> |es[i].msg| <= 8192)
  }

  lemma {:induction false} LastUseBefore(ops: seq<Op>, key: Key)
    ensures LastUse(ops, key) < |ops|
  {
    if ops != [] {
      LastUseBefore(ops[..|ops| - 1], key);
    }
  }

  lemma {:induction false} WithoutFrom(es: seq<Ent>, key: Key)
    ensures forall e <- Without(es, key) :: e in es && e.key != key
  {
    if es != [] {
      WithoutFrom(es[1..], key);
    }
  }

  lemma OneMore(e: Ent, es: seq<Ent>, ops: seq<Op>)
    requires InOrder(es, ops) && |e.msg| <= 8192 && forall x <- es :: LastUse(ops, e.key) > LastUse(ops, x.key)
    ensures InOrder([e] + es, ops)
  {
    hide LastUse;
    var r := [e] + es;
    forall i, j | 0 <= i < j < |r| ensures LastUse(ops, r[i].key) > LastUse(ops, r[j].key) {
      assert r[j] == es[j - 1] && es[j - 1] in es;
      assert i > 0 ==> r[i] == es[i - 1];
    }
  }

  lemma RestInOrder(es: seq<Ent>, ops: seq<Op>)
    requires InOrder(es, ops) && es != []
    ensures InOrder(es[1..], ops) && |es[0].msg| <= 8192
    ensures forall x <- es[1..] :: LastUse(ops, es[0].key) > LastUse(ops, x.key)
  {
    hide LastUse;
    var t := es[1..];
    assert forall i :: 0 <= i < |t| ==> t[i] == es[i + 1];
  }

  lemma {:induction false} WithoutInOrder(es: seq<Ent>, key: Key, ops: seq<Op>)
    requires InOrder(es, ops)
    ensures InOrder(Without(es, key), ops)
  {
    hide InOrder, LastUse;
    if es != [] {
      RestInOrder(es, ops);
      WithoutInOrder(es[1..], key, ops);
      WithoutFrom(es[1..], key);
      OneMore(es[0], Without(es[1..], key), ops);
      assert [] + Without(es[1..], key) == Without(es[1..], key);
    }
  }

  /** An operation on one key leaves the order of the others. */
  lemma OthersInOrder(es: seq<Ent>, ops: seq<Op>, op: Op)
    requires InOrder(es, ops) && forall e <- es :: !Uses(op, e.key)
    ensures InOrder(es, ops + [op])
  {
    assert (ops + [op])[..|ops|] == ops;
    forall i | 0 <= i < |es| ensures LastUse(ops + [op], es[i].key) == LastUse(ops, es[i].key) {
      assert es[i] in es;
    }
  }

  lemma PushInOrder(es: seq<Ent>, ops: seq<Op>, op: Op, e: Ent)
    requires InOrder(es, ops) && (forall x <- es :: !Uses(op, x.key)) && Uses(op, e.key) && |e.msg| <= 8192
    ensures InOrder([e] + es, ops + [op])
  {
    OthersInOrder(es, ops, op);
    forall i | 0 <= i < |es| ensures LastUse(ops + [op], e.key) > LastUse(ops + [op], es[i].key) {
      assert (ops + [op])[..|ops|] == ops && es[i] in es;
      LastUseBefore(ops, es[i].key);
    }
  }

  /** The list that an operation makes, before anything is dropped for want of room. */
  function Grown(es: seq<Ent>, op: Op): seq<Ent>
    requires OpOK(op)
  {
    match op
    case PutOp(key, msg, info, now) =>
      if Accepts(msg, info) then [NewEnt(key, msg, info, now)] + Without(es, key) else es
    case GetOp(key, now) => GetList(es, key, now)
    case FlushOp => []
  }

  lemma GrownIs(es: seq<Ent>, op: Op, maxN: nat, maxBytes: nat)
    requires OpOK(op)
    ensures Apply(es, op, maxN, maxBytes) <= Grown(es, op)
    ensures Apply(es, op, maxN, maxBytes) == Grown(es, op)
            || Apply(es, op, maxN, maxBytes) == Trim(Grown(es, op), maxN, maxBytes)
  {
    hide Accepts, NewEnt;
    TrimLongest(Grown(es, op), maxN, maxBytes, 0);
    if op.PutOp? && Accepts(op.msg, op.info) {
      NewKey(op.key, op.msg, op.info, op.now);
    }
  }

  lemma {:induction false} NoneOf(es: seq<Ent>, key: Key)
    requires Find(es, key).None?
    ensures forall e <- es :: e.key != key
  {
    if es != [] {
      NoneOf(es[1..], key);
    }
  }

  lemma NewSize(key: Key, msg: bytes, m: Info, now: int)
    requires InMessage(msg, m.ttlOffsets) && Accepts(msg, m)
    ensures NewEnt(key, msg, m, now).key == key && NewEnt(key, msg, m, now).msg == msg && |msg| <= 8192
  {
    hide CacheTTL;
  }

  lemma GrownInOrder(es: seq<Ent>, ops: seq<Op>, op: Op)
    requires OpOK(op) && InOrder(es, ops)
    ensures InOrder(Grown(es, op), ops + [op])
  {
    hide Accepts, NewEnt, InOrder, LastUse;
    match op
    case PutOp(key, msg, info, now) =>
      WithoutInOrder(es, key, ops);
      WithoutFrom(es, key);
      if Accepts(msg, info) {
        NewSize(key, msg, info, now);
        PushInOrder(Without(es, key), ops, op, NewEnt(key, msg, info, now));
      } else {
        OthersInOrder(es, ops, op);
      }
    case GetOp(key, now) =>
      WithoutInOrder(es, key, ops);
      WithoutFrom(es, key);
      if Find(es, key).None? {
        NoneOf(es, key);
        OthersInOrder(es, ops, op);
      } else if now < Find(es, key).value.expire {
        var k := FoundAt(es, key);
        assert |es[k].msg| <= 8192 by { SizeAt(es, ops, k); }
        PushInOrder(Without(es, key), ops, op, es[k]);
      } else {
        OthersInOrder(Without(es, key), ops, op);
      }
    case FlushOp =>
      assert InOrder([], ops + [op]) by { NothingInOrder(ops + [op]); }
  }

  lemma NothingInOrder(ops: seq<Op>)
    ensures InOrder([], ops)
  {
  }

  lemma SizeAt(es: seq<Ent>, ops: seq<Op>, k: nat)
    requires InOrder(es, ops) && k < |es|
    ensures |es[k].msg| <= 8192
  {
  }

  /** Where an entry is found, and not before. */
  lemma {:induction false} FoundAt(es: seq<Ent>, key: Key) returns (k: nat)
    requires Find(es, key).Some?
    ensures k < |es| && Find(es, key) == Some(es[k]) && es[k].key == key
    ensures forall i :: 0 <= i < k ==> es[i].key != key
  {
    if es[0].key == key {
      k := 0;
    } else {
      k := FoundAt(es[1..], key);
      assert forall i :: 1 <= i <= k ==> es[i] == es[1..][i - 1];
      k := k + 1;
    }
  }

  lemma PrefixInOrder(es: seq<Ent>, r: seq<Ent>, ops: seq<Op>)
    requires InOrder(es, ops) && r <= es
    ensures InOrder(r, ops)
  {
  }

  /** In every run the list is in the order of last use, so what is dropped was used longest ago. */
  lemma {:induction false} OrderOfUse(ops: seq<Op>, maxN: nat, maxBytes: nat)
    requires OpsOK(ops)
    ensures InOrder(Run(ops, maxN, maxBytes), ops)
  {
    hide InOrder, Apply, Grown, OpOK;
    if ops == [] {
      NothingInOrder(ops);
    } else {
      var rest, op := ops[..|ops| - 1], ops[|ops| - 1];
      OrderOfUse(rest, maxN, maxBytes);
      var es := Run(rest, maxN, maxBytes);
      GrownInOrder(es, rest, op);
      GrownIs(es, op, maxN, maxBytes);
      assert rest + [op] == ops;
      PrefixInOrder(Grown(es, op), Apply(es, op, maxN, maxBytes), ops);
    }
  }

  // ----- How long an answer stays -----

  lemma {:induction false} LastUseIs(ops: seq<Op>, key: Key)
    ensures var m := LastUse(ops, key);
      && (m >= 0 ==> m < |ops| && Uses(ops[m], key))
      && forall j :: Max(m + 1, 0) <= j < |ops| ==> !Uses(ops[j], key)
  {
    if ops != [] && !Uses(ops[|ops| - 1], key) {
      LastUseIs(ops[..|ops| - 1], key);
    }
  }

  lemma {:induction false} TotalBound(es: seq<Ent>)
    requires forall i :: 0 <= i < |es| ==> |es[i].msg| <= 8192
    ensures Total(es) <= 8192 * |es|
  {
    if es != [] {
      TotalBound(es[1..]);
    }
  }

  /** Entries with different keys, all among `keys`, are no more than these. */
  lemma {:induction false} CountKeys(es: seq<Ent>, keys: set<Key>)
    requires forall i :: 0 <= i < |es| ==> es[i].key in keys
    requires forall i, j :: 0 <= i < j < |es| ==> es[i].key != es[j].key
    ensures |es| <= |keys|
  {
    if es != [] {
      forall i | 0 <= i < |es| - 1 ensures es[1..][i].key in keys - {es[0].key} {
        assert es[1..][i] == es[i + 1];
      }
      CountKeys(es[1..], keys - {es[0].key});
    }
  }

  /** Room for one more than so many answers, each as long as an answer may be. */
  predicate RoomFor(n: nat, maxN: nat, maxBytes: nat) { n + 1 <= maxN && 8192 * (n + 1) <= maxBytes }

  /** What is done to other answers is done to those of `keys`; the answer of `key` itself is only looked
      up, and in time. */
  predicate OnlyUses(op: Op, key: Key, keys: set<Key>, expire: int) {
    match op
    case PutOp(k, msg, info, _) => k in keys || !Accepts(msg, info)
    case GetOp(k, now) => k in keys || (k == key && now < expire)
    case FlushOp => false
  }

  /** As far as to the entry of a key, the list is no longer than there is room for. */
  lemma NotPushedOut(es: seq<Ent>, ops: seq<Op>, n: nat, key: Key, keys: set<Key>, expire: int, maxN: nat,
                     maxBytes: nat)
    requires InOrder(es, ops) && Find(es, key).Some? && RoomFor(|keys|, maxN, maxBytes)
    requires LastUse(ops, key) >= n && forall j :: n < j < |ops| ==> OnlyUses(ops[j], key, keys, expire)
    ensures Find(Trim(es, maxN, maxBytes), key) == Find(es, key)
  {
    var p := FoundAt(es, key);
    var front := es[..p];
    forall i | 0 <= i < p ensures front[i].key in keys {
      LastUseIs(ops, es[i].key);
      assert LastUse(ops, es[i].key) > LastUse(ops, es[p].key);
      hide Accepts;
    }
    CountKeys(front, keys);
    TotalBound(es[..p + 1]);
    TrimLongest(es, maxN, maxBytes, p + 1);
    FindInBeginning(es, Trim(es, maxN, maxBytes), p);
  }

  lemma {:induction false} FindInBeginning(es: seq<Ent>, r: seq<Ent>, p: nat)
    requires r <= es && p < |r| && forall i :: 0 <= i < p ==> es[i].key != es[p].key
    ensures Find(r, es[p].key) == Find(es, es[p].key) == Some(es[p])
  {
    if p > 0 {
      FindInBeginning(es[1..], r[1..], p - 1);
    }
  }

  /** An operation that leaves an answer alone does not lose it, but for want of room. */
  lemma FindGrown(es: seq<Ent>, op: Op, key: Key, keys: set<Key>)
    requires OpOK(op) && Find(es, key).Some? && key !in keys && OnlyUses(op, key, keys, Find(es, key).value.expire)
    ensures Find(Grown(es, op), key) == Find(es, key)
  {
    hide Accepts, NewEnt;
    match op
    case PutOp(k, msg, info, now) =>
      if Accepts(msg, info) {
        NewKey(k, msg, info, now);
        FindPushed(es, NewEnt(k, msg, info, now), key);
      }
    case GetOp(k, now) =>
      FindKey(es, k);
      FindWithout(es, k, key);
      if Find(es, k).Some? {
        FindPushed(es, Find(es, k).value, key);
      }
    case FlushOp =>
  }

  lemma {:induction false} UsedLater(ops: seq<Op>, n: nat, key: Key)
    requires n < |ops| && Uses(ops[n], key)
    ensures LastUse(ops, key) >= n
  {
    LastUseIs(ops, key);
  }

  /** All that is done after the `n`-th operation leaves the answer of `key` alone. */
  predicate OnlyOthers(ops: seq<Op>, n: nat, key: Key, keys: set<Key>, expire: int) {
    forall j :: n < j < |ops| ==> OnlyUses(ops[j], key, keys, expire)
  }

  lemma OnlyBefore(ops: seq<Op>, n: nat, key: Key, keys: set<Key>, expire: int)
    requires OnlyOthers(ops, n, key, keys, expire) && n + 1 < |ops|
    ensures OnlyOthers(ops[..|ops| - 1], n, key, keys, expire)
    ensures OnlyUses(ops[|ops| - 1], key, keys, expire)
  {
    hide OnlyUses;
  }

  /** The last operation of a run drops nothing that is needed for want of room. */
  lemma KeptInTrim(es: seq<Ent>, ops: seq<Op>, n: nat, key: Key, keys: set<Key>, expire: int, maxN: nat,
                   maxBytes: nat)
    requires n < |ops| && OpOK(ops[|ops| - 1]) && InOrder(es, ops[..|ops| - 1]) && Uses(ops[n], key)
    requires OnlyOthers(ops, n, key, keys, expire) && RoomFor(|keys|, maxN, maxBytes)
    requires Find(Grown(es, ops[|ops| - 1]), key).Some?
    ensures Find(Apply(es, ops[|ops| - 1], maxN, maxBytes), key) == Find(Grown(es, ops[|ops| - 1]), key)
  {
    hide OnlyUses, Apply, Grown, InOrder, RoomFor, OpOK, Uses;
    var rest, op := ops[..|ops| - 1], ops[|ops| - 1];
    assert rest + [op] == ops;
    GrownInOrder(es, rest, op);
    UsedLater(ops, n, key);
    NotPushedOut(Grown(es, op), ops, n, key, keys, expire, maxN, maxBytes);
    GrownIs(es, op, maxN, maxBytes);
  }

  /** An answer that was stored stays as long as no more than so many others are used, whatever their
      lengths, and its time is not over: it is found by every lookup until then. */
  lemma {:induction false} StaysHeld(ops: seq<Op>, n: nat, keys: set<Key>, maxN: nat, maxBytes: nat)
    requires OpsOK(ops) && n < |ops| && ops[n].PutOp? && Accepts(ops[n].msg, ops[n].info)
    requires ops[n].key !in keys && RoomFor(|keys|, maxN, maxBytes)
    requires OnlyOthers(ops, n, ops[n].key, keys, ops[n].now + CacheTTL(ops[n].info) * SECOND)
    ensures Find(Run(ops, maxN, maxBytes), ops[n].key) ==
            Some(NewEnt(ops[n].key, ops[n].msg, ops[n].info, ops[n].now))
    decreases |ops|
  {
    hide Accepts, CacheTTL, OnlyUses, OnlyOthers, Apply, Grown, InOrder, RoomFor, NewEnt, OpOK;
    var put, rest, op := ops[n], ops[..|ops| - 1], ops[|ops| - 1];
    var expire := put.now + CacheTTL(put.info) * SECOND;
    var es := Run(rest, maxN, maxBytes);
    if n == |rest| {
      StoredFirst(es, put);
    } else {
      OnlyBefore(ops, n, put.key, keys, expire);
      StaysHeld(rest, n, keys, maxN, maxBytes);
      PutMessage(put);
      ExpireIs(put.key, put.msg, put.info, put.now);
      FindGrown(es, op, put.key, keys);
    }
    OrderOfUse(rest, maxN, maxBytes);
    KeptInTrim(es, ops, n, put.key, keys, expire, maxN, maxBytes);
  }

  lemma PutMessage(op: Op)
    requires OpOK(op) && op.PutOp?
    ensures InMessage(op.msg, op.info.ttlOffsets)
  {
    hide ParseResponse, InMessage;
  }

  lemma ExpireIs(key: Key, msg: bytes, m: Info, now: int)
    requires InMessage(msg, m.ttlOffsets)
    ensures NewEnt(key, msg, m, now).expire == now + CacheTTL(m) * SECOND
  {
    hide CacheTTL;
  }

  lemma StoredFirst(es: seq<Ent>, put: Op)
    requires put.PutOp? && OpOK(put) && Accepts(put.msg, put.info)
    ensures Find(Grown(es, put), put.key) == Some(NewEnt(put.key, put.msg, put.info, put.now))
  {
    hide Accepts, NewEnt;
    NewKey(put.key, put.msg, put.info, put.now);
    FindPushed(es, NewEnt(put.key, put.msg, put.info, put.now), put.key);
  }

  /** With the caps of the program, until 512 others have been used. */
  lemma DefaultRoom(keys: set<Key>)
    ensures RoomFor(|keys|, MAX_ENTRIES, MAX_BYTES) <==> |keys| <= 511
  {
  }
}
