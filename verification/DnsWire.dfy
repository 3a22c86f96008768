/**
 DNS messages (dns_wire.go): reading and skipping names, parsing queries and responses,
 building queries and replies, truncation (sections 3.1, 4.1.1 and 4.1.4 of RFC 1035).
 Names are byte strings; letters are lowered within ASCII.
 */
module DnsWire {
  import opened Common
  import opened Bytes

  const TYPE_A := 1
  const TYPE_CNAME := 5
  const TYPE_SOA := 6
  const TYPE_AAAA := 28
  const TYPE_OPT := 41

  const RCODE_NOERROR := 0
  const RCODE_SERVFAIL := 2
  const RCODE_NXDOMAIN := 3
  const RCODE_REFUSED := 5

  const MAX_RECORDS := 128
  const BLOCK_TTL := 60
  const DOT: byte := 46

  // ----- Names -----

  function LowerByte(c: byte): byte { if 65 <= c <= 90 then c + 32 else c }

  function Lower(s: bytes): (r: bytes)
    ensures |r| == |s|
  {
    seq(|s|, i requires 0 <= i < |s| => LowerByte(s[i]))
  }

  datatype NameAt = Name(text: bytes, next: nat) | BadName

  function AddLabel(sb: bytes, lab: bytes): bytes {
    if sb == [] then lab else sb + [DOT] + lab
  }

  /** The name that continues at `off` after `hops` steps; `sb` is its text so far and `next`
      the offset after the name once a pointer was followed. */
  function ReadFrom(b: bytes, off: nat, hops: nat, sb: bytes, next: Option<nat>): NameAt
    decreases 128 - hops
  {
    if hops > 127 || off >= |b| then BadName
    else if b[off] == 0 then Name(Lower(sb), next.GetOr(off + 1))
    else if b[off] >= 192 then
      if off + 1 >= |b| || U16(b, off) % 0x4000 >= off then BadName
      else ReadFrom(b, U16(b, off) % 0x4000, hops + 1, sb, Some(next.GetOr(off + 2)))
    else if b[off] >= 64 || off + 1 + b[off] as int > |b| then BadName
    else
      var sb' := AddLabel(sb, b[off + 1..off + 1 + b[off] as int]);
      if |sb'| > 255 then BadName else ReadFrom(b, off + 1 + b[off] as int, hops + 1, sb', next)
  }

  function NameOf(b: bytes, off: nat): NameAt { ReadFrom(b, off, 0, [], None) }

  method ReadName(b: bytes, start: nat) returns (r: NameAt)
    ensures r == NameOf(b, start)
  {
    var off: nat, hops: nat, sb: bytes, next: Option<nat> := start, 0, [], None;
    while true
      invariant hops <= 128
      invariant ReadFrom(b, off, hops, sb, next) == NameOf(b, start)
      decreases 128 - hops
    {
      if hops > 127 || off >= |b| {
        return BadName;
      }
      var l := b[off] as int;
      if l == 0 {
        if next.None? {
          next := Some(off + 1);
        }
        return Name(Lower(sb), next.value);
      } else if l >= 192 {
        if off + 1 >= |b| {
          return BadName;
        }
        var ptr := U16(b, off) % 0x4000;
        if next.None? {
          next := Some(off + 2);
        }
        if ptr >= off {
          return BadName;
        }
        off := ptr;
      } else if l >= 64 || off + 1 + l > |b| {
        return BadName;
      } else {
        sb := AddLabel(sb, b[off + 1..off + 1 + l]);
        if |sb| > 255 {
          return BadName;
        }
        off := off + 1 + l;
      }
      hops := hops + 1;
    }
  }

  function SkipFrom(b: bytes, off: nat, hops: nat): (r: Option<nat>)
    ensures r.Some? ==> r.value > off
    decreases 128 - hops
  {
    if hops >= 128 || off >= |b| then None
    else if b[off] == 0 then Some(off + 1)
    else if b[off] >= 192 then (if off + 1 >= |b| then None else Some(off + 2))
    else if b[off] >= 64 then None
    else SkipFrom(b, off + 1 + b[off] as int, hops + 1)
  }

  function Skip(b: bytes, off: nat): (r: Option<nat>)
    ensures r.Some? ==> r.value > off
  {
    SkipFrom(b, off, 0)
  }

  method SkipName(b: bytes, start: nat) returns (r: Option<nat>)
    ensures r == Skip(b, start)
  {
    var off: nat := start;
    for hops := 0 to 128
      invariant SkipFrom(b, off, hops) == Skip(b, start)
    {
      if off >= |b| {
        return None;
      }
      var l := b[off] as int;
      if l == 0 {
        return Some(off + 1);
      }
      if l >= 192 {
        return if off + 1 >= |b| then None else Some(off + 2);
      }
      if l >= 64 {
        return None;
      }
      off := off + 1 + l;
    }
    return None;
  }

  // ----- Queries -----

  datatype Query = Query(id: nat, flags: nat, qname: bytes, qtype: nat, qclass: nat, qend: nat,
                         hasOPT: bool, udpSize: nat, wantDO: bool, optLen: nat)

  datatype QueryResult = Parsed(q: Query) | BadQuery

  /** Header and question, which queries and responses share; exactly one question. */
  function Question(b: bytes): QueryResult {
    if |b| < 12 || U16(b, 4) != 1 then BadQuery else
      var n := NameOf(b, 12);
      if n.BadName? || n.next + 4 > |b| then BadQuery
      else Parsed(Query(U16(b, 0), U16(b, 2), n.text, U16(b, n.next), U16(b, n.next + 2), n.next + 4, false, 512, false,
        0))
  }

  function Clamp(n: nat): nat { if n < 512 then 512 else if n > 4096 then 4096 else n }

  /** A record header: where it ends, its type and the length of its data. */
  function RecordOK(b: bytes, np: nat): bool { np + 10 <= |b| && np + 10 + U16(b, np + 8) <= |b| }

  /** Looks for an OPT record among the additional ones, up to the first malformed record. */
  function ScanOPT(b: bytes, p: nat, i: nat, n: nat, additional: nat, q: Query): Query
    decreases n - i
  {
    if i >= n then q else
      var np := Skip(b, p);
      if np.None? || !RecordOK(b, np.value) then q else
        var m, rdl := np.value, U16(b, np.value + 8);
        var q' := if i >= additional && U16(b, m) == TYPE_OPT
                  then q.(hasOPT := true, udpSize := Clamp(U16(b, m + 2)), wantDO := Bit(U16(b, m + 6), 15) == 1,
                    optLen := rdl)
                  else q;
        ScanOPT(b, m + 10 + rdl, i + 1, n, additional, q')
  }

  function Counts(b: bytes): nat
    requires |b| >= 12
  {
    U16(b, 6) + U16(b, 8) + U16(b, 10)
  }

  function ParseQuery(b: bytes): QueryResult {
    var r := Question(b);
    if r.BadQuery? || Counts(b) > MAX_RECORDS then r
    else Parsed(ScanOPT(b, r.q.qend, 0, Counts(b), U16(b, 6) + U16(b, 8), r.q))
  }

  method FindOPT(b: bytes, start: nat, n: nat, additional: nat, query: Query) returns (q: Query)
    ensures q == ScanOPT(b, start, 0, n, additional, query)
  {
    hide SkipFrom, Bit;
    q := query;
    var p: nat := start;
    for i := 0 to n
      invariant ScanOPT(b, p, i, n, additional, q) == ScanOPT(b, start, 0, n, additional, query)
    {
      var np := SkipName(b, p);
      if np.None? || !RecordOK(b, np.value) {
        return;
      }
      var m, rdl := np.value, U16(b, np.value + 8);
      if i >= additional && U16(b, m) == TYPE_OPT {
        var sz := U16(b, m + 2);
        if sz < 512 {
          sz := 512;
        }
        if sz > 4096 {
          sz := 4096;
        }
        q := q.(hasOPT := true, udpSize := sz, wantDO := Bit(U16(b, m + 6), 15) == 1, optLen := rdl);
      }
      p := m + 10 + rdl;
    }
  }

  method ReadQuestion(b: bytes) returns (r: QueryResult)
    ensures r == Question(b)
  {
    if |b| < 12 || U16(b, 4) != 1 {
      return BadQuery;
    }
    var name := ReadName(b, 12);
    if name.BadName? || name.next + 4 > |b| {
      return BadQuery;
    }
    var p := name.next;
    return Parsed(Query(U16(b, 0), U16(b, 2), name.text, U16(b, p), U16(b, p + 2), p + 4, false, 512, false, 0));
  }

  method ParseQueryMsg(b: bytes) returns (r: QueryResult)
    ensures r == ParseQuery(b)
  {
    hide NameOf;
    r := ReadQuestion(b);
    if r.BadQuery? {
      return;
    }
    var an, ns, ar := U16(b, 6), U16(b, 8), U16(b, 10);
    if an + ns + ar > MAX_RECORDS {
      return;
    }
    var q := FindOPT(b, r.q.qend, an + ns + ar, an + ns, r.q);
    return Parsed(q);
  }

  // ----- Responses -----

  datatype Value = Addr(a: bytes) | Target(name: bytes)

  datatype RR = RR(owner: bytes, typ: nat, ttl: nat, value: Value)

  datatype Info = Info(id: nat, flags: nat, rcode: nat, q: Query, answers: seq<RR>, anCount: nat,
                       ttlOffsets: seq<nat>, minTTL: nat, haveTTL: bool, negTTL: nat, haveSOA: bool)

  datatype InfoResult = Good(m: Info) | BadResponse

  /** A TTL with the high bit set counts as zero (section 8 of RFC 2181). */
  function MaskTTL(t: nat): nat { if t > 0x7FFFFFFF then 0 else t }

  /** The negative TTL of an SOA record: the lesser of its TTL and its MINIMUM field. */
  function SoaTTL(b: bytes, rd: nat, end: nat, ttl: nat): Option<nat>
    requires end <= |b|
  {
    var m := Skip(b, rd);
    if m.None? then None else
      var q := Skip(b, m.value);
      if q.None? || q.value + 20 > end then None
      else Some(if ttl < U32(b, q.value + 16) then ttl else U32(b, q.value + 16))
  }

  /** What a record adds to the parse: `np` is the offset of its type field. */
  function NoteRecord(b: bytes, owner: bytes, np: nat, i: nat, an: nat, ns: nat, m: Info): Info
    requires RecordOK(b, np)
  {
    var typ, rdl := U16(b, np), U16(b, np + 8);
    var rd := np + 10;
    if typ == TYPE_OPT then m.(q := m.q.(hasOPT := true)) else
      var ttl := MaskTTL(U32(b, np + 4));
      var m1 := m.(ttlOffsets := m.ttlOffsets + [np + 4],
                   minTTL := if !m.haveTTL || ttl < m.minTTL then ttl else m.minTTL, haveTTL := true);
      if i < an && ((typ == TYPE_A && rdl == 4) || (typ == TYPE_AAAA && rdl == 16)) then
        m1.(answers := m1.answers + [RR(owner, typ, ttl, Addr(b[rd..rd + rdl]))])
      else if i < an && typ == TYPE_CNAME then
        var cn := NameOf(b, rd);
        if cn.BadName? then m1 else m1.(answers := m1.answers + [RR(owner, typ, ttl, Target(cn.text))])
      else if an <= i < an + ns && typ == TYPE_SOA then
        var neg := SoaTTL(b, rd, rd + rdl, ttl);
        if neg.None? || (m1.haveSOA && neg.value >= m1.negTTL) then m1 else m1.(negTTL := neg.value, haveSOA := true)
      else m1
  }

  function ScanRecords(b: bytes, p: nat, i: nat, n: nat, an: nat, ns: nat, m: Info): InfoResult
    decreases n - i
  {
    if i >= n then Good(m) else
      var o := NameOf(b, p);
      if o.BadName? || !RecordOK(b, o.next) then BadResponse
      else ScanRecords(b, o.next + 10 + U16(b, o.next + 8), i + 1, n, an, ns,
        NoteRecord(b, o.text, o.next, i, an, ns, m))
  }

  function EmptyInfo(q: Query, an: nat): Info {
    Info(q.id, q.flags, q.flags % 16, q, [], an, [], 0, false, 0, false)
  }

  function ParseResponse(b: bytes): InfoResult {
    var r := Question(b);
    if r.BadQuery? || Counts(b) > MAX_RECORDS then BadResponse
    else ScanRecords(b, r.q.qend, 0, Counts(b), U16(b, 6), U16(b, 8), EmptyInfo(r.q, U16(b, 6)))
  }

  method ReadRecords(b: bytes, start: nat, n: nat, an: nat, ns: nat, init: Info) returns (r: InfoResult)
    ensures r == ScanRecords(b, start, 0, n, an, ns, init)
  {
    hide ReadFrom, NoteRecord;
    var m := init;
    var p: nat := start;
    for i := 0 to n
      invariant ScanRecords(b, p, i, n, an, ns, m) == ScanRecords(b, start, 0, n, an, ns, init)
    {
      var owner := ReadName(b, p);
      if owner.BadName? || !RecordOK(b, owner.next) {
        return BadResponse;
      }
      m := NoteRecord(b, owner.text, owner.next, i, an, ns, m);
      p := owner.next + 10 + U16(b, owner.next + 8);
    }
    return Good(m);
  }

  method ParseResponseMsg(b: bytes) returns (r: InfoResult)
    ensures r == ParseResponse(b)
  {
    var q := ReadQuestion(b);
    if q.BadQuery? {
      return BadResponse;
    }
    var an, ns, ar := U16(b, 6), U16(b, 8), U16(b, 10);
    if an + ns + ar > MAX_RECORDS {
      return BadResponse;
    }
    r := ReadRecords(b, q.q.qend, an + ns + ar, an, ns, EmptyInfo(q.q, an));
  }

  predicate SameQuestion(q: Query, m: Info) {
    m.id == q.id && m.q.qname == q.qname && m.q.qtype == q.qtype && m.q.qclass == q.qclass
  }

  // ----- Building -----

  /** Everything before the first dot, and what follows it. */
  function Split(s: bytes): (r: seq<bytes>)
    ensures |r| > 0
  {
    if s == [] then [[]] else
      var rest := Split(s[1..]);
      if s[0] == DOT then [[]] + rest else [[s[0]] + rest[0]] + rest[1..]
  }

  function TrimDot(name: bytes): bytes {
    if name != [] && name[|name| - 1] == DOT then name[..|name| - 1] else name
  }

  function Labels(name: bytes): seq<bytes> { if TrimDot(name) == [] then [] else Split(TrimDot(name)) }

  predicate LabelOK(lab: bytes) { 0 < |lab| < 64 }

  function EncLabels(ls: seq<bytes>): bytes {
    if ls == [] then [0] else [|ls[0]| % 256] + ls[0] + EncLabels(ls[1..])
  }

  /** A name in wire form, uncompressed; nothing if a label is empty or too long. */
  function EncodeName(name: bytes): bytes {
    if forall i :: 0 <= i < |Labels(name)| ==> LabelOK(Labels(name)[i]) then EncLabels(Labels(name)) else []
  }

  function OptRecord(size: nat, wantDO: bool): (r: bytes)
    ensures |r| == 11
  {
    [0] + (Be16(TYPE_OPT) + (Be16(size) + (Be32(if wantDO then 0x8000 else 0) + Be16(0))))
  }

  function Header(id: nat, flags: nat, qd: nat, an: nat, ns: nat, ar: nat): (r: bytes)
    ensures |r| == 12
  {
    Be16(id) + (Be16(flags) + (Be16(qd) + (Be16(an) + (Be16(ns) + Be16(ar)))))
  }

  /** A query with recursion desired; `edns` > 0 adds an OPT record of that size. */
  function BuildQuery(id: nat, name: bytes, qtype: nat, edns: int, wantDO: bool): bytes {
    Header(id, 0x0100, 1, 0, 0, if edns > 0 then 1 else 0)
      + (EncodeName(name) + (Be16(qtype) + Be16(1)) + (if edns > 0 then OptRecord(edns, wantDO) else []))
  }

  /** QR and RA set; opcode, RD and CD from the query. */
  function ReplyFlags(flags: nat, rcode: nat): nat {
    var low := SetBit(SetBit(SetBit(rcode % 16, 4, Bit(flags, 4)), 7, 1), 8, Bit(flags, 8));
    var opcode := SetBit(SetBit(low, 11, Bit(flags, 11)), 12, Bit(flags, 12));
    SetBit(SetBit(SetBit(opcode, 13, Bit(flags, 13)), 14, Bit(flags, 14)), 15, 1)
  }

  predicate Fits(query: bytes, q: Query) { 12 <= q.qend <= |query| }

  function ReplyHeader(query: bytes, q: Query, rcode: nat, an: nat): (r: bytes)
    requires Fits(query, q)
    ensures |r| == q.qend
  {
    query[..2] + (Be16(ReplyFlags(q.flags, rcode)) + (Be16(1) + (Be16(an) + (Be16(0) + (Be16(0) + query[12..q.qend])))))
  }

  /** A client that speaks EDNS gets an empty OPT record back. */
  function AppendOPT(out: bytes, q: Query): (r: bytes)
    requires |out| >= 12
    ensures |r| == |out| + (if q.hasOPT then 11 else 0)
  {
    if !q.hasOPT then out
    else out[..10] + Be16(U16(out, 10) + 1) + out[12..] + OptRecord(1232, q.wantDO)
  }

  function RcodeReply(query: bytes, q: Query, rcode: nat): (r: bytes)
    requires Fits(query, q)
    ensures |r| == q.qend + (if q.hasOPT then 11 else 0)
  {
    AppendOPT(ReplyHeader(query, q, rcode, 0), q)
  }

  function Zeros(n: nat): (r: bytes)
    ensures |r| == n
  {
    seq(n, i => 0 as byte)
  }

  function BlockReply(query: bytes, q: Query, zero: bool): bytes
    requires Fits(query, q)
  {
    if !zero then RcodeReply(query, q, RCODE_NXDOMAIN)
    else
      var rd := if q.qtype == TYPE_A then 4 else if q.qtype == TYPE_AAAA then 16 else 0;
      if rd == 0 || q.qclass != 1 then RcodeReply(query, q, RCODE_NOERROR)
      else
        AppendOPT(ReplyHeader(query, q, RCODE_NOERROR, 1)
                    + ([0xC0, 0x0C] + (Be16(q.qtype) + (Be16(1) + (Be32(BLOCK_TTL) + (Be16(rd) + Zeros(rd)))))), q)
  }

  function SetTC(b: bytes): (r: bytes)
    requires |b| >= 12
    ensures |r| == |b|
  {
    b[..2] + Be16(SetBit(U16(b, 2), 9, 1)) + b[4..]
  }

  /** A reply that is too long loses its records and gets the TC bit. */
  function Truncate(resp: bytes, limit: nat): bytes
    requires limit >= 12
  {
    if |resp| <= limit then resp else
      var end := Skip(resp, 12);
      if end.None? || end.value + 4 > |resp| || U16(resp, 4) != 1 then
        SetTC(resp[..12])[..4] + [0, 0, 0, 0, 0, 0, 0, 0]
      else
        SetTC(resp[..12])[..6] + [0, 0, 0, 0, 0, 0] + resp[12..end.value + 4]
  }
}
