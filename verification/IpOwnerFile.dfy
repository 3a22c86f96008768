/**
 The binary IP ownership file: written by tools/build_ip_owner.py, parsed and searched by
 ip_owner.go.  The checksum is an arbitrary function of the bytes before it.
 */
module IpOwnerFile {
  import opened Common
  import opened Bytes
  import opened IpRanges

  const MAGIC: bytes := [72, 78, 67, 73, 80, 79, 87, 49]  // "HNCIPOW1"
  const LIM4 := 0x1_0000_0000
  const LIM6 := 0x1_0000_0000_0000_0000

  datatype Org = Org(key: bytes, name: bytes, kind: byte)

  datatype Db = Db(date: nat, orgs: seq<Org>, v4: seq<Range>, v6: seq<Range>)

  type Crc = bytes -> nat

  predicate OrgOK(o: Org) { 0 < |o.key| < 256 && |o.name| < 256 }

  /** What fits the format: everything within its field, ranges sorted and disjoint. */
  predicate DbOK(db: Db) {
    && db.date < LIM4 && |db.orgs| < 0x1_0000 && |db.v4| < LIM4 && |db.v6| < LIM4
    && (forall i :: 0 <= i < |db.orgs| ==> OrgOK(db.orgs[i]))
    && Disjoint(db.v4) && InBounds(db.v4, LIM4, |db.orgs|)
    && Disjoint(db.v6) && InBounds(db.v6, LIM6, |db.orgs|)
  }

  // ----- Writing -----

  /** A string with its length in front. */
  function EncStr(s: bytes): bytes { [|s| % 256] + s }

  function EncOrg(o: Org): bytes { [o.kind] + (EncStr(o.key) + EncStr(o.name)) }

  function EncOrgs(os: seq<Org>): bytes {
    if os == [] then [] else EncOrg(os[0]) + EncOrgs(os[1..])
  }

  /** A range with addresses of `w` octets. */
  function EncRange(r: Range, w: nat): (b: bytes)
    ensures |b| == 2 * w + 2
  {
    LE(r.s, w) + LE(r.e, w) + LE(r.o, 2)
  }

  function EncRanges(rs: seq<Range>, w: nat): (b: bytes)
    ensures |b| == Size(|rs|, w)
  {
    if rs == [] then [] else EncRange(rs[0], w) + EncRanges(rs[1..], w)
  }

  function Header(db: Db): bytes {
    MAGIC + LE(db.date, 4) + LE(|db.orgs|, 2) + LE(|db.v4|, 4) + LE(|db.v6|, 4)
  }

  function EncBody(db: Db): bytes {
    Header(db) + (EncOrgs(db.orgs) + (EncRanges(db.v4, 4) + EncRanges(db.v6, 8)))
  }

  /** The writer; it is defined for tables that fit the fields of the format. */
  function Encode(db: Db, crc: Crc): bytes
    requires DbOK(db)
  {
    EncBody(db) + LE(crc(EncBody(db)) % LIM4, 4)
  }

  // ----- Parsing -----

  datatype Str = Str(s: bytes, next: nat) | NoStr

  /** A string with its length in front, at offset `p`. */
  function ParseStr(b: bytes, p: nat): (r: Str)
    ensures r.Str? ==> p < r.next <= |b|
  {
    if p >= |b| || p + 1 + b[p] > |b| then NoStr else Str(b[p + 1..p + 1 + b[p]], p + 1 + b[p])
  }

  datatype OrgAt = OrgAt(o: Org, next: nat) | NoOrg

  function ParseOrg(b: bytes, p: nat): (r: OrgAt)
    ensures r.OrgAt? ==> p < r.next <= |b|
  {
    if p >= |b| then NoOrg else
      var k := ParseStr(b, p + 1);
      if k.NoStr? then NoOrg else
        var n := ParseStr(b, k.next);
        if n.NoStr? || k.s == [] then NoOrg else OrgAt(Org(k.s, n.s, b[p]), n.next)
  }

  datatype Orgs = Orgs(os: seq<Org>, next: nat) | BadOrgs

  function ParseOrgs(b: bytes, p: nat, n: nat): (r: Orgs)
    requires p <= |b|
    ensures r.Orgs? ==> |r.os| == n && p <= r.next <= |b|
    decreases n
  {
    if n == 0 then Orgs([], p) else
      var o := ParseOrg(b, p);
      if o.NoOrg? then BadOrgs else
        var rest := ParseOrgs(b, o.next, n - 1);
        if rest.BadOrgs? then BadOrgs else Orgs([o.o] + rest.os, rest.next)
  }

  function RangeAt(b: bytes, p: nat, w: nat): Range
    requires p + 2 * w + 2 <= |b|
  {
    Range(FromLE(b[p..p + w]), FromLE(b[p + w..p + 2 * w]), FromLE(b[p + 2 * w..p + 2 * w + 2]))
  }

  /** Octets that `n` ranges take. */
  function Size(n: nat, w: nat): nat { if n == 0 then 0 else 2 * w + 2 + Size(n - 1, w) }

  lemma {:induction false} SizeIs(n: nat)
    ensures Size(n, 4) == n * 10 && Size(n, 8) == n * 18
  {
    if n > 0 {
      SizeIs(n - 1);
    }
  }

  /** The ranges at `p`, when they are valid, in order, and name existing organisations. */
  function ParseRanges(b: bytes, p: nat, w: nat, n: nat, nOrg: nat, after: int): Option<seq<Range>>
    requires p + Size(n, w) <= |b|
    decreases n
  {
    if n == 0 then Some([]) else
      var r := RangeAt(b, p, w);
      if r.e < r.s || r.o >= nOrg || r.s <= after then None else
        var rest := ParseRanges(b, p + 2 * w + 2, w, n - 1, nOrg, r.e);
        if rest.None? then None else Some([r] + rest.value)
  }

  datatype Result = Ok(db: Db) | BadFormat | CrcMismatch

  datatype Tables = Tables(v4: seq<Range>, v6: seq<Range>) | BadTables

  /** Both tables; they must fill the body exactly. */
  function ParseTables(body: bytes, p: nat, n4: nat, n6: nat, nOrg: nat): Tables
    requires p <= |body|
  {
    SizeIs(n4);
    SizeIs(n6);
    if |body| - p != n4 * 10 + n6 * 18 then BadTables else
      var r4 := ParseRanges(body, p, 4, n4, nOrg, -1);
      var r6 := ParseRanges(body, p + n4 * 10, 8, n6, nOrg, -1);
      if r4.None? || r6.None? then BadTables else Tables(r4.value, r6.value)
  }

  /** The numbers of the header. */
  datatype Head = Head(date: nat, nOrg: nat, n4: nat, n6: nat)

  function ReadHead(body: bytes): Head
    requires |body| >= 22
  {
    Head(FromLE(body[8..12]), FromLE(body[12..14]), FromLE(body[14..18]), FromLE(body[18..22]))
  }

  function ParseRest(body: bytes, h: Head): Result
    requires |body| >= 22
  {
    var os := ParseOrgs(body, 22, h.nOrg);
    if os.BadOrgs? then BadFormat else
      var t := ParseTables(body, os.next, h.n4, h.n6, h.nOrg);
      if t.BadTables? then BadFormat else Ok(Db(h.date, os.os, t.v4, t.v6))
  }

  function ParseFile(b: bytes, crc: Crc): Result {
    if |b| < 8 + 14 + 4 || b[..8] != MAGIC then BadFormat
    else if crc(b[..|b| - 4]) % LIM4 != FromLE(b[|b| - 4..]) then CrcMismatch
    else ParseRest(b[..|b| - 4], ReadHead(b[..|b| - 4]))
  }

  // ----- The parser as the program runs it, with a cursor -----

  method ParseIPOwner(b: bytes, crc: Crc) returns (res: Result)
    ensures res == ParseFile(b, crc)
  {
    if |b| < 8 + 14 + 4 || b[..8] != MAGIC {
      return BadFormat;
    }
    var body := b[..|b| - 4];
    if crc(body) % LIM4 != FromLE(b[|b| - 4..]) {
      return CrcMismatch;
    }
    res := ReadRest(body, ReadHead(body));
  }

  method ReadRest(body: bytes, h: Head) returns (res: Result)
    requires |body| >= 22
    ensures res == ParseRest(body, h)
  {
    var found, orgs, p := ReadOrgs(body, 22, h.nOrg);
    if !found {
      return BadFormat;
    }
    var t := ReadTables(body, p, h.n4, h.n6, h.nOrg);
    return if t.BadTables? then BadFormat else Ok(Db(h.date, orgs, t.v4, t.v6));
  }

  method ReadTables(body: bytes, p: nat, n4: nat, n6: nat, nOrg: nat) returns (t: Tables)
    requires p <= |body|
    ensures t == ParseTables(body, p, n4, n6, nOrg)
  {
    SizeIs(n4);
    SizeIs(n6);
    if |body| - p != n4 * 10 + n6 * 18 {
      return BadTables;
    }
    var ok4, v4 := ReadRanges(body, p, 4, n4, nOrg);
    if !ok4 {
      return BadTables;
    }
    var ok6, v6 := ReadRanges(body, p + n4 * 10, 8, n6, nOrg);
    return if ok6 then Tables(v4, v6) else BadTables;
  }

  ghost function Prepend(os: seq<Org>, rest: Orgs): Orgs {
    if rest.BadOrgs? then rest else Orgs(os + rest.os, rest.next)
  }

  lemma PrependOrg(os: seq<Org>, b: bytes, p: nat, n: nat)
    requires p <= |b| && n > 0
    ensures var o := ParseOrg(b, p);
      Prepend(os, ParseOrgs(b, p, n)) ==
      if o.NoOrg? then BadOrgs else Prepend(os + [o.o], ParseOrgs(b, o.next, n - 1))
  {
    var o := ParseOrg(b, p);
    if o.OrgAt? {
      var rest := ParseOrgs(b, o.next, n - 1);
      assert rest.Orgs? ==> os + ([o.o] + rest.os) == os + [o.o] + rest.os;
    }
  }

  method ReadOrgs(b: bytes, start: nat, n: nat) returns (ok: bool, orgs: seq<Org>, p: nat)
    requires start <= |b|
    ensures ParseOrgs(b, start, n) == if ok then Orgs(orgs, p) else BadOrgs
  {
    hide ParseOrg, ParseOrgs;
    orgs, p := [], start;
    ghost var all := ParseOrgs(b, start, n);
    PrependNone(all);
    for i := 0 to n
      invariant p <= |b|
      invariant all == Prepend(orgs, ParseOrgs(b, p, n - i))
    {
      PrependOrg(orgs, b, p, n - i);
      var o := ParseOrg(b, p);
      if o.NoOrg? {
        return false, [], 0;
      }
      orgs := orgs + [o.o];
      p := o.next;
    }
    NoOrgsLeft(orgs, b, p);
    ok := true;
  }

  lemma PrependNone(rest: Orgs)
    ensures Prepend([], rest) == rest
  {
  }

  lemma NoOrgsLeft(os: seq<Org>, b: bytes, p: nat)
    requires p <= |b|
    ensures Prepend(os, ParseOrgs(b, p, 0)) == Orgs(os, p)
  {
    assert os + [] == os;
  }

  ghost function PrependRanges(rs: seq<Range>, rest: Option<seq<Range>>): Option<seq<Range>> {
    if rest.None? then None else Some(rs + rest.value)
  }

  lemma PrependRange(rs: seq<Range>, b: bytes, p: nat, w: nat, n: nat, nOrg: nat, after: int)
    requires n > 0 && p + Size(n, w) <= |b|
    ensures var r := RangeAt(b, p, w);
      PrependRanges(rs, ParseRanges(b, p, w, n, nOrg, after)) ==
      if r.e < r.s || r.o >= nOrg || r.s <= after then None
      else PrependRanges(rs + [r], ParseRanges(b, p + 2 * w + 2, w, n - 1, nOrg, r.e))
  {
    var r := RangeAt(b, p, w);
    if r.s <= r.e && r.o < nOrg && after < r.s {
      var rest := ParseRanges(b, p + 2 * w + 2, w, n - 1, nOrg, r.e);
      assert rest.Some? ==> rs + ([r] + rest.value) == rs + [r] + rest.value;
    }
  }

  method ReadRanges(b: bytes, start: nat, w: nat, n: nat, nOrg: nat) returns (ok: bool, rs: seq<Range>)
    requires start + Size(n, w) <= |b|
    ensures ParseRanges(b, start, w, n, nOrg, -1) == if ok then Some(rs) else None
  {
    hide ParseRanges, RangeAt;
    rs := [];
    var p: nat := start;
    ghost var all := ParseRanges(b, start, w, n, nOrg, -1);
    NoRangeYet(all);
    for i := 0 to n
      invariant |rs| == i
      invariant p + Size(n - i, w) <= |b|
      invariant all == PrependRanges(rs, ParseRanges(b, p, w, n - i, nOrg, if i > 0 then rs[i - 1].e else -1))
    {
      PrependRange(rs, b, p, w, n - i, nOrg, if i > 0 then rs[i - 1].e else -1);
      var r := RangeAt(b, p, w);
      p := p + 2 * w + 2;
      if r.e < r.s || r.o >= nOrg || (i > 0 && r.s <= rs[i - 1].e) {
        return false, [];
      }
      rs := rs + [r];
    }
    NoRangesLeft(rs, b, p, w, nOrg, if n > 0 then rs[n - 1].e else -1);
    ok := true;
  }

  lemma NoRangeYet(rest: Option<seq<Range>>)
    ensures PrependRanges([], rest) == rest
  {
    assert rest.Some? ==> [] + rest.value == rest.value;
  }

  lemma NoRangesLeft(rs: seq<Range>, b: bytes, p: nat, w: nat, nOrg: nat, after: int)
    requires p + Size(0, w) <= |b|
    ensures PrependRanges(rs, ParseRanges(b, p, w, 0, nOrg, after)) == Some(rs)
  {
    assert rs + [] == rs;
  }

  // ----- Searching -----

  datatype Ip = V4(addr: nat) | V6(high: nat) | NoIp

  /** The first index whose start lies beyond the address (binary search). */
  method SearchStart(rs: seq<Range>, x: int) returns (i: nat)
    requires Disjoint(rs)
    ensures i <= |rs| && (forall j :: 0 <= j < i ==> rs[j].s <= x) && (forall j :: i <= j < |rs| ==> x < rs[j].s)
  {
    assert forall j :: 0 <= j < |rs| ==> rs[j] in rs;
    var j := |rs|;
    i := 0;
    while i < j
      invariant i <= j <= |rs|
      invariant forall k :: 0 <= k < i ==> rs[k].s <= x
      invariant forall k :: j <= k < |rs| ==> x < rs[k].s
    {
      var h := (i + j) / 2;
      if rs[h].s > x { j := h; } else { i := h + 1; }
    }
  }

  lemma LookupIsFirstOwner(rs: seq<Range>, x: int, i: nat)
    requires Disjoint(rs) && i <= |rs|
    requires (forall j :: 0 <= j < i ==> rs[j].s <= x) && (forall j :: i <= j < |rs| ==> x < rs[j].s)
    ensures FirstOwner(rs, x) == if i > 0 && x <= rs[i - 1].e then Some(rs[i - 1].o) else None
  {
    if i > 0 && x <= rs[i - 1].e {
      OwnerOfDisjoint(rs, x, rs[i - 1]);
    } else {
      forall r | r in rs
        ensures !r.Covers(x)
      {
        var j :| 0 <= j < |rs| && rs[j] == r;
        if j < i - 1 { assert rs[j].e < rs[i - 1].s; }
      }
      NotCoveredNoOwner(rs, x);
    }
  }

  /** The organisation that owns an address; without a table or an address there is none. */
  method LookupIP(db: Option<Db>, ip: Ip) returns (org: Option<Org>)
    requires db.Some? ==> DbOK(db.value)
    ensures org == OwnerIn(db, ip)
  {
    if db.None? || ip.NoIp? {
      return None;
    }
    var rs := if ip.V4? then db.value.v4 else db.value.v6;
    var x := if ip.V4? then ip.addr else ip.high;
    var i := SearchStart(rs, x);
    LookupIsFirstOwner(rs, x, i);
    if i > 0 && x <= rs[i - 1].e {
      assert rs[i - 1] in rs;
      return Some(db.value.orgs[rs[i - 1].o]);
    }
    return None;
  }

  /** What a search of the table means. */
  function OwnerIn(db: Option<Db>, ip: Ip): Option<Org> {
    if db.None? || ip.NoIp? then None else
      var o := FirstOwner(if ip.V4? then db.value.v4 else db.value.v6, if ip.V4? then ip.addr else ip.high);
      if o.Some? && o.value < |db.value.orgs| then Some(db.value.orgs[o.value]) else None
  }
}
