/**
 The parser accepts exactly the files that the writer can produce, and gives back what was
 written; a search of the parsed file finds the owner that the sources give.
 */
module IpOwnerRoundTrip {
  import opened Common
  import opened Bytes
  import opened IpRanges
  import opened IpOwnerFile

  // ----- Strings and organisations -----

  lemma StrRoundTrip(b: bytes, p: nat, s: bytes)
    requires |s| < 256
    ensures Holds(b, p, EncStr(s)) <==> ParseStr(b, p) == Str(s, p + 1 + |s|)
  {
    assert EncStr(s)[1..] == s;
    HoldsSlice(b, p + 1, s);
  }

  lemma OrgParts(b: bytes, p: nat, o: Org)
    requires OrgOK(o)
    ensures |EncOrg(o)| == 3 + |o.key| + |o.name|
    ensures Holds(b, p, EncOrg(o)) <==>
            p < |b| && b[p] == o.kind && Holds(b, p + 1, EncStr(o.key)) && Holds(b, p + 2 + |o.key|, EncStr(o.name))
  {
    HoldsAppend(b, p, [o.kind], EncStr(o.key) + EncStr(o.name));
    HoldsAppend(b, p + 1, EncStr(o.key), EncStr(o.name));
    HoldsOne(b, p, o.kind);
  }

  lemma OrgRoundTrip(b: bytes, p: nat, o: Org)
    requires OrgOK(o)
    ensures Holds(b, p, EncOrg(o)) <==> ParseOrg(b, p) == OrgAt(o, p + |EncOrg(o)|)
  {
    OrgParts(b, p, o);
    StrRoundTrip(b, p + 1, o.key);
    StrRoundTrip(b, p + 2 + |o.key|, o.name);
  }

  lemma OrgAccepted(b: bytes, p: nat)
    ensures var r := ParseOrg(b, p);
      r.OrgAt? ==> OrgOK(r.o) && Holds(b, p, EncOrg(r.o)) && r.next == p + |EncOrg(r.o)|
  {
    var r := ParseOrg(b, p);
    if r.OrgAt? {
      OrgParts(b, p, r.o);
      OrgRoundTrip(b, p, r.o);
    }
  }

  lemma OrgsCons(b: bytes, p: nat, os: seq<Org>, head: bytes, tail: bytes)
    requires os != [] && head == EncOrg(os[0]) && tail == EncOrgs(os[1..])
    ensures Holds(b, p, EncOrgs(os)) <==> Holds(b, p, head) && Holds(b, p + |head|, tail)
    ensures |EncOrgs(os)| == |head| + |tail|
  {
    hide Holds, EncOrg;
    HoldsAppend(b, p, head, tail);
  }

  lemma ParseOrgsCons(b: bytes, p: nat, os: seq<Org>, q: nat, r: nat)
    requires os != [] && p <= |b| && q <= |b|
    requires ParseOrg(b, p) == OrgAt(os[0], q) && ParseOrgs(b, q, |os| - 1) == Orgs(os[1..], r)
    ensures ParseOrgs(b, p, |os|) == Orgs(os, r)
  {
    hide ParseOrg;
    assert os == [os[0]] + os[1..];
  }

  lemma {:induction false} OrgsRoundTrip(b: bytes, p: nat, os: seq<Org>)
    requires forall i :: 0 <= i < |os| ==> OrgOK(os[i])
    requires Holds(b, p, EncOrgs(os))
    ensures ParseOrgs(b, p, |os|) == Orgs(os, p + |EncOrgs(os)|)
    decreases |os|
  {
    hide Holds, ParseOrg, EncOrg;
    if os != [] {
      var head, tail := EncOrg(os[0]), EncOrgs(os[1..]);
      OrgsCons(b, p, os, head, tail);
      OrgRoundTrip(b, p, os[0]);
      OrgsRoundTrip(b, p + |head|, os[1..]);
      ParseOrgsCons(b, p, os, p + |head|, p + |head| + |tail|);
    }
  }

  lemma {:induction false} OrgsAccepted(b: bytes, p: nat, n: nat)
    requires p <= |b|
    ensures var r := ParseOrgs(b, p, n);
      r.Orgs? ==> && (forall i :: 0 <= i < |r.os| ==> OrgOK(r.os[i]))
                  && Holds(b, p, EncOrgs(r.os)) && r.next == p + |EncOrgs(r.os)|
    decreases n
  {
    hide Holds, ParseOrg, EncOrg;
    HoldsEmpty(b, p);
    var r := ParseOrgs(b, p, n);
    if n > 0 && r.Orgs? {
      var o := ParseOrg(b, p);
      OrgAccepted(b, p);
      OrgsAccepted(b, o.next, n - 1);
      var rest := ParseOrgs(b, o.next, n - 1);
      assert r.os[0] == o.o && r.os[1..] == rest.os;
      OrgsCons(b, p, r.os, EncOrg(o.o), EncOrgs(rest.os));
    }
  }

  // ----- Ranges -----

  /** Fits the field widths of a table with `w`-octet addresses. */
  predicate Fits(rs: seq<Range>, w: nat, nOrg: nat) {
    forall i :: 0 <= i < |rs| ==> rs[i].Valid() && rs[i].e < Pow256(w) && rs[i].o < nOrg
  }

  /** In order, disjoint, and beyond `after`. */
  predicate InOrder(rs: seq<Range>, after: int) {
    rs != [] ==> after < rs[0].s && InOrder(rs[1..], rs[0].e)
  }

  lemma EncRangeParts(b: bytes, p: nat, r: Range, w: nat)
    ensures Holds(b, p, EncRange(r, w)) <==>
            Holds(b, p, LE(r.s, w)) && Holds(b, p + w, LE(r.e, w)) && Holds(b, p + 2 * w, LE(r.o, 2))
  {
    HoldsAppend(b, p, LE(r.s, w) + LE(r.e, w), LE(r.o, 2));
    HoldsAppend(b, p, LE(r.s, w), LE(r.e, w));
  }

  lemma HoldsLE(b: bytes, p: nat, w: nat, n: nat)
    requires p + w <= |b| && n < Pow256(w)
    ensures Holds(b, p, LE(n, w)) <==> FromLE(b[p..p + w]) == n
  {
    LERoundTrip(n, w);
    FromLERoundTrip(b[p..p + w]);
    HoldsSlice(b, p, LE(n, w));
  }

  lemma RangeRoundTrip(b: bytes, p: nat, r: Range, w: nat, nOrg: nat)
    requires p + 2 * w + 2 <= |b| && nOrg <= 0x1_0000
    requires r.Valid() && r.e < Pow256(w) && r.o < nOrg
    ensures Holds(b, p, EncRange(r, w)) <==> RangeAt(b, p, w) == r
  {
    EncRangeParts(b, p, r, w);
    HoldsLE(b, p, w, r.s);
    HoldsLE(b, p + w, w, r.e);
    assert Pow256(2) == 256 * Pow256(1);
    HoldsLE(b, p + 2 * w, 2, r.o);
  }

  lemma EncRangesCons(b: bytes, p: nat, w: nat, rs: seq<Range>, nOrg: nat)
    requires rs != [] && Fits(rs, w, nOrg)
    ensures Fits(rs[1..], w, nOrg)
    ensures Holds(b, p, EncRanges(rs, w)) <==>
            Holds(b, p, EncRange(rs[0], w)) && Holds(b, p + 2 * w + 2, EncRanges(rs[1..], w))
    ensures |EncRanges(rs, w)| == 2 * w + 2 + Size(|rs| - 1, w)
  {
    hide Holds, EncRange;
    var head, tail := EncRange(rs[0], w), EncRanges(rs[1..], w);
    assert EncRanges(rs, w) == head + tail && p + |head| == p + 2 * w + 2;
    HoldsAppend(b, p, head, tail);
  }

  lemma {:induction false} RangesRoundTrip(b: bytes, p: nat, w: nat, rs: seq<Range>, nOrg: nat, after: int)
    requires Fits(rs, w, nOrg) && InOrder(rs, after) && nOrg <= 0x1_0000
    requires Holds(b, p, EncRanges(rs, w))
    ensures ParseRanges(b, p, w, |rs|, nOrg, after) == Some(rs)
    decreases |rs|
  {
    hide Holds, EncRanges, FromLE;
    if rs != [] {
      EncRangesCons(b, p, w, rs, nOrg);
      RangeRoundTrip(b, p, rs[0], w, nOrg);
      RangesRoundTrip(b, p + 2 * w + 2, w, rs[1..], nOrg, rs[0].e);
      assert rs == [rs[0]] + rs[1..];
    }
  }

  lemma RangeWithin(b: bytes, p: nat, w: nat)
    requires p + 2 * w + 2 <= |b|
    ensures RangeAt(b, p, w).e < Pow256(w)
  {
    FromLERoundTrip(b[p + w..p + 2 * w]);
  }

  lemma {:induction false} RangesAccepted(b: bytes, p: nat, w: nat, n: nat, nOrg: nat, after: int)
    requires p + Size(n, w) <= |b| && nOrg <= 0x1_0000
    ensures var r := ParseRanges(b, p, w, n, nOrg, after);
      r.Some? ==> Fits(r.value, w, nOrg) && InOrder(r.value, after) && |r.value| == n
    decreases n
  {
    var res := ParseRanges(b, p, w, n, nOrg, after);
    if n > 0 && res.Some? {
      var r := RangeAt(b, p, w);
      RangesAccepted(b, p + 2 * w + 2, w, n - 1, nOrg, r.e);
      var rest := ParseRanges(b, p + 2 * w + 2, w, n - 1, nOrg, r.e).value;
      assert res.value == [r] + rest && res.value[1..] == rest;
      RangeWithin(b, p, w);
    }
  }

  lemma {:induction false} RangesHold(b: bytes, p: nat, w: nat, n: nat, nOrg: nat, after: int, rs: seq<Range>)
    requires p + Size(n, w) <= |b| && nOrg <= 0x1_0000
    requires ParseRanges(b, p, w, n, nOrg, after) == Some(rs) && Fits(rs, w, nOrg)
    ensures Holds(b, p, EncRanges(rs, w))
    decreases n
  {
    hide Holds, FromLE;
    HoldsEmpty(b, p);
    if n > 0 {
      var r := RangeAt(b, p, w);
      var rest := ParseRanges(b, p + 2 * w + 2, w, n - 1, nOrg, r.e).value;
      assert rs == [r] + rest && rs[1..] == rest;
      EncRangesCons(b, p, w, rs, nOrg);
      RangeRoundTrip(b, p, r, w, nOrg);
      RangesHold(b, p + 2 * w + 2, w, n - 1, nOrg, r.e, rest);
    }
  }

  lemma {:induction false} InOrderIsDisjoint(rs: seq<Range>, after: int)
    requires forall i :: 0 <= i < |rs| ==> rs[i].Valid()
    ensures InOrder(rs, after) <==> (rs != [] ==> after < rs[0].s) && forall i, j :: 0 <= i < j < |rs| ==>
            rs[i].e < rs[j].s
  {
    if rs != [] {
      InOrderIsDisjoint(rs[1..], rs[0].e);
      var t := rs[1..];
      assert forall i :: 0 <= i < |t| ==> t[i] == rs[i + 1];
      if InOrder(rs, after) {
        forall i, j | 0 <= i < j < |rs|
          ensures rs[i].e < rs[j].s
        {
          if i > 0 {
            assert t[i - 1].e < t[j - 1].s;
          } else if j > 1 {
            assert t[0].e < t[j - 1].s && t[0].Valid();
          }
        }
      } else {
        assert forall i, j :: 0 <= i < j < |t| ==> t[i] == rs[i + 1] && t[j] == rs[j + 1];
      }
    }
  }

  /** The two ways of saying that a table fits the format agree. */
  lemma TableOK(rs: seq<Range>, w: nat, lim: int, nOrg: nat)
    requires lim == Pow256(w)
    ensures Fits(rs, w, nOrg) && InOrder(rs, -1) <==> Disjoint(rs) && InBounds(rs, lim, nOrg)
  {
    if Fits(rs, w, nOrg) {
      InOrderIsDisjoint(rs, -1);
      assert forall r :: r in rs ==> exists i :: 0 <= i < |rs| && rs[i] == r;
    } else if InBounds(rs, lim, nOrg) {
      assert forall i :: 0 <= i < |rs| ==> rs[i] in rs;
    }
  }

  // ----- The file -----

  lemma Powers()
    ensures Pow256(2) == 0x1_0000 && Pow256(4) == LIM4 && Pow256(8) == LIM6
  {
    assert Pow256(1) == 256 && Pow256(2) == 256 * Pow256(1) && Pow256(3) == 256 * Pow256(2);
    assert Pow256(4) == 256 * Pow256(3) && Pow256(5) == 256 * Pow256(4) && Pow256(6) == 256 * Pow256(5);
    assert Pow256(7) == 256 * Pow256(6) && Pow256(8) == 256 * Pow256(7);
  }

  lemma HoldsFive(b: bytes, v: bytes, x: bytes, y: bytes, z: bytes, u: bytes)
    ensures Holds(b, 0, v + x + y + z + u) <==>
            && Holds(b, 0, v) && Holds(b, |v|, x) && Holds(b, |v| + |x|, y) && Holds(b, |v| + |x| + |y|, z)
            && Holds(b, |v| + |x| + |y| + |z|, u)
  {
    HoldsAppend(b, 0, v + x + y + z, u);
    HoldsAppend(b, 0, v + x + y, z);
    HoldsAppend(b, 0, v + x, y);
    HoldsAppend(b, 0, v, x);
  }

  predicate CountsFit(db: Db) { db.date < LIM4 && |db.orgs| < 0x1_0000 && |db.v4| < LIM4 && |db.v6| < LIM4 }

  lemma MagicHolds(b: bytes)
    requires |b| >= 8
    ensures Holds(b, 0, MAGIC) <==> b[..8] == MAGIC
  {
    HoldsSlice(b, 0, MAGIC);
    assert b[..8] == b[0..8];
  }

  lemma NumbersHold(b: bytes, db: Db)
    requires |b| >= 22 && CountsFit(db)
    ensures (Holds(b, 8, LE(db.date, 4)) <==> FromLE(b[8..12]) == db.date)
    ensures (Holds(b, 12, LE(|db.orgs|, 2)) <==> FromLE(b[12..14]) == |db.orgs|)
    ensures (Holds(b, 14, LE(|db.v4|, 4)) <==> FromLE(b[14..18]) == |db.v4|)
    ensures (Holds(b, 18, LE(|db.v6|, 4)) <==> FromLE(b[18..22]) == |db.v6|)
  {
    Powers();
    HoldsLE(b, 8, 4, db.date);
    HoldsLE(b, 12, 2, |db.orgs|);
    HoldsLE(b, 14, 4, |db.v4|);
    HoldsLE(b, 18, 4, |db.v6|);
  }

  function HeadOf(db: Db): Head { Head(db.date, |db.orgs|, |db.v4|, |db.v6|) }

  lemma HeaderNumbers(body: bytes, db: Db)
    requires |body| >= 22 && CountsFit(db)
    ensures Holds(body, 0, Header(db)) <==> body[..8] == MAGIC && ReadHead(body) == HeadOf(db)
  {
    HoldsFive(body, MAGIC, LE(db.date, 4), LE(|db.orgs|, 2), LE(|db.v4|, 4), LE(|db.v6|, 4));
    MagicHolds(body);
    NumbersHold(body, db);
  }

  lemma TableFits(db: Db)
    requires DbOK(db)
    ensures Fits(db.v4, 4, |db.orgs|) && InOrder(db.v4, -1) && Fits(db.v6, 8, |db.orgs|) && InOrder(db.v6, -1)
    ensures |EncRanges(db.v4, 4)| == Size(|db.v4|, 4) == |db.v4| * 10
    ensures |EncRanges(db.v6, 8)| == Size(|db.v6|, 8) == |db.v6| * 18
  {
    Powers();
    SizeIs(|db.v4|);
    SizeIs(|db.v6|);
    TableOK(db.v4, 4, LIM4, |db.orgs|);
    TableOK(db.v6, 8, LIM6, |db.orgs|);
  }

  lemma TablesFrom(body: bytes, p: nat, n4: nat, n6: nat, nOrg: nat, v4: seq<Range>, v6: seq<Range>)
    requires p <= |body| && |body| - p == n4 * 10 + n6 * 18 && Size(n4, 4) == n4 * 10 && Size(n6, 8) == n6 * 18
    ensures ParseTables(body, p, n4, n6, nOrg) == Tables(v4, v6) <==>
            ParseRanges(body, p, 4, n4, nOrg, -1) == Some(v4)
              && ParseRanges(body, p + n4 * 10, 8, n6, nOrg, -1) == Some(v6)
  {
  }

  lemma TablesRoundTrip(body: bytes, p: nat, q: nat, db: Db)
    requires DbOK(db) && q == p + |db.v4| * 10 && |body| == q + |db.v6| * 18
    requires Holds(body, p, EncRanges(db.v4, 4)) && Holds(body, q, EncRanges(db.v6, 8))
    ensures ParseTables(body, p, |db.v4|, |db.v6|, |db.orgs|) == Tables(db.v4, db.v6)
  {
    hide Holds, EncRanges, ParseRanges;
    TableFits(db);
    TablesFrom(body, p, |db.v4|, |db.v6|, |db.orgs|, db.v4, db.v6);
    RangesRoundTrip(body, p, 4, db.v4, |db.orgs|, -1);
    RangesRoundTrip(body, q, 8, db.v6, |db.orgs|, -1);
  }

  lemma HoldsFour(b: bytes, h: bytes, o: bytes, x: bytes, y: bytes)
    ensures Holds(b, 0, h + (o + (x + y))) <==>
            Holds(b, 0, h) && Holds(b, |h|, o) && Holds(b, |h| + |o|, x) && Holds(b, |h| + |o| + |x|, y)
  {
    HoldsAppend(b, 0, h, o + (x + y));
    HoldsAppend(b, |h|, o, x + y);
    HoldsAppend(b, |h| + |o|, x, y);
  }

  /** Where the tables of a file begin. */
  function At4(db: Db): nat { 22 + |EncOrgs(db.orgs)| }

  function At6(db: Db): nat { At4(db) + |db.v4| * 10 }

  lemma BodyHolds(body: bytes, db: Db)
    ensures |EncBody(db)| == At6(db) + |db.v6| * 18
    ensures Holds(body, 0, EncBody(db)) <==>
            && Holds(body, 0, Header(db)) && Holds(body, 22, EncOrgs(db.orgs))
            && Holds(body, At4(db), EncRanges(db.v4, 4)) && Holds(body, At6(db), EncRanges(db.v6, 8))
  {
    hide Holds, EncOrgs, EncRanges, LE;
    SizeIs(|db.v4|);
    SizeIs(|db.v6|);
    HoldsFour(body, Header(db), EncOrgs(db.orgs), EncRanges(db.v4, 4), EncRanges(db.v6, 8));
  }

  lemma RestRoundTrip(body: bytes, db: Db, p: nat, q: nat)
    requires DbOK(db) && p == At4(db) && q == At6(db) && |body| == q + |db.v6| * 18
    requires Holds(body, 22, EncOrgs(db.orgs))
    requires Holds(body, p, EncRanges(db.v4, 4)) && Holds(body, q, EncRanges(db.v6, 8))
    ensures ParseRest(body, HeadOf(db)) == Ok(db)
  {
    hide Holds, EncRanges, EncOrgs, ParseOrgs, ParseTables;
    OrgsRoundTrip(body, 22, db.orgs);
    TablesRoundTrip(body, p, q, db);
  }

  lemma BodyRoundTrip(db: Db, body: bytes)
    requires DbOK(db) && body == EncBody(db)
    ensures |body| >= 22 && body[..8] == MAGIC && ReadHead(body) == HeadOf(db) && ParseRest(body, HeadOf(db)) == Ok(db)
  {
    hide Holds, EncRanges, EncOrgs, ParseRest, ReadHead;
    HoldsWhole(body, body);
    BodyHolds(body, db);
    HeaderNumbers(body, db);
    RestRoundTrip(body, db, At4(db), At6(db));
  }

  /** Parsing what was written gives it back. */
  lemma ParseInvertsEncode(db: Db, crc: Crc)
    requires DbOK(db)
    ensures ParseFile(Encode(db, crc), crc) == Ok(db)
  {
    var body := EncBody(db);
    var b := Encode(db, crc);
    BodyRoundTrip(db, body);
    assert b[..|b| - 4] == body && b[|b| - 4..] == LE(crc(body) % LIM4, 4) && b[..8] == body[..8];
    Powers();
    LERoundTrip(crc(body) % LIM4, 4);
  }

  /** A table that `ParseTables` gives fits the format. */
  lemma TablesFit(body: bytes, p: nat, n4: nat, n6: nat, nOrg: nat)
    requires p <= |body| && nOrg <= 0x1_0000
    ensures var t := ParseTables(body, p, n4, n6, nOrg);
      t.Tables? ==>
        && |t.v4| == n4 && |t.v6| == n6 && |body| - p == n4 * 10 + n6 * 18
        && Disjoint(t.v4) && InBounds(t.v4, LIM4, nOrg) && Disjoint(t.v6) && InBounds(t.v6, LIM6, nOrg)
  {
    var t := ParseTables(body, p, n4, n6, nOrg);
    if t.Tables? {
      Powers();
      SizeIs(n4);
      SizeIs(n6);
      RangesAccepted(body, p, 4, n4, nOrg, -1);
      RangesAccepted(body, p + n4 * 10, 8, n6, nOrg, -1);
      TableOK(t.v4, 4, LIM4, nOrg);
      TableOK(t.v6, 8, LIM6, nOrg);
    }
  }

  lemma TablesHold(body: bytes, p: nat, q: nat, n4: nat, n6: nat, nOrg: nat, t: Tables)
    requires p <= |body| && nOrg <= 0x1_0000 && t == ParseTables(body, p, n4, n6, nOrg) && t.Tables? && q == p + n4 * 10
    requires Fits(t.v4, 4, nOrg) && Fits(t.v6, 8, nOrg)
    ensures Holds(body, p, EncRanges(t.v4, 4)) && Holds(body, q, EncRanges(t.v6, 8))
  {
    SizeIs(n4);
    SizeIs(n6);
    hide Holds, EncRanges, ParseRanges, Fits;
    RangesHold(body, p, 4, n4, nOrg, -1, t.v4);
    RangesHold(body, q, 8, n6, nOrg, -1, t.v6);
  }

  predicate HeadFits(h: Head) { h.date < LIM4 && h.nOrg < 0x1_0000 && h.n4 < LIM4 && h.n6 < LIM4 }

  lemma HeadAlwaysFits(body: bytes)
    requires |body| >= 22
    ensures HeadFits(ReadHead(body))
  {
    Powers();
    FromLERoundTrip(body[8..12]);
    FromLERoundTrip(body[12..14]);
    FromLERoundTrip(body[14..18]);
    FromLERoundTrip(body[18..22]);
  }

  lemma RestFits(body: bytes, h: Head)
    requires |body| >= 22 && HeadFits(h)
    ensures var r := ParseRest(body, h);
      r.Ok? ==>
        && DbOK(r.db) && HeadOf(r.db) == h && Holds(body, 22, EncOrgs(r.db.orgs))
        && |body| == At6(r.db) + h.n6 * 18
        && ParseTables(body, At4(r.db), h.n4, h.n6, h.nOrg) == Tables(r.db.v4, r.db.v6)
  {
    var r := ParseRest(body, h);
    if r.Ok? {
      OrgsAccepted(body, 22, h.nOrg);
      TablesFit(body, At4(r.db), h.n4, h.n6, h.nOrg);
    }
  }

  lemma BodyAccepted(body: bytes, db: Db, e: bytes)
    requires |body| >= 22 && body[..8] == MAGIC && ParseRest(body, ReadHead(body)) == Ok(db) && e == EncBody(db)
    ensures DbOK(db) && body == e
  {
    hide Holds, EncRanges, EncOrgs, ParseOrgs, ParseRanges, FromLE;
    HeadAlwaysFits(body);
    RestFits(body, ReadHead(body));
    TableFits(db);
    TablesHold(body, At4(db), At6(db), |db.v4|, |db.v6|, |db.orgs|, Tables(db.v4, db.v6));
    HeaderNumbers(body, db);
    BodyHolds(body, db);
    HoldsWhole(body, e);
  }

  lemma SumIsEncoded(sum: bytes, n: nat)
    requires |sum| == 4 && FromLE(sum) == n
    ensures sum == LE(n, 4)
  {
    FromLERoundTrip(sum);
  }

  lemma AcceptedIsEncoding(b: bytes, body: bytes, sum: bytes, crc: Crc, db: Db)
    requires ParseFile(b, crc) == Ok(db) && body == b[..|b| - 4] && sum == b[|b| - 4..]
    ensures DbOK(db) && body == EncBody(db) && sum == LE(crc(body) % LIM4, 4) && b == body + sum
  {
    hide EncOrgs, EncRanges, LE, FromLE, ParseOrgs, ParseRanges, DbOK;
    assert body[..8] == b[..8];
    BodyAccepted(body, db, EncBody(db));
    SumIsEncoded(sum, crc(body) % LIM4);
  }

  /** A file is accepted just when it is what the writer makes of some table. */
  lemma AcceptsExactlyEncodings(b: bytes, crc: Crc, db: Db)
    ensures ParseFile(b, crc) == Ok(db) <==> DbOK(db) && b == Encode(db, crc)
  {
    if DbOK(db) && b == Encode(db, crc) {
      ParseInvertsEncode(db, crc);
    } else if ParseFile(b, crc) == Ok(db) {
      AcceptedIsEncoding(b, b[..|b| - 4], b[|b| - 4..], crc, db);
    }
  }

  // ----- End to end -----

  /** A normal table that owns every address as the two sources do; there is at most one. */
  ghost predicate Represents(t: seq<Range>, asn: seq<Range>, curated: seq<Range>) {
    Disjoint(t) && Merged(t) && forall x :: FirstOwner(t, x) == OwnerBySource(asn, curated, x)
  }

  lemma RepresentationUnique(t: seq<Range>, asn: seq<Range>, curated: seq<Range>)
    requires Represents(t, asn, curated)
    ensures forall u :: Represents(u, asn, curated) ==> u == t
  {
    forall u | Represents(u, asn, curated)
      ensures u == t
    {
      forall x
        ensures FirstOwner(u, x) == FirstOwner(t, x)
      {
        assert FirstOwner(u, x) == OwnerBySource(asn, curated, x) == FirstOwner(t, x);
      }
      NormalFormUnique(u, t);
    }
  }

  /** Build, write, read and search: an address gets its curated owner, or else its ASN owner,
      or none.  It is refused only when the table has more ranges than a count field holds. */
  method EndToEnd(asn4: seq<Range>, cur4: seq<Range>, asn6: seq<Range>, cur6: seq<Range>, orgs: seq<Org>, date: nat,
                  crc: Crc, ip: Ip) returns (built: bool, owner: Option<Org>)
    requires |orgs| < 0x1_0000 && date < LIM4 && forall i :: 0 <= i < |orgs| ==> OrgOK(orgs[i])
    requires InBounds(asn4, LIM4, |orgs|) && InBounds(cur4, LIM4, |orgs|)
    requires InBounds(asn6, LIM6, |orgs|) && InBounds(cur6, LIM6, |orgs|)
    ensures !built ==> (forall t :: Represents(t, asn4, cur4) ==> |t| >= LIM4) ||
                       (forall t :: Represents(t, asn6, cur6) ==> |t| >= LIM4)
    ensures built ==>
      var o := match ip
               case V4(a) => OwnerBySource(asn4, cur4, a)
               case V6(a) => OwnerBySource(asn6, cur6, a)
               case NoIp => None;
      owner == if o.Some? && o.value < |orgs| then Some(orgs[o.value]) else None
  {
    var v4 := BuildTable(asn4, cur4, LIM4, |orgs|);
    var v6 := BuildTable(asn6, cur6, LIM6, |orgs|);
    if |v4| >= LIM4 || |v6| >= LIM4 {
      RepresentationUnique(v4, asn4, cur4);
      RepresentationUnique(v6, asn6, cur6);
      return false, None;
    }
    var db := Db(date, orgs, v4, v6);
    var file := Encode(db, crc);
    ParseInvertsEncode(db, crc);
    var res := ParseIPOwner(file, crc);
    owner := LookupIP(Some(res.db), ip);
    built := true;
  }
}
