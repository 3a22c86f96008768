/**
 Interval painting of the IP ownership table (tools/build_ip_owner.py).  A range is closed
 and owned by an organisation index; lists of ranges are cut, overlaid and normalised.
 */
module IpRanges {
  import opened Common

  datatype Range = Range(s: nat, e: nat, o: nat) {
    predicate Valid() { s <= e }

    predicate Covers(x: int) { s <= x <= e }

    /** Tuple order. */
    predicate Le(r: Range) { s < r.s || (s == r.s && (e < r.e || (e == r.e && o <= r.o))) }
  }

  predicate AllValid(rs: seq<Range>) { forall r :: r in rs ==> r.Valid() }

  /** Addresses are below `lim`, organisations below `n`. */
  predicate InBounds(rs: seq<Range>, lim: int, n: nat) {
    forall r :: r in rs ==> r.Valid() && r.e < lim && r.o < n
  }

  predicate Sorted(rs: seq<Range>) { forall i, j :: 0 <= i < j < |rs| ==> rs[i].Le(rs[j]) }

  predicate Disjoint(rs: seq<Range>) {
    && AllValid(rs)
    && forall i, j :: 0 <= i < j < |rs| ==> rs[i].e < rs[j].s
  }

  /** No two neighbours could be one range. */
  predicate Merged(rs: seq<Range>) {
    forall i :: 0 <= i < |rs| - 1 ==> !(rs[i].e + 1 == rs[i + 1].s && rs[i].o == rs[i + 1].o)
  }

  predicate Covered(rs: seq<Range>, x: int) { exists r :: r in rs && r.Covers(x) }

  /** The owner by the first range in the list that covers the address. */
  function FirstOwner(rs: seq<Range>, x: int): Option<nat> {
    if rs == [] then None
    else if rs[0].Covers(x) then Some(rs[0].o) else FirstOwner(rs[1..], x)
  }

  // ----- Sorting -----

  function Insert(r: Range, rs: seq<Range>): seq<Range> {
    if rs == [] || r.Le(rs[0]) then [r] + rs else [rs[0]] + Insert(r, rs[1..])
  }

  /** Python's `sorted` on tuples. */
  function Sort(rs: seq<Range>): seq<Range> {
    if rs == [] then [] else Insert(rs[0], Sort(rs[1..]))
  }

  lemma {:induction false} InsertSorted(r: Range, rs: seq<Range>)
    requires Sorted(rs)
    ensures Sorted(Insert(r, rs)) && forall x :: x in Insert(r, rs) <==> x == r || x in rs
  {
    if rs != [] && !r.Le(rs[0]) {
      InsertSorted(r, rs[1..]);
      var t := Insert(r, rs[1..]);
      assert forall x :: x in rs <==> x == rs[0] || x in rs[1..];
      forall i | 0 <= i < |t|
        ensures rs[0].Le(t[i])
      {
        assert t[i] in t;
        if t[i] != r {
          var j :| 0 <= j < |rs[1..]| && rs[1..][j] == t[i];
          assert rs[j + 1] == t[i];
        }
      }
    }
  }

  lemma {:induction false} SortSorted(rs: seq<Range>)
    ensures Sorted(Sort(rs)) && forall x :: x in Sort(rs) <==> x in rs
  {
    if rs != [] {
      SortSorted(rs[1..]);
      InsertSorted(rs[0], Sort(rs[1..]));
      assert forall x :: x in rs <==> x == rs[0] || x in rs[1..];
    }
  }

  // ----- The first owner, stated without the list's order -----

  /** The least range that covers the address. */
  predicate IsFirst(rs: seq<Range>, x: int, r: Range) {
    r in rs && r.Covers(x) && forall r' :: r' in rs && r'.Covers(x) ==> r.Le(r')
  }

  lemma {:induction false} FirstOwnerOfSorted(rs: seq<Range>, x: int)
    requires Sorted(rs)
    ensures FirstOwner(rs, x) == None <==> !Covered(rs, x)
    ensures forall r :: IsFirst(rs, x, r) ==> FirstOwner(rs, x) == Some(r.o)
  {
    if rs != [] {
      assert forall r :: r in rs <==> r == rs[0] || r in rs[1..];
      FirstOwnerOfSorted(rs[1..], x);
      if rs[0].Covers(x) {
        assert rs[0] in rs;
      } else {
        assert Covered(rs, x) <==> Covered(rs[1..], x);
        forall r | IsFirst(rs, x, r)
          ensures FirstOwner(rs, x) == Some(r.o)
        {
          assert IsFirst(rs[1..], x, r);
        }
      }
    }
  }

  lemma {:induction false} FirstExists(rs: seq<Range>, x: int) returns (r: Range)
    requires Sorted(rs) && Covered(rs, x)
    ensures IsFirst(rs, x, r)
  {
    if rs[0].Covers(x) {
      r := rs[0];
      assert forall r' :: r' in rs ==> exists i :: 0 <= i < |rs| && rs[i] == r';
    } else {
      assert forall r' :: r' in rs <==> r' == rs[0] || r' in rs[1..];
      assert Covered(rs[1..], x);
      r := FirstExists(rs[1..], x);
    }
  }

  // ----- Normalising -----

  lemma {:induction false} FirstOwnerAppend(a: seq<Range>, b: seq<Range>, x: int)
    ensures FirstOwner(a + b, x) == if FirstOwner(a, x).Some? then FirstOwner(a, x) else FirstOwner(b, x)
  {
    if a == [] {
      assert a + b == b;
    } else {
      assert (a + b)[1..] == a[1..] + b;
      FirstOwnerAppend(a[1..], b, x);
    }
  }

  lemma FirstOwnerSnoc(a: seq<Range>, r: Range, x: int)
    ensures FirstOwner(a + [r], x) ==
            if FirstOwner(a, x).Some? then FirstOwner(a, x) else if r.Covers(x) then Some(r.o) else None
  {
    FirstOwnerAppend(a, [r], x);
    assert [r][1..] == [];
  }

  lemma {:induction false} NoOwnerAbove(rs: seq<Range>, x: int)
    requires forall i :: 0 <= i < |rs| ==> rs[i].e < x
    ensures FirstOwner(rs, x) == None
  {
    if rs != [] {
      NoOwnerAbove(rs[1..], x);
    }
  }

  /** State of the pass over the sorted ranges: the output owns what the ranges read so far
      own, and everything from the last start to the last end is owned. */
  ghost predicate Pass(out: seq<Range>, seen: seq<Range>) {
    && Disjoint(out) && Merged(out)
    && (forall x :: FirstOwner(out, x) == FirstOwner(seen, x))
    && (out == [] <==> seen == [])
    && (seen != [] ==> seen[|seen| - 1].s <= out[|out| - 1].e)
    && (seen != [] ==> forall x :: seen[|seen| - 1].s <= x <= out[|out| - 1].e ==> FirstOwner(out, x).Some?)
  }

  /** A range that adds nothing is dropped. */
  lemma PassDrop(out: seq<Range>, seen: seq<Range>, r: Range)
    requires Pass(out, seen) && seen != [] && r.Valid()
    requires seen[|seen| - 1].s <= r.s <= r.e <= out[|out| - 1].e
    ensures Pass(out, seen + [r])
  {
    forall x
      ensures FirstOwner(out, x) == FirstOwner(seen + [r], x)
    {
      FirstOwnerSnoc(seen, r, x);
    }
  }

  /** A range of the last owner that reaches further extends the last range. */
  lemma PassExtend(out: seq<Range>, seen: seq<Range>, r: Range)
    requires Pass(out, seen) && seen != [] && r.Valid()
    requires seen[|seen| - 1].s <= r.s <= out[|out| - 1].e + 1 && out[|out| - 1].e < r.e && out[|out| - 1].o == r.o
    ensures Pass(out[|out| - 1 := Range(out[|out| - 1].s, r.e, r.o)], seen + [r])
  {
    var n := |out| - 1;
    var last := out[n];
    var out' := out[n := Range(last.s, r.e, r.o)];
    assert out == out[..n] + [last] && out' == out[..n] + [Range(last.s, r.e, r.o)];
    assert last in out;
    forall x
      ensures FirstOwner(out', x) == FirstOwner(seen + [r], x)
      ensures FirstOwner(out', x) == if last.e < x <= r.e then Some(r.o) else FirstOwner(out, x)
    {
      FirstOwnerSnoc(seen, r, x);
      FirstOwnerSnoc(out[..n], last, x);
      FirstOwnerSnoc(out[..n], Range(last.s, r.e, r.o), x);
      if x > last.e {
        NoOwnerAbove(out[..n], x);
      }
    }
    assert forall q :: q in out' ==> q in out || q == Range(last.s, r.e, r.o);
  }

  /** What is left of a range after the last end is appended. */
  lemma PassAppend(out: seq<Range>, seen: seq<Range>, r: Range, s: nat)
    requires Pass(out, seen) && r.Valid() && s <= r.e
    requires if seen == [] then s == r.s else
               && seen[|seen| - 1].s <= r.s && out[|out| - 1].e < r.e
               && s == Max(r.s, out[|out| - 1].e + 1)
               && !(s == out[|out| - 1].e + 1 && out[|out| - 1].o == r.o)
    ensures Pass(out + [Range(s, r.e, r.o)], seen + [r])
  {
    var q := Range(s, r.e, r.o);
    assert out != [] ==> out[|out| - 1] in out;
    forall x
      ensures FirstOwner(out + [q], x) == FirstOwner(seen + [r], x)
      ensures FirstOwner(out + [q], x) == if q.Covers(x) then Some(r.o) else FirstOwner(out, x)
    {
      FirstOwnerSnoc(seen, r, x);
      FirstOwnerSnoc(out, q, x);
      if q.Covers(x) {
        NoOwnerAbove(out, x);
      }
    }
  }

  lemma BoundsAppend(out: seq<Range>, q: Range, lim: int, n: nat)
    requires InBounds(out, lim, n) && q.s <= q.e < lim && q.o < n
    ensures InBounds(out + [q], lim, n)
    ensures out != [] ==> InBounds(out[|out| - 1 := q], lim, n)
  {
    if out != [] {
      var out' := out[|out| - 1 := q];
      forall r | r in out'
        ensures r == q || r in out
      {
        var i :| 0 <= i < |out'| && out'[i] == r;
        assert i < |out| - 1 ==> out[i] == r;
      }
    }
  }

  /** One turn of the pass. */
  method AddRange(out: seq<Range>, r: Range, ghost seen: seq<Range>, ghost lim: int, ghost n: nat)
    returns (res: seq<Range>)
    requires Pass(out, seen) && InBounds(out, lim, n)
    requires r.s <= r.e < lim && r.o < n && (seen != [] ==> seen[|seen| - 1].s <= r.s)
    ensures Pass(res, seen + [r]) && InBounds(res, lim, n)
  {
    var s := r.s;
    if out != [] {
      var last := out[|out| - 1];
      assert last in out;
      if s <= last.e {
        if last.o == r.o {
          if r.e > last.e {
            PassExtend(out, seen, r);
            BoundsAppend(out, Range(last.s, r.e, last.o), lim, n);
            return out[|out| - 1 := Range(last.s, r.e, last.o)];
          }
          PassDrop(out, seen, r);
          return out;
        }
        if r.e <= last.e {
          PassDrop(out, seen, r);
          return out;
        }
        s := last.e + 1;
      }
      if s == last.e + 1 && last.o == r.o {
        PassExtend(out, seen, r);
        BoundsAppend(out, Range(last.s, r.e, last.o), lim, n);
        return out[|out| - 1 := Range(last.s, r.e, last.o)];
      }
    }
    PassAppend(out, seen, r, s);
    BoundsAppend(out, Range(s, r.e, r.o), lim, n);
    return out + [Range(s, r.e, r.o)];
  }

  /** Sorts the ranges, cuts overlaps so that the earlier range keeps them, and merges
      neighbours of one owner. */
  method Normalize(ranges: seq<Range>, ghost lim: int, ghost n: nat) returns (out: seq<Range>)
    requires InBounds(ranges, lim, n)
    ensures Disjoint(out) && Merged(out) && InBounds(out, lim, n)
    ensures forall x :: FirstOwner(out, x) == FirstOwner(Sort(ranges), x)
  {
    var rs := Sort(ranges);
    SortSorted(ranges);
    out := [];
    for i := 0 to |rs|
      invariant Pass(out, rs[..i]) && InBounds(out, lim, n)
    {
      assert rs[..i + 1] == rs[..i] + [rs[i]] && rs[i] in rs;
      assert i > 0 ==> rs[i - 1].Le(rs[i]);
      out := AddRange(out, rs[i], rs[..i], lim, n);
    }
    assert rs[..|rs|] == rs;
  }

  // ----- A normal form is determined by what it owns -----

  /** Two normal lists that own the same addresses alike are the same list. */
  lemma {:induction false} NormalFormUnique(a: seq<Range>, b: seq<Range>)
    requires Disjoint(a) && Merged(a) && Disjoint(b) && Merged(b)
    requires forall x :: FirstOwner(a, x) == FirstOwner(b, x)
    ensures a == b
  {
    if a == [] || b == [] {
      NonemptyOwns(a);
      NonemptyOwns(b);
    } else {
      assert a[0] in a && b[0] in b;
      HeadsAgree(a, b);
      forall x
        ensures FirstOwner(a[1..], x) == FirstOwner(b[1..], x)
      {
        assert FirstOwner(a, x) == FirstOwner(b, x);
        if a[0].Covers(x) {
          NoOwnerBelow(a[1..], x);
          NoOwnerBelow(b[1..], x);
        }
      }
      TailNormal(a);
      TailNormal(b);
      NormalFormUnique(a[1..], b[1..]);
      assert a == [a[0]] + a[1..] && b == [b[0]] + b[1..];
    }
  }

  lemma NonemptyOwns(a: seq<Range>)
    requires Disjoint(a)
    ensures a != [] ==> FirstOwner(a, a[0].s).Some?
  {
    assert a != [] ==> a[0] in a;
  }

  lemma TailNormal(a: seq<Range>)
    requires a != [] && Disjoint(a) && Merged(a)
    ensures Disjoint(a[1..]) && Merged(a[1..])
  {
    forall i | 0 <= i < |a[1..]| - 1
      ensures !(a[1..][i].e + 1 == a[1..][i + 1].s && a[1..][i].o == a[1..][i + 1].o)
    {
      assert a[1..][i] == a[i + 1] && a[1..][i + 1] == a[i + 2];
      assert !(a[i + 1].e + 1 == a[i + 1 + 1].s && a[i + 1].o == a[i + 1 + 1].o);
    }
  }

  lemma {:induction false} NoOwnerBelow(rs: seq<Range>, x: int)
    requires forall i :: 0 <= i < |rs| ==> x < rs[i].s
    ensures FirstOwner(rs, x) == None
  {
    if rs != [] {
      NoOwnerBelow(rs[1..], x);
    }
  }

  /** The address after the first range is not owned by the same organisation. */
  lemma HeadEnds(a: seq<Range>)
    requires a != [] && Disjoint(a) && Merged(a)
    ensures forall x :: a[0].Covers(x) ==> FirstOwner(a, x) == Some(a[0].o)
    ensures FirstOwner(a, a[0].e + 1) != Some(a[0].o)
    ensures forall x :: x < a[0].s ==> FirstOwner(a, x) == None
  {
    assert a[0] in a;
    forall x | x < a[0].s
      ensures FirstOwner(a, x) == None
    {
      assert forall i :: 0 < i < |a| ==> a[0].e < a[i].s;
      NoOwnerBelow(a, x);
    }
    if |a| > 1 {
      assert a[1] in a;
      if a[1].s > a[0].e + 1 {
        NoOwnerBelow(a[1..], a[0].e + 1);
      } else {
        assert a[0].e < a[1].s && a[1..][0] == a[1];
      }
    }
  }

  lemma HeadsAgree(a: seq<Range>, b: seq<Range>)
    requires a != [] && b != [] && Disjoint(a) && Merged(a) && Disjoint(b) && Merged(b)
    requires forall x :: FirstOwner(a, x) == FirstOwner(b, x)
    ensures a[0] == b[0]
  {
    HeadEnds(a);
    HeadEnds(b);
    assert a[0] in a && b[0] in b;
    assert a[0].Covers(a[0].s) && b[0].Covers(b[0].s);
    assert a[0].s == b[0].s;
    assert FirstOwner(a, a[0].e + 1) == FirstOwner(b, a[0].e + 1);
    assert FirstOwner(a, b[0].e + 1) == FirstOwner(b, b[0].e + 1);
    assert a[0].o == b[0].o;
  }

  // ----- Painting -----

  /** The parts of a list of pieces that lie outside one range. */
  method Cut(pieces: seq<(nat, nat)>, x: Range, ghost lo: int, ghost hi: int) returns (nxt: seq<(nat, nat)>)
    requires x.Valid() && forall p :: p in pieces ==> lo <= p.0 <= p.1 <= hi
    ensures forall p :: p in nxt ==> lo <= p.0 <= p.1 <= hi
    ensures forall y :: InPieces(nxt, y) <==> InPieces(pieces, y) && !x.Covers(y)
  {
    nxt := [];
    for i := 0 to |pieces|
      invariant forall p :: p in nxt ==> lo <= p.0 <= p.1 <= hi
      invariant forall y :: InPieces(nxt, y) <==> InPieces(pieces[..i], y) && !x.Covers(y)
    {
      var (ps, pe) := pieces[i];
      assert pieces[i] in pieces && pieces[..i + 1] == pieces[..i] + [(ps, pe)];
      ghost var was := nxt;
      if x.e < ps || x.s > pe {
        nxt := nxt + [(ps, pe)];
        InPiecesSnoc(was, (ps, pe));
      } else {
        if ps < x.s {
          InPiecesSnoc(nxt, (ps, x.s - 1));
          nxt := nxt + [(ps, x.s - 1)];
        }
        if pe > x.e {
          InPiecesSnoc(nxt, (x.e + 1, pe));
          nxt := nxt + [(x.e + 1, pe)];
        }
      }
      InPiecesSnoc(pieces[..i], (ps, pe));
    }
    assert pieces[..|pieces|] == pieces;
  }

  predicate InPieces(pieces: seq<(nat, nat)>, y: int) { exists p :: p in pieces && p.0 <= y <= p.1 }

  lemma InPiecesSnoc(pieces: seq<(nat, nat)>, q: (nat, nat))
    ensures forall y :: InPieces(pieces + [q], y) <==> InPieces(pieces, y) || q.0 <= y <= q.1
  {
    forall y
      ensures InPieces(pieces + [q], y) <==> InPieces(pieces, y) || q.0 <= y <= q.1
    {
      assert forall p :: p in pieces + [q] <==> p in pieces || p == q;
    }
  }

  /** What is left of one base range when all the overlay is cut out. */
  method CutAll(b: Range, extra: seq<Range>) returns (pieces: seq<(nat, nat)>)
    requires b.Valid() && AllValid(extra)
    ensures forall p :: p in pieces ==> b.s <= p.0 <= p.1 <= b.e
    ensures forall y :: InPieces(pieces, y) <==> b.Covers(y) && !Covered(extra, y)
  {
    pieces := [(b.s, b.e)];
    InPiecesSnoc([], (b.s, b.e));
    assert [] + pieces == pieces;
    for i := 0 to |extra|
      invariant forall p :: p in pieces ==> b.s <= p.0 <= p.1 <= b.e
      invariant forall y :: InPieces(pieces, y) <==> b.Covers(y) && !Covered(extra[..i], y)
    {
      assert extra[i] in extra && extra[..i + 1] == extra[..i] + [extra[i]];
      pieces := Cut(pieces, extra[i], b.s, b.e);
      assert forall y :: Covered(extra[..i + 1], y) <==> Covered(extra[..i], y) || extra[i].Covers(y) by {
        CoveredSnoc(extra[..i], extra[i]);
      }
    }
    assert extra[..|extra|] == extra;
  }

  lemma CoveredSnoc(rs: seq<Range>, r: Range)
    ensures forall y :: Covered(rs + [r], y) <==> Covered(rs, y) || r.Covers(y)
  {
    forall y
      ensures Covered(rs + [r], y) <==> Covered(rs, y) || r.Covers(y)
    {
      assert forall q :: q in rs + [r] <==> q in rs || q == r;
    }
  }

  /** `p` is a part of a base range that the overlay leaves free. */
  ghost predicate FreePart(p: Range, base: seq<Range>, extra: seq<Range>) {
    exists b :: b in base && b.s <= p.s <= p.e <= b.e && b.o == p.o && forall y :: p.Covers(y) ==> !Covered(extra, y)
  }

  /** The free parts of the base, followed by the overlay. */
  ghost predicate Painted(res: seq<Range>, base: seq<Range>, extra: seq<Range>) {
    && (forall p :: p in res ==> p in extra || FreePart(p, base, extra))
    && (forall r :: r in extra ==> r in res)
    && (forall y :: Covered(base, y) && !Covered(extra, y) ==> Covered(res, y))
  }

  method Paint(base: seq<Range>, extra: seq<Range>) returns (res: seq<Range>)
    requires AllValid(base) && AllValid(extra)
    ensures Painted(res, base, extra)
  {
    if extra == [] {
      assert forall p :: p in base ==> FreePart(p, base, extra);
      return base;
    }
    var xs := Sort(extra);
    SortSorted(extra);
    assert forall y :: Covered(xs, y) <==> Covered(extra, y);
    res := [];
    for i := 0 to |base|
      invariant forall p :: p in res ==> FreePart(p, base, extra)
      invariant forall y :: Covered(base[..i], y) && !Covered(extra, y) ==> Covered(res, y)
    {
      var b := base[i];
      assert b in base && base[..i + 1] == base[..i] + [b];
      var pieces := CutAll(b, xs);
      var part := seq(|pieces|, j requires 0 <= j < |pieces| => Range(pieces[j].0, pieces[j].1, b.o));
      PartsAreFree(b, base, extra, pieces, part);
      CoveredSnoc(base[..i], b);
      CoveredAppend(res, part);
      res := res + part;
    }
    assert base[..|base|] == base;
    CoveredAppend(res, xs);
    res := res + xs;
  }

  lemma CoveredAppend(a: seq<Range>, b: seq<Range>)
    ensures forall y :: Covered(a + b, y) <==> Covered(a, y) || Covered(b, y)
  {
    forall y
      ensures Covered(a + b, y) <==> Covered(a, y) || Covered(b, y)
    {
      assert forall q :: q in a + b <==> q in a || q in b;
    }
  }

  lemma PartsAreFree(b: Range, base: seq<Range>, extra: seq<Range>, pieces: seq<(nat, nat)>, part: seq<Range>)
    requires b in base && |part| == |pieces|
    requires forall j :: 0 <= j < |part| ==> part[j] == Range(pieces[j].0, pieces[j].1, b.o)
    requires forall p :: p in pieces ==> b.s <= p.0 <= p.1 <= b.e
    requires forall y :: InPieces(pieces, y) <==> b.Covers(y) && !Covered(extra, y)
    ensures forall p :: p in part ==> FreePart(p, base, extra)
    ensures forall y :: b.Covers(y) && !Covered(extra, y) ==> Covered(part, y)
  {
    forall p | p in part
      ensures FreePart(p, base, extra)
    {
      var j :| 0 <= j < |part| && part[j] == p;
      assert pieces[j] in pieces;
      forall y | p.Covers(y)
        ensures !Covered(extra, y)
      {
        assert InPieces(pieces, y);
      }
    }
    forall y | b.Covers(y) && !Covered(extra, y)
      ensures Covered(part, y)
    {
      var q :| q in pieces && q.0 <= y <= q.1;
      var j :| 0 <= j < |pieces| && pieces[j] == q;
      assert part[j] in part && part[j].Covers(y);
    }
  }

  // ----- The table that is built -----

  /** The owner that the two sources give an address: a curated range, or else an ASN range. */
  function OwnerBySource(asn: seq<Range>, curated: seq<Range>, x: int): Option<nat> {
    var c := FirstOwner(Sort(curated), x);
    if c.Some? then c else FirstOwner(Sort(asn), x)
  }

  lemma {:induction false} OwnerOfDisjoint(rs: seq<Range>, x: int, r: Range)
    requires Disjoint(rs) && r in rs && r.Covers(x)
    ensures FirstOwner(rs, x) == Some(r.o)
  {
    if rs[0] != r {
      assert forall q :: q in rs <==> q == rs[0] || q in rs[1..];
      var j :| 0 <= j < |rs| && rs[j] == r;
      assert rs[0].e < rs[j].s;
      OwnerOfDisjoint(rs[1..], x, r);
    }
  }

  /** An address that the overlay covers goes to the first overlay range. */
  lemma PaintedCurated(res: seq<Range>, base: seq<Range>, extra: seq<Range>, x: int)
    requires Painted(res, base, extra) && Covered(extra, x)
    ensures FirstOwner(Sort(res), x) == FirstOwner(Sort(extra), x)
  {
    SortSorted(res);
    SortSorted(extra);
    assert Covered(Sort(extra), x);
    var r := FirstExists(Sort(extra), x);
    FirstOwnerOfSorted(Sort(extra), x);
    forall q | q in Sort(res) && q.Covers(x)
      ensures r.Le(q)
    {
      assert q in extra || FreePart(q, base, extra);
    }
    assert IsFirst(Sort(res), x, r);
    FirstOwnerOfSorted(Sort(res), x);
  }

  /** Any other address keeps the owner it had in the base. */
  lemma PaintedBase(res: seq<Range>, base: seq<Range>, extra: seq<Range>, x: int)
    requires Painted(res, base, extra) && !Covered(extra, x) && Disjoint(base)
    ensures FirstOwner(Sort(res), x) == FirstOwner(base, x)
  {
    SortSorted(res);
    FirstOwnerOfSorted(Sort(res), x);
    if Covered(Sort(res), x) {
      var r := FirstExists(Sort(res), x);
      assert r in res && FreePart(r, base, extra);
      var b :| b in base && b.s <= r.s <= r.e <= b.e && b.o == r.o;
      OwnerOfDisjoint(base, x, b);
    } else {
      assert !Covered(res, x);
      assert !Covered(base, x);
      NotCoveredNoOwner(base, x);
    }
  }

  lemma {:induction false} NotCoveredNoOwner(rs: seq<Range>, x: int)
    requires !Covered(rs, x)
    ensures FirstOwner(rs, x) == None
  {
    if rs != [] {
      assert rs[0] in rs;
      assert forall q :: q in rs[1..] ==> q in rs;
      NotCoveredNoOwner(rs[1..], x);
    }
  }

  /** normalize(paint(normalize(asn), curated)) */
  method BuildTable(asn: seq<Range>, curated: seq<Range>, ghost lim: int, ghost n: nat) returns (out: seq<Range>)
    requires InBounds(asn, lim, n) && InBounds(curated, lim, n)
    ensures Disjoint(out) && Merged(out) && InBounds(out, lim, n)
    ensures forall x :: FirstOwner(out, x) == OwnerBySource(asn, curated, x)
  {
    var base := Normalize(asn, lim, n);
    var res := Paint(base, curated);
    forall p | p in res
      ensures p.Valid() && p.e < lim && p.o < n
    {
      if p !in curated {
        var b :| b in base && b.s <= p.s <= p.e <= b.e && b.o == p.o;
      }
    }
    out := Normalize(res, lim, n);
    forall x
      ensures FirstOwner(out, x) == OwnerBySource(asn, curated, x)
    {
      SortSorted(curated);
      FirstOwnerOfSorted(Sort(curated), x);
      assert Covered(Sort(curated), x) <==> Covered(curated, x);
      if Covered(curated, x) {
        PaintedCurated(res, base, curated, x);
      } else {
        PaintedBase(res, base, curated, x);
      }
    }
  }
}
