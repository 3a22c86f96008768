/** What the text of a name says about its labels: dots within labels look like dots between them. */
module DnsLabels {
  import opened Common
  import opened Bytes
  import opened DnsWire
  import opened DnsNames

  /** The labels of the name at `off`, following pointers, as far as it reads well. */
  function LabelsFrom(b: bytes, off: nat, hops: nat): (ls: seq<bytes>)
    ensures AllOK(ls)
    decreases 128 - hops
  {
    if hops > 127 || off >= |b| || b[off] == 0 then []
    else if b[off] >= 192 then
      if off + 1 >= |b| || U16(b, off) % 0x4000 >= off then [] else LabelsFrom(b, U16(b, off) % 0x4000, hops + 1)
    else if b[off] >= 64 || off + 1 + b[off] as int > |b| then []
    else [b[off + 1..off + 1 + b[off] as int]] + LabelsFrom(b, off + 1 + b[off] as int, hops + 1)
  }

  function LabelsAt(b: bytes, off: nat): (ls: seq<bytes>)
    ensures AllOK(ls)
  {
    LabelsFrom(b, off, 0)
  }

  /** The text read is that of the labels, joined by dots and in lower case. */
  lemma {:induction false} TextIsJoined(b: bytes, off: nat, hops: nat, sb: bytes, next: Option<nat>)
    ensures var r := ReadFrom(b, off, hops, sb, next); r.Name? ==> r.text == Lower(Joined(sb, LabelsFrom(b, off, hops)))
    decreases 128 - hops
  {
    hide Lower, AddLabel, U16;
    if hops <= 127 && off < |b| && b[off] != 0 {
      if b[off] >= 192 && off + 1 < |b| && U16(b, off) % 0x4000 < off {
        TextIsJoined(b, U16(b, off) % 0x4000, hops + 1, sb, Some(next.GetOr(off + 2)));
      } else if b[off] < 64 && off + 1 + b[off] as int <= |b| {
        var lab, o := b[off + 1..off + 1 + b[off] as int], off + 1 + b[off] as int;
        TextIsJoined(b, o, hops + 1, AddLabel(sb, lab), next);
        assert ([lab] + LabelsFrom(b, o, hops + 1))[1..] == LabelsFrom(b, o, hops + 1);
      }
    }
  }

  /** A name written out has the labels it was written from. */
  lemma {:induction false} LabelsWritten(b: bytes, off: nat, hops: nat, ls: seq<bytes>)
    requires AllOK(ls) && Holds(b, off, EncLabels(ls)) && hops + |ls| <= 127
    ensures LabelsFrom(b, off, hops) == ls
    decreases |ls|
  {
    if ls == [] {
      HoldsOne(b, off, 0);
    } else {
      EncLabelsCons(b, off, ls);
      LabelsWritten(b, off + 1 + |ls[0]|, hops + 1, ls[1..]);
      assert ls == [ls[0]] + ls[1..];
    }
  }

  // ----- Cutting at dots -----

  function LowerAll(ls: seq<bytes>): (r: seq<bytes>)
    ensures |r| == |ls|
  {
    seq(|ls|, i requires 0 <= i < |ls| => Lower(ls[i]))
  }

  /** Two names are the same, up to the case of their letters. */
  predicate SameName(a: seq<bytes>, b: seq<bytes>) { LowerAll(a) == LowerAll(b) }

  /** The same octet, or the same letter of the alphabet. */
  predicate SameLetter(x: byte, y: byte) {
    x == y || (65 <= x <= 90 && y == x + 32) || (65 <= y <= 90 && x == y + 32)
  }

  /** Octet by octet two texts are the same up to the case of letters exactly if they are the same in lower
      case, which has no capital letter. */
  lemma LowerMeans(s: bytes, t: bytes)
    ensures Lower(s) == Lower(t) <==> |s| == |t| && forall j :: 0 <= j < |s| ==> SameLetter(s[j], t[j])
    ensures forall j :: 0 <= j < |s| ==> !(65 <= Lower(s)[j] <= 90) && SameLetter(s[j], Lower(s)[j])
  {
    if |s| == |t| && forall j :: 0 <= j < |s| ==> SameLetter(s[j], t[j]) {
      assert forall j :: 0 <= j < |s| ==> Lower(s)[j] == Lower(t)[j];
    }
    if Lower(s) == Lower(t) {
      assert |s| == |Lower(s)| == |t|;
      forall j | 0 <= j < |s| ensures SameLetter(s[j], t[j]) {
        assert Lower(s)[j] == LowerByte(s[j]) && Lower(t)[j] == LowerByte(t[j]);
      }
    }
  }

  /** Two names are the same exactly if label by label and octet by octet they are, up to case. */
  lemma SameNameMeans(a: seq<bytes>, b: seq<bytes>)
    ensures SameName(a, b) <==>
            |a| == |b| && forall i :: 0 <= i < |a| ==>
              |a[i]| == |b[i]| && forall j :: 0 <= j < |a[i]| ==> SameLetter(a[i][j], b[i][j])
  {
    hide Lower, SameLetter;
    forall i | 0 <= i < |a| && i < |b|
      ensures LowerAll(a)[i] == LowerAll(b)[i] <==>
              |a[i]| == |b[i]| && forall j :: 0 <= j < |a[i]| ==> SameLetter(a[i][j], b[i][j])
    {
      LowerMeans(a[i], b[i]);
    }
    if SameName(a, b) {
      assert |a| == |LowerAll(a)| == |LowerAll(b)| == |b|;
    }
  }

  /** The labels cut at the dots inside them. */
  function Pieces(ls: seq<bytes>): seq<bytes> { if ls == [] then [] else Split(ls[0]) + Pieces(ls[1..]) }

  predicate Dotless(ls: seq<bytes>) { forall i :: 0 <= i < |ls| ==> DOT !in ls[i] }

  lemma {:induction false} SplitDotless(s: bytes)
    ensures DOT !in s <==> Split(s) == [s]
  {
    if s != [] {
      SplitDotless(s[1..]);
      assert s == [s[0]] + s[1..];
      var p := Split(s[1..]);
      if s[0] != DOT && Split(s) == [s] {
        assert Split(s) == [[s[0]] + p[0]] + p[1..];
        assert p[0] == s[1..] && p == [p[0]] + p[1..];
      }
    }
  }

  /** Putting an octet in front of a text. */
  lemma SplitCons(c: byte, s: bytes)
    ensures Split([c] + s) == if c == DOT then [[]] + Split(s) else [[c] + Split(s)[0]] + Split(s)[1..]
  {
    assert ([c] + s)[1..] == s;
  }

  /** Cutting at a dot between two texts cuts each of them. */
  lemma {:induction false} SplitAtDot(s: bytes, t: bytes)
    ensures Split(s + [DOT] + t) == Split(s) + Split(t)
  {
    if s == [] {
      assert s + [DOT] + t == [DOT] + t;
      SplitCons(DOT, t);
    } else {
      var c, r := s[0], s[1..];
      assert s == [c] + r && s + [DOT] + t == [c] + (r + [DOT] + t);
      SplitAtDot(r, t);
      SplitCons(c, r);
      SplitCons(c, r + [DOT] + t);
      ConsPieces(c, Split(r), Split(t));
    }
  }

  lemma ConsPieces(c: byte, p: seq<bytes>, q: seq<bytes>)
    requires p != []
    ensures [[]] + (p + q) == [[]] + p + q
    ensures [[c] + (p + q)[0]] + (p + q)[1..] == [[c] + p[0]] + p[1..] + q
  {
    assert (p + q)[1..] == p[1..] + q;
  }

  lemma {:induction false} SplitJoined(ls: seq<bytes>)
    requires AllOK(ls) && ls != []
    ensures Joined([], ls) != [] && Split(Joined([], ls)) == Pieces(ls)
  {
    var t := ls[1..];
    assert Joined([], ls) == Joined(ls[0], t);
    if t == [] {
      assert Pieces(ls) == Split(ls[0]) + [];
    } else {
      assert AllOK(t);
      JoinedPrefix(ls[0], t);
      SplitAtDot(ls[0], Joined([], t));
      SplitJoined(t);
    }
  }

  /** Splitting loses nothing: glue the pieces with dots. */
  lemma {:induction false} SplitInjective(s: bytes, t: bytes)
    requires Split(s) == Split(t)
    ensures s == t
  {
    if s != [] && t != [] {
      var p, q := Split(s[1..]), Split(t[1..]);
      assert s == [s[0]] + s[1..] && t == [t[0]] + t[1..];
      if s[0] == DOT || t[0] == DOT {
        assert s[0] == t[0] by {
          assert (Split(s)[0] == []) == (s[0] == DOT) && (Split(t)[0] == []) == (t[0] == DOT);
        }
        assert p == Split(s)[1..] && q == Split(t)[1..];
      } else {
        assert Split(s)[0] == [s[0]] + p[0] && Split(t)[0] == [t[0]] + q[0];
        assert p[0] == Split(s)[0][1..] && q[0] == Split(t)[0][1..];
        assert p[1..] == Split(s)[1..] && q[1..] == Split(t)[1..];
        assert p == [p[0]] + p[1..] && q == [q[0]] + q[1..];
      }
      SplitInjective(s[1..], t[1..]);
    } else {
      SplitEmpty(s);
      SplitEmpty(t);
    }
  }

  lemma SplitEmpty(s: bytes)
    ensures s == [] <==> Split(s) == [[]]
  {
    if s != [] {
      assert s[0] == DOT ==> |Split(s)| > 1;
      assert s[0] != DOT ==> |Split(s)[0]| > 0;
    }
  }

  /** Two names have the same text exactly if cutting their labels at dots gives the same pieces. */
  lemma SameTextIff(a: seq<bytes>, b: seq<bytes>)
    requires AllOK(a) && AllOK(b)
    ensures Joined([], a) == Joined([], b) <==> Pieces(a) == Pieces(b)
  {
    if a == [] || b == [] {
      if a != [] { SplitJoined(a); }
      if b != [] { SplitJoined(b); }
    } else {
      SplitJoined(a);
      SplitJoined(b);
      if Pieces(a) == Pieces(b) {
        SplitInjective(Joined([], a), Joined([], b));
      }
    }
  }

  lemma {:induction false} PiecesDotless(ls: seq<bytes>)
    requires Dotless(ls)
    ensures Pieces(ls) == ls
  {
    if ls != [] {
      SplitDotless(ls[0]);
      PiecesDotless(ls[1..]);
    }
  }

  // ----- Case -----

  lemma LowerConcat(s: bytes, t: bytes)
    ensures Lower(s + t) == Lower(s) + Lower(t)
  {
  }

  lemma {:induction false} LowerJoined(sb: bytes, ls: seq<bytes>)
    ensures Lower(Joined(sb, ls)) == Joined(Lower(sb), LowerAll(ls))
    decreases |ls|
  {
    if ls != [] {
      LowerJoined(AddLabel(sb, ls[0]), ls[1..]);
      assert LowerAll(ls)[1..] == LowerAll(ls[1..]);
      LowerConcat(sb + [DOT], ls[0]);
      LowerConcat(sb, [DOT]);
      assert Lower([DOT]) == [DOT];
      assert Lower(AddLabel(sb, ls[0])) == AddLabel(Lower(sb), Lower(ls[0]));
    }
  }

  lemma LowerAllOK(ls: seq<bytes>)
    requires AllOK(ls)
    ensures AllOK(LowerAll(ls))
  {
  }

  lemma LowerDotless(ls: seq<bytes>)
    ensures Dotless(LowerAll(ls)) <==> Dotless(ls)
  {
    assert LowerByte(DOT) == DOT && forall c: byte :: LowerByte(c) == DOT ==> c == DOT;
    forall i | 0 <= i < |ls| ensures DOT in LowerAll(ls)[i] <==> DOT in ls[i] {
      var s, t := ls[i], LowerAll(ls)[i];
      if DOT in s {
        var k :| 0 <= k < |s| && s[k] == DOT;
        assert t[k] == DOT;
      }
      if DOT in t {
        var k :| 0 <= k < |t| && t[k] == DOT;
        assert s[k] == DOT;
      }
    }
  }

  /** Two names have the same text up to case. */
  predicate SameText(a: seq<bytes>, b: seq<bytes>) { Pieces(LowerAll(a)) == Pieces(LowerAll(b)) }

  /** What the text of a name tells: the pieces between its dots, whether these stand between
      labels or within one. So it tells names apart whose labels hold no dots; and of the names
      with the text of one of these the same name are exactly those without dots. */
  lemma TextTells(a: seq<bytes>, b: seq<bytes>)
    requires AllOK(a) && AllOK(b)
    ensures Lower(Joined([], a)) == Lower(Joined([], b)) <==> SameText(a, b)
    ensures SameName(a, b) ==> SameText(a, b)
    ensures Dotless(a) && SameText(a, b) ==> (SameName(a, b) <==> Dotless(b))
  {
    LowerJoined([], a);
    LowerJoined([], b);
    LowerAllOK(a);
    LowerAllOK(b);
    LowerDotless(a);
    LowerDotless(b);
    hide Lower, LowerAll, Joined, AllOK, Dotless, Pieces;
    SameTextIff(LowerAll(a), LowerAll(b));
    if Dotless(a) {
      PiecesDotless(LowerAll(a));
    }
    if Dotless(b) {
      PiecesDotless(LowerAll(b));
    }
  }
}
