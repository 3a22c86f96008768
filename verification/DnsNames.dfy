/** Names: skipping against reading, length bounds, and encoding against reading. */
module DnsNames {
  import opened Common
  import opened Bytes
  import opened DnsWire

  // ----- Skipping stops where reading stops -----

  /** After a pointer the offset behind the name is settled. */
  lemma {:induction false} NextIsKept(b: bytes, off: nat, hops: nat, sb: bytes, next: nat)
    ensures var r := ReadFrom(b, off, hops, sb, Some(next)); r.Name? ==> r.next == next
    decreases 128 - hops
  {
    if hops <= 127 && off < |b| && b[off] != 0 {
      if b[off] >= 192 && off + 1 < |b| && U16(b, off) % 0x4000 < off {
        NextIsKept(b, U16(b, off) % 0x4000, hops + 1, sb, next);
      } else if b[off] < 64 && off + 1 + b[off] as int <= |b| {
        NextIsKept(b, off + 1 + b[off] as int, hops + 1, AddLabel(sb, b[off + 1..off + 1 + b[off] as int]), next);
      }
    }
  }

  /** Octets a name can still take in place when its text so far is `n` long: the text may
      reach 255, and a pointer or the final zero follows. */
  function Room(n: nat): int { if n == 0 then 258 else 257 - n }

  lemma PointerCase(b: bytes, off: nat, hops: nat, sb: bytes)
    requires |sb| <= 255 && hops <= 127 && off < |b| && b[off] >= 192
    ensures var r := ReadFrom(b, off, hops, sb, None);
      r.Name? ==> off + 1 < |b| && r.next == off + 2 && |r.text| <= 255
  {
    if off + 1 < |b| && U16(b, off) % 0x4000 < off {
      var ptr := U16(b, off) % 0x4000;
      NextIsKept(b, ptr, hops + 1, sb, off + 2);
      TextBounded(b, ptr, hops + 1, sb, Some(off + 2));
    }
  }

  lemma {:induction false} SkipStopsAtReadFrom(b: bytes, off: nat, hops: nat, sb: bytes)
    requires |sb| <= 255
    ensures var r := ReadFrom(b, off, hops, sb, None);
      r.Name? ==> && SkipFrom(b, off, hops) == Some(r.next)
                  && off < r.next <= |b| && r.next - off <= Room(|sb|) && |r.text| <= 255
    decreases 128 - hops
  {
    if hops <= 127 && off < |b| && b[off] != 0 {
      if b[off] >= 192 {
        PointerCase(b, off, hops, sb);
      } else if b[off] < 64 && off + 1 + b[off] as int <= |b| {
        var sb' := AddLabel(sb, b[off + 1..off + 1 + b[off] as int]);
        if |sb'| <= 255 {
          SkipStopsAtReadFrom(b, off + 1 + b[off] as int, hops + 1, sb');
        }
      }
    }
  }

  lemma {:induction false} TextBounded(b: bytes, off: nat, hops: nat, sb: bytes, next: Option<nat>)
    requires |sb| <= 255
    ensures var r := ReadFrom(b, off, hops, sb, next); r.Name? ==> |r.text| <= 255
    decreases 128 - hops
  {
    if hops <= 127 && off < |b| && b[off] != 0 {
      if b[off] >= 192 && off + 1 < |b| && U16(b, off) % 0x4000 < off {
        TextBounded(b, U16(b, off) % 0x4000, hops + 1, sb, Some(next.GetOr(off + 2)));
      } else if b[off] < 64 && off + 1 + b[off] as int <= |b| {
        var sb' := AddLabel(sb, b[off + 1..off + 1 + b[off] as int]);
        if |sb'| <= 255 {
          TextBounded(b, off + 1 + b[off] as int, hops + 1, sb', next);
        }
      }
    }
  }

  /** Whenever a name reads well, skipping it ends at the same offset; in place it takes at
      most 258 octets. */
  lemma SkipStopsWhereReadStops(b: bytes, off: nat)
    ensures var r := NameOf(b, off);
      r.Name? ==> Skip(b, off) == Some(r.next) && off < r.next <= |b| && r.next - off <= 258 && |r.text| <= 255
  {
    SkipStopsAtReadFrom(b, off, 0, []);
  }

  /** Skipping looks only at the octets it steps over. */
  lemma {:induction false} SkipSame(b: bytes, c: bytes, off: nat, hops: nat, end: nat)
    requires SkipFrom(b, off, hops) == Some(end) && end <= |b| && end <= |c| && b[off..end] == c[off..end]
    ensures SkipFrom(c, off, hops) == Some(end)
    decreases 128 - hops
  {
    assert b[off] == b[off..end][0] == c[off..end][0] == c[off];
    if 0 < b[off] < 64 {
      var o := off + 1 + b[off] as int;
      assert b[o..end] == b[off..end][o - off..] && c[o..end] == c[off..end][o - off..];
      SkipSame(b, c, o, hops + 1, end);
    }
  }

  // ----- Encoding and reading -----

  /** The text of a list of labels added to `sb`. */
  function Joined(sb: bytes, ls: seq<bytes>): bytes
    decreases |ls|
  {
    if ls == [] then sb else Joined(AddLabel(sb, ls[0]), ls[1..])
  }

  predicate AllOK(ls: seq<bytes>) { forall i :: 0 <= i < |ls| ==> LabelOK(ls[i]) }

  lemma {:induction false} JoinedGrows(sb: bytes, ls: seq<bytes>)
    ensures |sb| <= |Joined(sb, ls)|
    decreases |ls|
  {
    if ls != [] {
      JoinedGrows(AddLabel(sb, ls[0]), ls[1..]);
    }
  }

  lemma EncLabelsCons(b: bytes, off: nat, ls: seq<bytes>)
    requires ls != [] && LabelOK(ls[0]) && Holds(b, off, EncLabels(ls))
    ensures off < |b| && b[off] as int == |ls[0]| && off + 1 + |ls[0]| <= |b|
    ensures b[off + 1..off + 1 + |ls[0]|] == ls[0] && Holds(b, off + 1 + |ls[0]|, EncLabels(ls[1..]))
    ensures |EncLabels(ls)| == 1 + |ls[0]| + |EncLabels(ls[1..])|
  {
    hide Holds;
    var h: bytes := [|ls[0]| % 256];
    assert EncLabels(ls) == h + ls[0] + EncLabels(ls[1..]);
    HoldsAppend(b, off, h + ls[0], EncLabels(ls[1..]));
    HoldsAppend(b, off, h, ls[0]);
    HoldsOne(b, off, |ls[0]|);
    HoldsSlice(b, off + 1, ls[0]);
  }

  lemma {:induction false} ReadEncoded(b: bytes, off: nat, hops: nat, sb: bytes, ls: seq<bytes>)
    requires AllOK(ls) && Holds(b, off, EncLabels(ls)) && |sb| <= 255
    ensures ReadFrom(b, off, hops, sb, None) ==
            if hops + |ls| <= 127 && |Joined(sb, ls)| <= 255 then Name(Lower(Joined(sb, ls)), off + |EncLabels(ls)|)
              else BadName
    decreases |ls|
  {
    if ls == [] {
      HoldsOne(b, off, 0);
    } else {
      EncLabelsCons(b, off, ls);
      JoinedGrows(AddLabel(sb, ls[0]), ls[1..]);
      if hops <= 127 && |AddLabel(sb, ls[0])| <= 255 {
        ReadEncoded(b, off + 1 + |ls[0]|, hops + 1, AddLabel(sb, ls[0]), ls[1..]);
      }
    }
  }

  // ----- Splitting and joining -----

  lemma {:induction false} JoinedPrefix(sb: bytes, ls: seq<bytes>)
    requires AllOK(ls) && ls != [] && sb != []
    ensures Joined(sb, ls) == sb + [DOT] + Joined([], ls)
    decreases |ls|
  {
    if |ls| == 1 {
      assert ls[1..] == [];
    } else {
      var t := ls[1..];
      JoinedPrefix(sb + [DOT] + ls[0], t);
      JoinedPrefix(ls[0], t);
      assert sb + [DOT] + ls[0] + [DOT] + Joined([], t) == sb + [DOT] + (ls[0] + [DOT] + Joined([], t));
    }
  }

  lemma {:induction false} JoinSplit(s: bytes)
    requires AllOK(Split(s))
    ensures Joined([], Split(s)) == s
    decreases |s|
  {
    var ls := Split(s);
    if s != [] {
      var rest := Split(s[1..]);
      assert LabelOK(ls[0]);
      SplitTail(s);
    }
  }

  /** Gluing the first character back onto the split of the rest. */
  lemma SplitTail(s: bytes)
    requires s != [] && s[0] != DOT && AllOK(Split(s))
    ensures Joined([], Split(s)) == s
    decreases |s|, 0
  {
    var rest := Split(s[1..]);
    var ls := Split(s);
    assert ls[0] == [s[0]] + rest[0] && ls[1..] == rest[1..];
    assert s == [s[0]] + s[1..];
    if rest[0] == [] {
      SplitEmptyHead(s[1..]);
      if |rest| > 1 {
        assert AllOK(rest[1..]) by { assert forall i :: 1 <= i < |ls| ==> ls[i] == rest[i]; }
        assert s[1..][1..] == s[2..];
        JoinSplit(s[2..]);
        assert [s[0]] + [] == [s[0]];
        AfterOneLabel(s, ls, rest);
      }
    } else {
      assert AllOK(rest) by {
        assert forall i :: 1 <= i < |ls| ==> ls[i] == rest[i];
        assert LabelOK(ls[0]);
      }
      JoinSplit(s[1..]);
      JoinedShift(s[0], rest);
    }
  }

  lemma AfterOneLabel(s: bytes, ls: seq<bytes>, rest: seq<bytes>)
    requires |s| >= 2 && s[1] == DOT && |rest| > 1 && AllOK(rest[1..]) && Joined([], rest[1..]) == s[2..]
    requires |ls| > 1 && ls[0] == [s[0]] && ls[1..] == rest[1..]
    ensures Joined([], ls) == s
  {
    JoinedPrefix([s[0]], rest[1..]);
    assert s == [s[0]] + [DOT] + s[2..];
  }

  lemma SplitEmptyHead(s: bytes)
    requires Split(s)[0] == []
    ensures if |Split(s)| > 1 then s != [] && s[0] == DOT && Split(s)[1..] == Split(s[1..]) else s == []
  {
  }

  lemma JoinedCons(lab: bytes, ls: seq<bytes>)
    ensures Joined([], [lab] + ls) == Joined(lab, ls)
  {
    assert ([lab] + ls)[1..] == ls;
  }

  lemma JoinedShift(c: byte, ls: seq<bytes>)
    requires AllOK(ls) && ls != []
    ensures Joined([], [[c] + ls[0]] + ls[1..]) == [c] + Joined([], ls)
  {
    var lab, t := ls[0], ls[1..];
    JoinedCons([c] + lab, t);
    JoinedCons(lab, t);
    assert ls == [lab] + t && AllOK(t) && lab != [];
    JoinedShiftTail(c, lab, t);
  }

  lemma JoinedShiftTail(c: byte, lab: bytes, t: seq<bytes>)
    requires AllOK(t) && lab != []
    ensures Joined([c] + lab, t) == [c] + Joined(lab, t)
  {
    if t != [] {
      JoinedPrefix(lab, t);
      JoinedPrefix([c] + lab, t);
      hide *;
      var j := Joined([], t);
      assert [c] + lab + [DOT] + j == [c] + (lab + [DOT] + j);
    }
  }

  predicate Encodable(name: bytes) { AllOK(Labels(name)) }

  /** Whether an encoded name can be read back. */
  predicate Readable(name: bytes) { |TrimDot(name)| <= 255 && |Labels(name)| <= 127 }

  /** Reading an encoded name, at any offset of any message, gives its lower-case form and the
      offset behind it, if the text has at most 255 octets and 127 labels; otherwise it fails. */
  lemma NameRoundTrip(b: bytes, off: nat, name: bytes)
    requires Encodable(name) && Holds(b, off, EncodeName(name))
    ensures NameOf(b, off) ==
            if Readable(name) then Name(Lower(TrimDot(name)), off + |EncodeName(name)|) else BadName
  {
    if TrimDot(name) != [] {
      JoinSplit(TrimDot(name));
    }
    ReadEncoded(b, off, 0, [], Labels(name));
  }
}
