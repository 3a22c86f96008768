/** Whole messages: what the builders write, the parsers read back. */
module DnsMessages {
  import opened Common
  import opened Bytes
  import opened DnsWire
  import opened DnsNames

  // ----- Reading fields out of a span -----

  lemma HoldsBe16(b: bytes, p: nat, n: nat)
    requires Holds(b, p, Be16(n))
    ensures p + 2 <= |b| && U16(b, p) == n % 0x1_0000
  {
    HoldsSlice(b, p, Be16(n));
    assert b[p..p + 2][0] == b[p] && b[p..p + 2][1] == b[p + 1];
  }

  lemma HoldsBe32(b: bytes, p: nat, n: nat)
    requires Holds(b, p, Be32(n))
    ensures p + 4 <= |b| && U32(b, p) == n % 0x1_0000_0000
  {
    HoldsSlice(b, p, Be32(n));
    var s := b[p..p + 4];
    assert s[0] == b[p] && s[1] == b[p + 1] && s[2] == b[p + 2] && s[3] == b[p + 3];
  }

  lemma HoldsHeader(b: bytes, id: nat, flags: nat, qd: nat, an: nat, ns: nat, ar: nat)
    requires Holds(b, 0, Header(id, flags, qd, an, ns, ar))
    ensures |b| >= 12 && U16(b, 0) == id % 0x1_0000 && U16(b, 2) == flags % 0x1_0000 && U16(b, 4) == qd % 0x1_0000
    ensures U16(b, 6) == an % 0x1_0000 && U16(b, 8) == ns % 0x1_0000 && U16(b, 10) == ar % 0x1_0000
  {
    hide Holds, Be16, U16;
    HoldsAppend(b, 8, Be16(ns), Be16(ar));
    HoldsAppend(b, 6, Be16(an), Be16(ns) + Be16(ar));
    HoldsAppend(b, 4, Be16(qd), Be16(an) + (Be16(ns) + Be16(ar)));
    HoldsAppend(b, 2, Be16(flags), Be16(qd) + (Be16(an) + (Be16(ns) + Be16(ar))));
    HoldsAppend(b, 0, Be16(id), Be16(flags) + (Be16(qd) + (Be16(an) + (Be16(ns) + Be16(ar)))));
    HoldsBe16(b, 0, id);
    HoldsBe16(b, 2, flags);
    HoldsBe16(b, 4, qd);
    HoldsBe16(b, 6, an);
    HoldsBe16(b, 8, ns);
    HoldsBe16(b, 10, ar);
  }

  lemma HoldsQuestion(b: bytes, wire: bytes, qtype: nat, qclass: nat)
    requires Holds(b, 12, wire + (Be16(qtype) + Be16(qclass)))
    ensures Holds(b, 12, wire)
    ensures var p := 12 + |wire|; p + 4 <= |b| && U16(b, p) == qtype % 0x1_0000 && U16(b, p + 2) == qclass % 0x1_0000
  {
    hide Holds, Be16, U16;
    var p := 12 + |wire|;
    HoldsAppend(b, 12, wire, Be16(qtype) + Be16(qclass));
    HoldsAppend(b, p, Be16(qtype), Be16(qclass));
    HoldsBe16(b, p, qtype);
    HoldsBe16(b, p + 2, qclass);
  }

  /** An OPT record at `p` as the scan of additional records sees it. */
  lemma HoldsOpt(b: bytes, p: nat, size: nat, wantDO: bool)
    requires Holds(b, p, OptRecord(size, wantDO))
    ensures p + 11 <= |b| && b[p] == 0 && U16(b, p + 1) == TYPE_OPT && U16(b, p + 3) == size % 0x1_0000
    ensures Bit(U16(b, p + 7), 15) == (if wantDO then 1 else 0) && U16(b, p + 9) == 0
  {
    hide Holds, Be16, Be32;
    var fl := if wantDO then 0x8000 else 0;
    HoldsOne(b, p, 0);
    HoldsAppend(b, p, [0], Be16(TYPE_OPT) + (Be16(size) + (Be32(fl) + Be16(0))));
    HoldsAppend(b, p + 1, Be16(TYPE_OPT), Be16(size) + (Be32(fl) + Be16(0)));
    HoldsAppend(b, p + 3, Be16(size), Be32(fl) + Be16(0));
    HoldsAppend(b, p + 5, Be32(fl), Be16(0));
    HoldsBe16(b, p + 1, TYPE_OPT);
    HoldsBe16(b, p + 3, size);
    HoldsBe32(b, p + 5, fl);
    HoldsBe16(b, p + 9, 0);
    assert U16(b, p + 7) == U32(b, p + 5) % 0x1_0000 == fl;
    TopBit();
  }

  // ----- Queries -----

  lemma SkipRoot(b: bytes, p: nat)
    requires p < |b| && b[p] == 0
    ensures Skip(b, p) == Some(p + 1)
  {
  }

  /** The question of a message that starts with a header and a name that reads as `r`. */
  lemma QuestionOf(b: bytes, id: nat, flags: nat, an: nat, ns: nat, ar: nat, wire: bytes, r: NameAt, qtype: nat)
    requires Holds(b, 0, Header(id, flags, 1, an, ns, ar)) && Holds(b, 12, wire + (Be16(qtype) + Be16(1)))
    requires r == NameOf(b, 12) && (r.Name? ==> r.next == 12 + |wire|)
    ensures Question(b) ==
            if r.BadName? then BadQuery else
              Parsed(Query(id % 0x1_0000, flags % 0x1_0000, r.text, qtype % 0x1_0000, 1, 16 + |wire|, false, 512, false,
                0))
  {
    hide Holds, Header, Be16, NameOf, U16;
    HoldsHeader(b, id, flags, 1, an, ns, ar);
    HoldsQuestion(b, wire, qtype, 1);
  }

  lemma ScanOneOpt(b: bytes, p: nat, size: nat, wantDO: bool, q: Query)
    requires Holds(b, p, OptRecord(size, wantDO))
    ensures ScanOPT(b, p, 0, 1, 0, q) == q.(hasOPT := true, udpSize := Clamp(size % 0x1_0000), wantDO := wantDO,
            optLen := 0)
  {
    HoldsOpt(b, p, size, wantDO);
    SkipRoot(b, p);
    hide Holds, OptRecord, Skip, Bit, U16;
  }

  /** The parts of a built query. */
  lemma BuiltParts(id: nat, name: bytes, qtype: nat, edns: int, wantDO: bool, b: bytes)
    requires b == BuildQuery(id, name, qtype, edns, wantDO)
    ensures Holds(b, 0, Header(id, 0x0100, 1, 0, 0, if edns > 0 then 1 else 0))
    ensures Holds(b, 12, EncodeName(name) + (Be16(qtype) + Be16(1)))
    ensures edns > 0 ==> Holds(b, 16 + |EncodeName(name)|, OptRecord(edns, wantDO))
  {
    hide Holds, Header, OptRecord, EncodeName, Be16;
    var h := Header(id, 0x0100, 1, 0, 0, if edns > 0 then 1 else 0);
    var n := EncodeName(name) + (Be16(qtype) + Be16(1));
    var o := if edns > 0 then OptRecord(edns, wantDO) else [];
    HoldsWhole(b, h + (n + o));
    HoldsAppend(b, 0, h, n + o);
    HoldsAppend(b, 12, n, o);
  }

  /** Parsing a built query gives its fields back: the name in lower case without its final dot,
      and the advertised size, of which the record keeps 16 bits, clamped to 512..4096. */
  lemma QueryRoundTrip(id: nat, name: bytes, qtype: nat, edns: int, wantDO: bool)
    requires Encodable(name)
    ensures ParseQuery(BuildQuery(id, name, qtype, edns, wantDO)) ==
            if !Readable(name) then BadQuery else
              Parsed(Query(id % 0x1_0000, 0x0100, Lower(TrimDot(name)), qtype % 0x1_0000, 1, 16 + |EncodeName(name)|,
                           edns > 0, if edns > 0 then Clamp(edns % 0x1_0000) else 512, edns > 0 && wantDO, 0))
  {
    var b := BuildQuery(id, name, qtype, edns, wantDO);
    hide BuildQuery, Holds, Header, OptRecord, EncodeName, Be16, U16, Lower, TrimDot, Readable, Encodable, Question,
      NameOf, Clamp;
    BuiltParts(id, name, qtype, edns, wantDO, b);
    HoldsQuestion(b, EncodeName(name), qtype, 1);
    NameRoundTrip(b, 12, name);
    QuestionOf(b, id, 0x0100, 0, 0, if edns > 0 then 1 else 0, EncodeName(name), NameOf(b, 12), qtype);
    HoldsHeader(b, id, 0x0100, 1, 0, 0, if edns > 0 then 1 else 0);
    if Readable(name) && edns > 0 {
      ScanOneOpt(b, 16 + |EncodeName(name)|, edns, wantDO, Question(b).q);
    }
  }

  // ----- Replies -----

  /** The flags of a reply: QR and RA set, opcode, RD and CD as in the query, the code, no other. */
  lemma ReplyFlagBits(flags: nat, rcode: nat, k: nat)
    ensures ReplyFlags(flags, rcode) < 0x1_0000 && ReplyFlags(flags, rcode) % 16 == rcode % 16
    ensures 4 <= k < 16 ==> Bit(ReplyFlags(flags, rcode), k) ==
                            if k == 15 || k == 7 then 1 else if k == 4 || k == 8 || 11 <= k < 15 then Bit(flags, k)
                              else 0
  {
    hide Bit, SetBit;
    var a := SetFlag(rcode % 16, 4, Bit(flags, 4), k);
    var b := SetFlag(a, 7, 1, k);
    var c := SetFlag(b, 8, Bit(flags, 8), k);
    var d := SetFlag(c, 11, Bit(flags, 11), k);
    var e := SetFlag(d, 12, Bit(flags, 12), k);
    var f := SetFlag(e, 13, Bit(flags, 13), k);
    var g := SetFlag(f, 14, Bit(flags, 14), k);
    var h := SetFlag(g, 15, 1, k);
    assert h == ReplyFlags(flags, rcode);
    if k >= 4 {
      BitsOfNibble(rcode % 16, k);
    }
  }

  lemma SetFlag(n: nat, k: nat, v: nat, j: nat) returns (m: nat)
    requires n < 0x1_0000 && 4 <= k < 16 && v <= 1
    ensures m == SetBit(n, k, v) && m < 0x1_0000 && m % 16 == n % 16 && Bit(m, j) == if j == k then v else Bit(n, j)
  {
    m := SetBit(n, k, v);
    SetBitOnly(n, k, v, j);
    SetBitBelow(n, k, v);
    SetBitNibble(n, k, v);
  }

  lemma Be16Back(b: bytes, i: nat)
    requires i + 2 <= |b|
    ensures Be16(U16(b, i)) == b[i..i + 2]
  {
  }

  /** A reply header is a plain header before the octets of the question. */
  lemma ReplyHeaderIs(query: bytes, q: Query, rcode: nat, an: nat)
    requires Fits(query, q) && q.id == U16(query, 0)
    ensures ReplyHeader(query, q, rcode, an) == Header(q.id, ReplyFlags(q.flags, rcode), 1, an, 0, 0) +
            query[12..q.qend]
  {
    Be16Back(query, 0);
    hide Be16, U16, ReplyFlags;
  }

  /** A header up to its last count. */
  function Head(id: nat, flags: nat, an: nat): (r: bytes)
    ensures |r| == 10
  {
    Be16(id) + (Be16(flags) + (Be16(1) + (Be16(an) + Be16(0))))
  }

  lemma HeaderEnd(id: nat, flags: nat, an: nat, ar: nat)
    ensures Header(id, flags, 1, an, 0, ar) == Head(id, flags, an) + Be16(ar)
  {
    hide Be16;
  }

  lemma AppendOptIs(id: nat, flags: nat, an: nat, rest: bytes, q: Query, out: bytes)
    requires out == Header(id, flags, 1, an, 0, 0) + rest
    ensures AppendOPT(out, q) ==
            Header(id, flags, 1, an, 0, if q.hasOPT then 1 else 0) +
              (rest + if q.hasOPT then OptRecord(1232, q.wantDO) else [])
  {
    hide OptRecord, Holds, Head, Header, Be16, U16;
    HeaderEnd(id, flags, an, 0);
    HeaderEnd(id, flags, an, 1);
    HoldsWhole(out, out);
    HoldsAppend(out, 0, Header(id, flags, 1, an, 0, 0), rest);
    HoldsHeader(out, id, flags, 1, an, 0, 0);
    var h, opt := Head(id, flags, an), OptRecord(1232, q.wantDO);
    assert out[..10] == h && out[12..] == rest;
    assert h + Be16(1) + rest + opt == h + Be16(1) + (rest + opt);
  }

  /** The address record of a block reply, its owner a pointer to the question. */
  function ZeroRecord(qtype: nat, rd: nat): (r: bytes)
    ensures |r| == 12 + rd
  {
    [0xC0, 0x0C] + (Be16(qtype) + (Be16(1) + (Be32(BLOCK_TTL) + (Be16(rd) + Zeros(rd)))))
  }

  lemma HoldsZeroRecord(b: bytes, p: nat, qtype: nat, rd: nat)
    requires Holds(b, p, ZeroRecord(qtype, rd)) && qtype < 0x1_0000 && rd < 0x1_0000
    ensures p + 12 + rd <= |b| && U16(b, p) == 0xC00C && b[p] == 192 && U16(b, p + 2) == qtype
    ensures U32(b, p + 6) == BLOCK_TTL && U16(b, p + 10) == rd && b[p + 12..p + 12 + rd] == Zeros(rd)
  {
    hide Be16, Be32, U16, U32, Holds, Zeros;
    var z := Zeros(rd);
    HoldsAppend(b, p, [0xC0, 0x0C], Be16(qtype) + (Be16(1) + (Be32(BLOCK_TTL) + (Be16(rd) + z))));
    HoldsAppend(b, p + 2, Be16(qtype), Be16(1) + (Be32(BLOCK_TTL) + (Be16(rd) + z)));
    HoldsAppend(b, p + 4, Be16(1), Be32(BLOCK_TTL) + (Be16(rd) + z));
    HoldsAppend(b, p + 6, Be32(BLOCK_TTL), Be16(rd) + z);
    HoldsAppend(b, p + 10, Be16(rd), z);
    HoldsPointer(b, p);
    HoldsBe16(b, p + 2, qtype);
    HoldsBe32(b, p + 6, BLOCK_TTL);
    HoldsBe16(b, p + 10, rd);
    HoldsSlice(b, p + 12, z);
  }

  lemma HoldsPointer(b: bytes, p: nat)
    requires Holds(b, p, [0xC0, 0x0C])
    ensures p + 2 <= |b| && U16(b, p) == 0xC00C && b[p] == 192
  {
    HoldsSlice(b, p, [0xC0, 0x0C]);
    var s := b[p..p + 2];
    assert s[0] == b[p] && s[1] == b[p + 1];
  }

  /** Where a name ends does not change what it says. */
  lemma {:induction false} TextWithoutNext(b: bytes, off: nat, hops: nat, sb: bytes, m: Option<nat>, n: Option<nat>)
    ensures var r, s := ReadFrom(b, off, hops, sb, m), ReadFrom(b, off, hops, sb, n);
      r.Name? == s.Name? && (r.Name? ==> r.text == s.text)
    decreases 128 - hops
  {
    hide Lower, AddLabel, U16;
    if hops <= 127 && off < |b| && b[off] != 0 {
      if b[off] >= 192 && off + 1 < |b| && U16(b, off) % 0x4000 < off {
        TextWithoutNext(b, U16(b, off) % 0x4000, hops + 1, sb, Some(m.GetOr(off + 2)), Some(n.GetOr(off + 2)));
      } else if b[off] < 64 && off + 1 + b[off] as int <= |b| {
        TextWithoutNext(b, off + 1 + b[off] as int, hops + 1, AddLabel(sb, b[off + 1..off + 1 + b[off] as int]), m, n);
      }
    }
  }

  lemma FollowPointer(b: bytes, p: nat)
    requires 12 < p && p + 2 <= |b| && U16(b, p) == 0xC00C && b[p] == 192
    ensures NameOf(b, p) == ReadFrom(b, 12, 1, [], Some(p + 2))
  {
    hide U16, AddLabel, Lower;
    PointerStep(b, p, 0, [], None, 12);
  }

  lemma PointerStep(b: bytes, off: nat, hops: nat, sb: bytes, next: Option<nat>, t: nat)
    requires hops <= 127 && off + 2 <= |b| && b[off] >= 192 && t == U16(b, off) % 0x4000 && t < off
    ensures ReadFrom(b, off, hops, sb, next) == ReadFrom(b, t, hops + 1, sb, Some(next.GetOr(off + 2)))
  {
    hide U16, AddLabel, Lower;
  }

  /** A pointer to the question name costs one step more than reading it in place. */
  lemma NameByPointer(b: bytes, p: nat, ls: seq<bytes>)
    requires AllOK(ls) && Holds(b, 12, EncLabels(ls)) && 12 < p && p + 2 <= |b| && U16(b, p) == 0xC00C && b[p] == 192
    ensures NameOf(b, p) == if |ls| <= 126 && |Joined([], ls)| <= 255 then Name(Lower(Joined([], ls)), p + 2)
            else BadName
  {
    hide Lower, Joined, EncLabels, Holds, AllOK, ReadFrom, U16;
    FollowPointer(b, p);
    ReadEncoded(b, 12, 1, [], ls);
    TextWithoutNext(b, 12, 1, [], None, Some(p + 2));
    NextIsKept(b, 12, 1, [], p + 2);
  }

  function Single(q: Query, flags: nat, rd: nat): Info {
    Info(q.id, flags, flags % 16, q.(flags := flags, udpSize := 512, wantDO := false, optLen := 0),
         [RR(q.qname, q.qtype, BLOCK_TTL, Addr(Zeros(rd)))], 1, [q.qend + 6], BLOCK_TTL, true, 0, false)
  }

  lemma NoteZeroRecord(b: bytes, owner: bytes, np: nat, qtype: nat, rd: nat, m: Info)
    requires RecordOK(b, np) && U16(b, np) == qtype && U16(b, np + 8) == rd && U32(b, np + 4) == BLOCK_TTL
    requires (qtype == TYPE_A && rd == 4) || (qtype == TYPE_AAAA && rd == 16)
    requires b[np + 10..np + 10 + rd] == Zeros(rd)
    requires m.answers == [] && m.ttlOffsets == [] && !m.haveTTL
    ensures NoteRecord(b, owner, np, 0, 1, 0, m) ==
            m.(answers := [RR(owner, qtype, BLOCK_TTL, Addr(Zeros(rd)))], ttlOffsets := [np + 4], minTTL := BLOCK_TTL,
              haveTTL := true)
  {
    hide U16, U32, Zeros, NameOf;
  }

  lemma ScanStep(b: bytes, p: nat, i: nat, n: nat, an: nat, ns: nat, m: Info, o: NameAt)
    requires i < n && o == NameOf(b, p)
    ensures ScanRecords(b, p, i, n, an, ns, m) ==
            if o.BadName? || !RecordOK(b, o.next) then BadResponse
            else ScanRecords(b, o.next + 10 + U16(b, o.next + 8), i + 1, n, an, ns,
              NoteRecord(b, o.text, o.next, i, an, ns, m))
  {
    hide NoteRecord, NameOf, RecordOK, U16;
  }

  lemma ScanZeroRecord(b: bytes, q: Query, ls: seq<bytes>, rd: nat, n: nat, m: Info)
    requires AllOK(ls) && Holds(b, 12, EncLabels(ls)) && 12 < q.qend && q.qname == Lower(Joined([], ls))
            && |Joined([], ls)| <= 255
    requires Holds(b, q.qend, ZeroRecord(q.qtype, rd)) && q.qtype < 0x1_0000 && n > 0
    requires (q.qtype == TYPE_A && rd == 4) || (q.qtype == TYPE_AAAA && rd == 16)
    requires m.answers == [] && m.ttlOffsets == [] && !m.haveTTL
    ensures ScanRecords(b, q.qend, 0, n, 1, 0, m) ==
      if |ls| > 126 then BadResponse
      else ScanRecords(b, q.qend + 12 + rd, 1, n, 1, 0,
        m.(answers := [RR(q.qname, q.qtype, BLOCK_TTL, Addr(Zeros(rd)))], ttlOffsets := [q.qend + 6],
          minTTL := BLOCK_TTL, haveTTL := true))
  {
    hide Holds, ZeroRecord, Zeros, Lower, Joined, EncLabels, U16, U32, AllOK, NameOf, ScanRecords, NoteRecord;
    HoldsZeroRecord(b, q.qend, q.qtype, rd);
    NameByPointer(b, q.qend, ls);
    ScanStep(b, q.qend, 0, n, 1, 0, m, NameOf(b, q.qend));
    if |ls| <= 126 {
      NoteZeroRecord(b, q.qname, q.qend + 2, q.qtype, rd, m);
    }
  }

  lemma ScanOwnOpt(b: bytes, p: nat, m: Info, q: Query)
    requires Holds(b, p, OptRecord(1232, q.wantDO))
    ensures ScanRecords(b, p, 1, 2, 1, 0, m) == Good(m.(q := m.q.(hasOPT := true)))
  {
    HoldsOpt(b, p, 1232, q.wantDO);
    assert NameOf(b, p) == Name([], p + 1);
    hide Holds, OptRecord, NameOf, U16, U32;
  }

  /** What a scan for OPT records leaves alone, and the size it can leave behind. */
  lemma {:induction false} ScanKeeps(b: bytes, p: nat, i: nat, n: nat, additional: nat, q: Query)
    requires 512 <= q.udpSize <= 4096
    ensures var r := ScanOPT(b, p, i, n, additional, q);
      && 512 <= r.udpSize <= 4096
      && r == q.(hasOPT := r.hasOPT, udpSize := r.udpSize, wantDO := r.wantDO, optLen := r.optLen)
    decreases n - i
  {
    hide Skip, Bit, U16;
    if i < n {
      var np := Skip(b, p);
      if np.Some? && RecordOK(b, np.value) {
        var m, rdl := np.value, U16(b, np.value + 8);
        var q' := if i >= additional && U16(b, m) == TYPE_OPT
                  then q.(hasOPT := true, udpSize := Clamp(U16(b, m + 2)), wantDO := Bit(U16(b, m + 6), 15) == 1,
                    optLen := rdl)
                  else q;
        ScanKeeps(b, m + 10 + rdl, i + 1, n, additional, q');
      }
    }
  }

  /** What every parsed query satisfies. */
  lemma ParsedQuery(b: bytes)
    ensures var r := ParseQuery(b);
      && (r.Parsed? <==> Question(b).Parsed?)
      && (r.Parsed? ==>
          && 512 <= r.q.udpSize <= 4096 && Fits(b, r.q) && r.q.id == U16(b, 0) && r.q.flags == U16(b, 2)
          && var n := NameOf(b, 12);
            n.Name? && r.q.qname == n.text && r.q.qend == n.next + 4 && 12 < n.next
            && r.q.qtype == U16(b, n.next) && r.q.qclass == U16(b, n.next + 2))
  {
    hide NameOf, U16, Skip, ScanOPT;
    var r := Question(b);
    SkipStopsWhereReadStops(b, 12);
    if r.Parsed? && Counts(b) <= MAX_RECORDS {
      ScanKeeps(b, r.q.qend, 0, Counts(b), U16(b, 6) + U16(b, 8), r.q);
    }
  }

  /** An uncompressed question and the octets it takes. */
  lemma WrittenOut(query: bytes, q: Query, ls: seq<bytes>)
    requires ParseQuery(query) == Parsed(q) && AllOK(ls) && Holds(query, 12, EncLabels(ls))
    ensures q.qend == 16 + |EncLabels(ls)| && q.qname == Lower(Joined([], ls)) && |Joined([], ls)| <= 255 && |ls| <= 127
    ensures Fits(query, q) && query[12..q.qend] == EncLabels(ls) + (Be16(q.qtype) + Be16(q.qclass))
    ensures q.id == U16(query, 0) && q.qtype < 0x1_0000
  {
    hide ParseQuery, Holds, U16, Be16, EncLabels, Joined, Lower, AllOK, NameOf;
    ParsedQuery(query);
    ReadWhole(query, ls);
    var e, w := 12 + |EncLabels(ls)|, EncLabels(ls);
    HoldsSlice(query, 12, w);
    Be16Back(query, e);
    Be16Back(query, e + 2);
    assert query[12..e + 4] == query[12..e] + (query[e..e + 2] + query[e + 2..e + 4]);
  }

  lemma ReadWhole(b: bytes, ls: seq<bytes>)
    requires AllOK(ls) && Holds(b, 12, EncLabels(ls))
    ensures NameOf(b, 12) ==
            if |ls| <= 127 && |Joined([], ls)| <= 255 then Name(Lower(Joined([], ls)), 12 + |EncLabels(ls)|)
              else BadName
  {
    ReadEncoded(b, 12, 0, [], ls);
  }

  lemma Regroup(x: bytes, y: bytes, z: bytes)
    ensures x + y + z == x + (y + z)
  {
  }

  lemma BlockIs(query: bytes, q: Query, rd: nat, out: bytes)
    requires Fits(query, q) && q.qclass == 1
    requires (q.qtype == TYPE_A && rd == 4) || (q.qtype == TYPE_AAAA && rd == 16)
    requires out == ReplyHeader(query, q, RCODE_NOERROR, 1) + ZeroRecord(q.qtype, rd)
    ensures BlockReply(query, q, true) == AppendOPT(out, q)
  {
    hide ReplyHeader, Be16, Be32, Zeros, AppendOPT;
  }

  /** A zero-mode block reply: header, question, address record and perhaps an OPT record. */
  lemma BlockParts(query: bytes, q: Query, rd: nat, b: bytes, w: bytes)
    requires Fits(query, q) && q.id == U16(query, 0) && q.qclass == 1 && w == query[12..q.qend]
    requires (q.qtype == TYPE_A && rd == 4) || (q.qtype == TYPE_AAAA && rd == 16)
    requires b == BlockReply(query, q, true)
    ensures Holds(b, 0, Header(q.id, ReplyFlags(q.flags, 0), 1, 1, 0, if q.hasOPT then 1 else 0)) && Holds(b, 12, w)
    ensures Holds(b, q.qend, ZeroRecord(q.qtype, rd))
    ensures q.hasOPT ==> Holds(b, q.qend + 12 + rd, OptRecord(1232, q.wantDO))
  {
    var z, opt := ZeroRecord(q.qtype, rd), if q.hasOPT then OptRecord(1232, q.wantDO) else [];
    var f := ReplyFlags(q.flags, 0);
    var out := ReplyHeader(query, q, RCODE_NOERROR, 1) + z;
    BlockIs(query, q, rd, out);
    hide Holds, U16, Be16, OptRecord, ZeroRecord, Header, ReplyFlags, AppendOPT, BlockReply, ReplyHeader;
    var h := Header(q.id, f, 1, 1, 0, if q.hasOPT then 1 else 0);
    ReplyHeaderIs(query, q, RCODE_NOERROR, 1);
    Regroup(Header(q.id, f, 1, 1, 0, 0), w, z);
    AppendOptIs(q.id, f, 1, w + z, q, out);
    Regroup(w, z, opt);
    HoldsWhole(b, b);
    HoldsAppend(b, 0, h, w + (z + opt));
    HoldsAppend(b, 12, w, z + opt);
    HoldsAppend(b, q.qend, z, opt);
  }

  /** Parsing the zero-mode block reply to an uncompressed A or AAAA question of class IN gives
      the same ID and question and exactly one address, all zero, to live for 60 seconds; with
      127 labels the pointer is one step too many and the reply does not parse. */
  lemma BlockReplyRoundTrip(query: bytes, q: Query, ls: seq<bytes>)
    requires ParseQuery(query) == Parsed(q) && q.qclass == 1 && q.qtype in {TYPE_A, TYPE_AAAA}
    requires AllOK(ls) && Holds(query, 12, EncLabels(ls))
    ensures Fits(query, q)
    ensures ParseResponse(BlockReply(query, q, true)) ==
            if |ls| > 126 then BadResponse
            else Good(Single(q, ReplyFlags(q.flags, 0), if q.qtype == TYPE_A then 4 else 16))
  {
    WrittenOut(query, q, ls);
    var b := BlockReply(query, q, true);
    var rd := if q.qtype == TYPE_A then 4 else 16;
    BlockParts(query, q, rd, b, query[12..q.qend]);
    BlockReads(query, q, ls, rd, b, ReplyFlags(q.flags, 0), EncLabels(ls));
  }

  lemma BlockReads(query: bytes, q: Query, ls: seq<bytes>, rd: nat, b: bytes, f: nat, w: bytes)
    requires (q.qtype == TYPE_A && rd == 4) || (q.qtype == TYPE_AAAA && rd == 16)
    requires AllOK(ls) && w == EncLabels(ls) && Holds(b, 12, w + (Be16(q.qtype) + Be16(1))) && q.qend == 16 + |w|
    requires q.qname == Lower(Joined([], ls)) && |Joined([], ls)| <= 255 && |ls| <= 127 && q.id < 0x1_0000
            && q.qclass == 1
    requires f == ReplyFlags(q.flags, 0)
    requires Holds(b, 0, Header(q.id, f, 1, 1, 0, if q.hasOPT then 1 else 0))
            && Holds(b, q.qend, ZeroRecord(q.qtype, rd))
    requires q.hasOPT ==> Holds(b, q.qend + 12 + rd, OptRecord(1232, q.wantDO))
    ensures ParseResponse(b) == if |ls| > 126 then BadResponse else Good(Single(q, f, rd))
  {
    hide *;
    ReplyFlagBits(q.flags, 0, 0);
    var ar := if q.hasOPT then 1 else 0;
    Types();
    var m := BlockQuestion(b, q, ls, f, w, ar);
    HoldsHead(b, w, q.qtype);
    SingleIs(q, f, rd, m);
    ScanBlock(b, q, ls, rd, ar, m);
  }

  lemma Types()
    ensures TYPE_A == 1 && TYPE_AAAA == 28
  {
  }

  lemma HoldsHead(b: bytes, w: bytes, qtype: nat)
    requires Holds(b, 12, w + (Be16(qtype) + Be16(1)))
    ensures Holds(b, 12, w)
  {
    HoldsQuestion(b, w, qtype, 1);
  }

  lemma SingleIs(q: Query, f: nat, rd: nat, m: Info)
    requires m == EmptyInfo(Query(q.id, f, q.qname, q.qtype, 1, q.qend, false, 512, false, 0), 1) && q.qclass == 1
            && f % 16 == 0
    ensures m.answers == [] && m.ttlOffsets == [] && !m.haveTTL && !m.q.hasOPT
    ensures Single(q, f, rd) ==
      m.(q := m.q.(hasOPT := q.hasOPT), answers := [RR(q.qname, q.qtype, BLOCK_TTL, Addr(Zeros(rd)))],
         ttlOffsets := [q.qend + 6], minTTL := BLOCK_TTL, haveTTL := true)
  {
    hide Zeros;
  }

  lemma BlockQuestion(b: bytes, q: Query, ls: seq<bytes>, f: nat, w: bytes, ar: nat) returns (m: Info)
    requires AllOK(ls) && w == EncLabels(ls) && Holds(b, 12, w + (Be16(q.qtype) + Be16(1))) && q.qend == 16 + |w|
    requires q.qname == Lower(Joined([], ls)) && |Joined([], ls)| <= 255 && |ls| <= 127
    requires q.id < 0x1_0000 && q.qtype < 0x1_0000 && f < 0x1_0000 && ar <= 1
    requires Holds(b, 0, Header(q.id, f, 1, 1, 0, ar))
    ensures m == EmptyInfo(Query(q.id, f, q.qname, q.qtype, 1, q.qend, false, 512, false, 0), 1)
    ensures ParseResponse(b) == ScanRecords(b, q.qend, 0, 1 + ar, 1, 0, m)
  {
    hide Holds, U16, U32, Be16, Header, EncLabels, Joined, Lower, AllOK, Question, NameOf, ScanRecords, ParseResponse,
      EmptyInfo;
    HoldsQuestion(b, w, q.qtype, 1);
    ReadWhole(b, ls);
    QuestionOf(b, q.id, f, 1, 0, ar, w, NameOf(b, 12), q.qtype);
    HoldsHeader(b, q.id, f, 1, 1, 0, ar);
    m := EmptyInfo(Question(b).q, 1);
    ResponseIs(b, q.qend, 1, 0, ar, m);
  }

  lemma ScanBlock(b: bytes, q: Query, ls: seq<bytes>, rd: nat, ar: nat, m: Info)
    requires (q.qtype == TYPE_A && rd == 4) || (q.qtype == TYPE_AAAA && rd == 16)
    requires AllOK(ls) && Holds(b, 12, EncLabels(ls)) && 12 < q.qend
    requires q.qname == Lower(Joined([], ls)) && |Joined([], ls)| <= 255
    requires Holds(b, q.qend, ZeroRecord(q.qtype, rd)) && ar == if q.hasOPT then 1 else 0
    requires q.hasOPT ==> Holds(b, q.qend + 12 + rd, OptRecord(1232, q.wantDO))
    requires m.answers == [] && m.ttlOffsets == [] && !m.haveTTL && !m.q.hasOPT && q.qtype < 0x1_0000
    ensures ScanRecords(b, q.qend, 0, 1 + ar, 1, 0, m) == if |ls| > 126 then BadResponse else
      Good(m.(q := m.q.(hasOPT := q.hasOPT), answers := [RR(q.qname, q.qtype, BLOCK_TTL, Addr(Zeros(rd)))],
              ttlOffsets := [q.qend + 6], minTTL := BLOCK_TTL, haveTTL := true))
  {
    hide Holds, U16, U32, Be16, OptRecord, ZeroRecord, EncLabels, Joined, Lower, AllOK, NameOf, Zeros, Bit, ScanRecords;
    ScanZeroRecord(b, q, ls, rd, 1 + ar, m);
    if |ls| <= 126 {
      var m1 := m.(answers := [RR(q.qname, q.qtype, BLOCK_TTL, Addr(Zeros(rd)))], ttlOffsets := [q.qend + 6],
        minTTL := BLOCK_TTL, haveTTL := true);
      if q.hasOPT {
        ScanOwnOpt(b, q.qend + 12 + rd, m1, q);
      } else {
        ScanDone(b, q.qend + 12 + rd, 1, 1, 0, m1);
      }
    }
  }

  lemma ResponseIs(b: bytes, qend: nat, an: nat, ns: nat, ar: nat, m: Info)
    requires Question(b).Parsed? && U16(b, 6) == an && U16(b, 8) == ns && U16(b, 10) == ar
            && an + ns + ar <= MAX_RECORDS
    requires m == EmptyInfo(Question(b).q, an) && qend == Question(b).q.qend
    ensures ParseResponse(b) == ScanRecords(b, qend, 0, an + ns + ar, an, ns, m)
  {
    hide Question, ScanRecords, U16;
  }

  lemma ScanDone(b: bytes, p: nat, n: nat, an: nat, ns: nat, m: Info)
    ensures ScanRecords(b, p, n, n, an, ns, m) == Good(m)
  {
  }
}
