/** Which questions share an answer: those whose names have the same text (dns_forwarder.go:625-637). */
module DnsTwins {
  import opened Common
  import opened Bytes
  import opened DnsWire
  import opened DnsNames
  import opened DnsLabels
  import opened DnsMessages
  import opened DnsCache
  import opened DnsCaching
  import opened DnsHandle
  import opened DnsRuns

  lemma TextOf(b: bytes)
    ensures var r := NameOf(b, 12); r.Name? ==> r.text == Lower(Joined([], LabelsAt(b, 12)))
  {
    TextIsJoined(b, 12, 0, [], None);
  }

  /** Two queries share a cache entry exactly when their names have the same text up to case, and
      type, class and the EDNS, DO and CD indications agree. Of the names with the text of a name
      without dots in its labels only the names without such dots are the same. */
  lemma KeysTellNames(x: bytes, p: Query, y: bytes, q: Query)
    requires ParseQuery(x) == Parsed(p) && ParseQuery(y) == Parsed(q)
    ensures CacheKey(p) == CacheKey(q) <==>
            && SameText(LabelsAt(x, 12), LabelsAt(y, 12)) && p.qtype == q.qtype && p.qclass == q.qclass
            && p.hasOPT == q.hasOPT && p.wantDO == q.wantDO && (Bit(p.flags, 4) == 1 <==> Bit(q.flags, 4) == 1)
    ensures Dotless(LabelsAt(x, 12)) && CacheKey(p) == CacheKey(q) ==>
              (SameName(LabelsAt(x, 12), LabelsAt(y, 12)) <==> Dotless(LabelsAt(y, 12)))
  {
    hide ParseQuery, CacheKey, NameOf, Lower, Joined, LabelsAt, SameText, SameName, Dotless, Bit;
    ParsedQuery(x);
    ParsedQuery(y);
    TextOf(x);
    TextOf(y);
    CacheKeyInjective(p, q);
    TextTells(LabelsAt(x, 12), LabelsAt(y, 12));
  }

  /** The question of an answer served from the cache has a name with the text of the name asked
      for; if no label asked for holds a dot, it is the name asked for exactly if no label of the
      stored question holds one. */
  lemma CachedNames(query: bytes, es: seq<Ent>, internal: bool, allowed: bool, blocked: bool, now: int,
                    upstream: Option<bytes>)
    requires AllMade(es) && AllAbout(es)
    requires Decide(query, es, internal, allowed, blocked, now, upstream).Cached?
    ensures var stored := LabelsAt(Decide(query, es, internal, allowed, blocked, now, upstream).e.msg, 12);
      && SameText(LabelsAt(query, 12), stored)
      && (Dotless(LabelsAt(query, 12)) ==> (SameName(LabelsAt(query, 12), stored) <==> Dotless(stored)))
  {
    var d := Decide(query, es, internal, allowed, blocked, now, upstream);
    hide ParseQuery, ParseResponse, CacheKey, NameOf, Lower, Joined, LabelsAt, SameText, SameName, Dotless,
      AllMade, AllAbout, Decide, NewEnt, Accepts, InMessage;
    DecisionOK(query, es, internal, allowed, blocked, now, upstream);
    CachedIsAbout(query, es, internal, allowed, blocked, now, upstream);
    ParsedQuery(query);
    InfoQuestion(d.e.msg, d.e.info);
    TextOf(query);
    TextOf(d.e.msg);
    TextTells(LabelsAt(query, 12), LabelsAt(d.e.msg, 12));
  }

  // ----- Any name with the same text is served -----

  /** A query for the addresses of a name, with recursion desired. */
  function AskFor(ls: seq<bytes>): bytes {
    Header(0, 0x0100, 1, 0, 0, 0) + (EncLabels(ls) + (Be16(TYPE_A) + Be16(1)))
  }

  function QueryFor(ls: seq<bytes>): Query {
    Query(0, 0x0100, Lower(Joined([], ls)), TYPE_A, 1, 16 + |EncLabels(ls)|, false, 512, false, 0)
  }

  predicate Askable(ls: seq<bytes>) { AllOK(ls) && |ls| <= 126 && |Joined([], ls)| <= 255 }

  lemma AskParts(ls: seq<bytes>)
    ensures Holds(AskFor(ls), 0, Header(0, 0x0100, 1, 0, 0, 0))
    ensures Holds(AskFor(ls), 12, EncLabels(ls) + (Be16(TYPE_A) + Be16(1)))
  {
    hide Holds, Header, EncLabels, Be16;
    var b, h, n := AskFor(ls), Header(0, 0x0100, 1, 0, 0, 0), EncLabels(ls) + (Be16(TYPE_A) + Be16(1));
    HoldsWhole(b, h + n);
    HoldsAppend(b, 0, h, n);
  }

  lemma AskParses(ls: seq<bytes>)
    requires AllOK(ls) && |ls| <= 127 && |Joined([], ls)| <= 255
    ensures ParseQuery(AskFor(ls)) == Parsed(QueryFor(ls)) && LabelsAt(AskFor(ls), 12) == ls
    ensures Holds(AskFor(ls), 12, EncLabels(ls))
  {
    hide AskFor, Holds, Header, EncLabels, Be16, U16, Lower, Joined, AllOK, Question, NameOf, LabelsFrom;
    var b := AskFor(ls);
    AskParts(ls);
    HoldsQuestion(b, EncLabels(ls), TYPE_A, 1);
    ReadWhole(b, ls);
    QuestionOf(b, 0, 0x0100, 0, 0, 0, EncLabels(ls), NameOf(b, 12), TYPE_A);
    HoldsHeader(b, 0, 0x0100, 1, 0, 0, 0);
    LabelsWritten(b, 12, 0, ls);
  }

  lemma FlagsOfQuery()
    ensures Bit(0x0100, 15) == 0 && Opcode(0x0100) == 0
  {
    Bit4(0x0100, 11);
    Bit4(16, 7);
    BitsOfNibble(1, 7);
  }

  /** The answer that upstream gives here: one address for the name. */
  function AnswerTo(ls: seq<bytes>): bytes
    requires Askable(ls)
  {
    AskParses(ls);
    BlockReply(AskFor(ls), QueryFor(ls), true)
  }

  lemma AnswerParses(ls: seq<bytes>) returns (m: Info)
    requires Askable(ls)
    ensures ParseResponse(AnswerTo(ls)) == Good(m) && SameQuestion(QueryFor(ls), m) && Bit(m.flags, 9) == 0
    ensures Accepts(AnswerTo(ls), m) && CacheTTL(m) == 60 && |AnswerTo(ls)| <= MAX_MSG
    ensures m.q.qend == 16 + |EncLabels(ls)| && |EncLabels(ls)| <= 258
  {
    AskParses(ls);
    var q := QueryFor(ls);
    BlockReplyRoundTrip(AskFor(ls), q, ls);
    ReplyFlagBits(0x0100, 0, 9);
    BlockLength(AskFor(ls), q, true);
    ParsedBounds(AskFor(ls), q);
    m := Single(q, ReplyFlags(0x0100, 0), 4);
    hide ParseQuery, ParseResponse, BlockReply, Bit, ReplyFlags, EncLabels, Joined, Lower, AllOK;
  }

  /** One query and its answer; afterwards that answer is found. */
  function Fetch(ls: seq<bytes>, now: int): Asked
    requires Askable(ls)
  {
    Asked(AskFor(ls), false, true, false, now, Some(AnswerTo(ls)))
  }

  lemma IsAnswered(ls: seq<bytes>, es: seq<Ent>, now: int, upstream: Option<bytes>)
    requires Askable(ls)
    ensures DecisionFor(es, Asked(AskFor(ls), false, true, false, now, upstream)) ==
            Answer(QueryFor(ls), es, now, upstream)
    ensures ParseQuery(AskFor(ls)) == Parsed(QueryFor(ls)) && Cacheable(QueryFor(ls))
  {
    AskParses(ls);
    hide ParseQuery, Bit, Answer, AskFor, EncLabels, Joined, Lower, Holds, LabelsAt, Askable;
    FlagsOfQuery();
  }

  lemma FetchDecision(ls: seq<bytes>, now: int, m: Info)
    requires Askable(ls) && ParseResponse(AnswerTo(ls)) == Good(m) && SameQuestion(QueryFor(ls), m)
    ensures DecisionFor([], Fetch(ls, now)) == Forward(AnswerTo(ls), m)
  {
    hide ParseQuery, ParseResponse, Bit, CacheKey, AskFor, AnswerTo, SameQuestion, Askable, QueryFor, Decide,
      DecisionFor;
    IsAnswered(ls, [], now, Some(AnswerTo(ls)));
  }

  lemma Fetched(ls: seq<bytes>, now: int, m: Info)
    requires Askable(ls) && ParseResponse(AnswerTo(ls)) == Good(m) && SameQuestion(QueryFor(ls), m)
    requires Bit(m.flags, 9) == 0 && Accepts(AnswerTo(ls), m) && |AnswerTo(ls)| <= MAX_MSG
    ensures InMessage(AnswerTo(ls), m.ttlOffsets)
    ensures AfterAll([Fetch(ls, now)], MAX_ENTRIES, MAX_BYTES) == [NewEnt(CacheKey(QueryFor(ls)), AnswerTo(ls), m, now)]
  {
    hide ParseQuery, ParseResponse, Bit, CacheKey, NewEnt, Accepts, InMessage, AskFor, AnswerTo, EncLabels, Joined,
      Lower, AllOK, SameQuestion, Askable, Cacheable, DecisionFor, QueryFor, PutList;
    ParsedOffsets(AnswerTo(ls), m);
    FetchDecision(ls, now, m);
    IsAnswered(ls, [], now, None);
    var a, q := Fetch(ls, now), QueryFor(ls);
    var e := NewEnt(CacheKey(q), AnswerTo(ls), m, now);
    NewFields(CacheKey(q), AnswerTo(ls), m, now);
    PutAlone(e);
    assert AfterOne([], a, MAX_ENTRIES, MAX_BYTES) == PutList([], e, MAX_ENTRIES, MAX_BYTES);
    assert [a][..0] == [] && AfterAll([], MAX_ENTRIES, MAX_BYTES) == [];
  }

  lemma PutAlone(e: Ent)
    requires |e.msg| <= MAX_MSG
    ensures PutList([], e, MAX_ENTRIES, MAX_BYTES) == [e]
  {
    assert [e] + [] == [e] && Total([e]) == |e.msg|;
  }

  lemma NewFields(key: Key, msg: bytes, m: Info, now: int)
    requires InMessage(msg, m.ttlOffsets)
    ensures var e := NewEnt(key, msg, m, now);
      e.key == key && e.msg == msg && e.expire == now + CacheTTL(m) * SECOND && e.info == m
  {
    hide CacheTTL, TtlsOf;
  }

  lemma ServedFrom(e: Ent, ls: seq<bytes>, now: int)
    requires Askable(ls) && e.key == CacheKey(QueryFor(ls)) && now < e.expire
    ensures DecisionFor([e], Asked(AskFor(ls), false, true, false, now, None)) == Cached(e)
  {
    hide ParseQuery, Bit, CacheKey, AskFor, Askable, QueryFor, Decide, DecisionFor, Cacheable;
    IsAnswered(ls, [e], now, None);
  }

  /** After an answer to a query for one name, a query for any name with the same text is served with
      it for as long as it lives. */
  lemma SameTextIsServed(a: seq<bytes>, b: seq<bytes>, at: int, now: int)
    requires Askable(a) && Askable(b) && SameText(a, b) && now < at + 60 * SECOND
    ensures var d := DecisionFor(AfterAll([Fetch(a, at)], MAX_ENTRIES, MAX_BYTES),
            Asked(AskFor(b), false, true, false, now, None));
      && d.Cached? && d.e.msg == AnswerTo(a) && LabelsAt(AskFor(b), 12) == b
      && d.e.info.q.qend == 16 + |EncLabels(a)|
  {
    var m := AnswerParses(a);
    Fetched(a, at, m);
    AskParses(b);
    TextTells(a, b);
    SameKey(a, b);
    hide ParseQuery, ParseResponse, Bit, Accepts, InMessage, AskFor, AnswerTo, EncLabels, Joined, Lower, AllOK,
      SameQuestion, SameText, AfterAll, Fetch, LabelsAt, CacheKey, CacheTTL, Askable, QueryFor, NewEnt, DecisionFor,
      Holds;
    NewFields(CacheKey(QueryFor(a)), AnswerTo(a), m, at);
    ServedFrom(NewEnt(CacheKey(QueryFor(a)), AnswerTo(a), m, at), b, now);
  }

  lemma SameKey(a: seq<bytes>, b: seq<bytes>)
    requires Lower(Joined([], a)) == Lower(Joined([], b))
    ensures CacheKey(QueryFor(a)) == CacheKey(QueryFor(b))
  {
    hide Lower, Joined, EncLabels, Digits, Tag, Bit;
  }

  // ----- A name with a dot in its label -----

  const ONE_LABEL: seq<bytes> := [[97, 46, 98]]
  const TWO_LABELS: seq<bytes> := [[97], [98]]

  lemma TwinLabels()
    ensures Askable(ONE_LABEL) && Askable(TWO_LABELS) && SameText(ONE_LABEL, TWO_LABELS)
    ensures !SameName(ONE_LABEL, TWO_LABELS) && |EncLabels(ONE_LABEL)| == |EncLabels(TWO_LABELS)| == 5
  {
    var a: bytes, b: bytes := [97], [98];
    SplitAtDot(a, b);
    SplitDotless(a);
    SplitDotless(b);
    assert a + [DOT] + b == ONE_LABEL[0] && [a] + [b] == TWO_LABELS;
    LowerKeeps(ONE_LABEL);
    LowerKeeps(TWO_LABELS);
    assert Pieces(ONE_LABEL) == Split(ONE_LABEL[0]) + [] && Pieces(TWO_LABELS) == Split(a) + (Split(b) + []);
  }

  lemma LowerKeeps(ls: seq<bytes>)
    requires forall i, k :: 0 <= i < |ls| && 0 <= k < |ls[i]| ==> !(65 <= ls[i][k] <= 90)
    ensures LowerAll(ls) == ls
  {
    forall i | 0 <= i < |ls| ensures Lower(ls[i]) == ls[i] {
    }
  }

  /** A question of the same length is put over the stored one. */
  lemma QuestionReplaced(e: Ent, query: bytes, q: Query, now: int)
    requires EntOK(e) && ParseQuery(query) == Parsed(q) && q.qend == e.info.q.qend
    ensures Fits(query, q) && Servable(e, q) && q.qend <= |e.msg|
    ensures Served(e, query, q, now)[12..q.qend] == query[12..q.qend]
  {
    ParsedBounds(query, q);
    ServedPrefix(e, query, q, now);
    EntQuestion(e);
    hide ParseQuery, EntOK, Served, ServedHead, Skip;
    var r, h := Served(e, query, q, now), ServedHead(e.msg, query, q, e.info);
    HeadQuestion(e.msg, query, q, e.info, h);
    SameSlice(r, h, query, 12, q.qend, q.qend);
  }

  /** The answer for the single label "a.b" is served for the name of the labels "a" and "b", with the
      question of the one replaced by that of the other. */
  lemma TwinIsServed(at: int, now: int)
    requires now < at + 60 * SECOND
    ensures Askable(ONE_LABEL) && Askable(TWO_LABELS) && !SameName(ONE_LABEL, TWO_LABELS)
    ensures LabelsAt(AskFor(ONE_LABEL), 12) == ONE_LABEL && LabelsAt(AskFor(TWO_LABELS), 12) == TWO_LABELS
    ensures var q := AskFor(TWO_LABELS);
      var d := DecisionFor(AfterAll([Fetch(ONE_LABEL, at)], MAX_ENTRIES, MAX_BYTES),
        Asked(q, false, true, false, now, None));
      && d.Cached? && d.e.msg == AnswerTo(ONE_LABEL) && Servable(d.e, QueryFor(TWO_LABELS)) && |d.e.msg| >= 21
      && Served(d.e, q, QueryFor(TWO_LABELS), now)[12..21] == q[12..21]
  {
    TwinLabels();
    AskParses(ONE_LABEL);
    AskParses(TWO_LABELS);
    SameTextIsServed(ONE_LABEL, TWO_LABELS, at, now);
    AllMadeAfter([Fetch(ONE_LABEL, at)], MAX_ENTRIES, MAX_BYTES);
    hide ParseQuery, AskFor, AnswerTo, EncLabels, Joined, Lower, AllOK, SameText, SameName, AfterAll, Fetch, LabelsAt,
      EntOK, AllMade, Served, Decide, Holds;
    var es, a := AfterAll([Fetch(ONE_LABEL, at)], MAX_ENTRIES, MAX_BYTES),
      Asked(AskFor(TWO_LABELS), false, true, false, now, None);
    DecisionOK(a.query, es, false, true, false, now, None);
    QuestionReplaced(DecisionFor(es, a).e, a.query, QueryFor(TWO_LABELS), now);
  }
}
