/** Two messages that the forwarder handles otherwise than one would expect. */
module DnsWitness {
  import opened Common
  import opened Bytes
  import opened DnsWire
  import opened DnsNames
  import opened DnsMessages
  import opened DnsCache
  import opened DnsCaching
  import opened DnsTwins

  // ----- An answer that is rejected -----

  /** Of two answers put in under a key one after the other, the first is found. */
  predicate KeepsFirst(k: Key, a: bytes, m: Info, at: int, b: bytes, n: Info, now: int) {
    var ops := [PutOp(k, a, m, at), PutOp(k, b, n, now)];
    OpsOK(ops) && InMessage(a, m.ttlOffsets) && Find(Run(ops, MAX_ENTRIES, MAX_BYTES), k) == Some(NewEnt(k, a, m, at))
  }

  /** An answer without records comes in under the key of one that is held: it is not taken, and the
      older one stays. */
  lemma OlderStays(ls: seq<bytes>, at: int, now: int) returns (m: Info, n: Info)
    requires Askable(ls)
    ensures KeepsFirst(CacheKey(QueryFor(ls)), AnswerTo(ls), m, at, AskFor(ls), n, now)
  {
    m := AnswerParses(ls);
    n := BareParses(ls);
    hide *;
    ParsedOffsets(AnswerTo(ls), m);
    ParsedOffsets(AskFor(ls), n);
    RejectedStays(CacheKey(QueryFor(ls)), AnswerTo(ls), m, at, AskFor(ls), n, now);
  }

  lemma RejectedStays(k: Key, a: bytes, m: Info, at: int, b: bytes, n: Info, now: int)
    requires ParseResponse(a) == Good(m) && InMessage(a, m.ttlOffsets) && Accepts(a, m) && |a| <= MAX_MSG
    requires ParseResponse(b) == Good(n) && InMessage(b, n.ttlOffsets) && !Accepts(b, n)
    ensures KeepsFirst(k, a, m, at, b, n, now)
  {
    hide ParseResponse, Accepts, InMessage, NewEnt, PutList;
    var first, second := PutOp(k, a, m, at), PutOp(k, b, n, now);
    NewFields(k, a, m, at);
    PutAlone(NewEnt(k, a, m, at));
    assert [first, second][..1] == [first] && [first][..0] == [];
    assert OpsOK([first]) && Run([first], MAX_ENTRIES, MAX_BYTES) == Apply([], first, MAX_ENTRIES, MAX_BYTES);
  }

  lemma BareParses(ls: seq<bytes>) returns (n: Info)
    requires Askable(ls)
    ensures ParseResponse(AskFor(ls)) == Good(n) && !Accepts(AskFor(ls), n)
  {
    var b := AskFor(ls);
    AskParts(ls);
    AskParses(ls);
    ParsedQuery(b);
    n := EmptyInfo(Question(b).q, 0);
    hide AskFor, Holds, Header, EncLabels, Be16, U16, ParseQuery, ParseResponse, Question, ScanRecords, Joined, AllOK;
    HoldsHeader(b, 0, 0x0100, 1, 0, 0, 0);
    ResponseIs(b, Question(b).q.qend, 0, 0, 0, n);
    ScanDone(b, Question(b).q.qend, 0, 0, 0, n);
  }

  // ----- A question too long for a block reply -----

  function Ones(n: nat): seq<bytes> { seq(n, i => [97]) }

  lemma {:induction false} OnesJoined(sb: bytes, n: nat)
    requires sb != []
    ensures |Joined(sb, Ones(n))| == |sb| + 2 * n
    decreases n
  {
    if n > 0 {
      assert Ones(n)[1..] == Ones(n - 1);
      OnesJoined(sb + [DOT] + [97], n - 1);
    }
  }

  lemma OnesFit()
    ensures AllOK(Ones(127)) && |Ones(127)| == 127 && |Joined([], Ones(127))| == 253
  {
    var ls := Ones(127);
    assert ls[1..] == Ones(126) && Joined([], ls) == Joined([97], ls[1..]);
    OnesJoined([97], 126);
  }

  /** A query for a name of 127 labels of one letter parses, and the block reply to it does not. */
  lemma LongNameBlocked()
    ensures var ls := Ones(127);
      && ParseQuery(AskFor(ls)) == Parsed(QueryFor(ls)) && Fits(AskFor(ls), QueryFor(ls))
      && ParseResponse(BlockReply(AskFor(ls), QueryFor(ls), true)) == BadResponse
  {
    hide Holds, EncLabels, ParseQuery, ParseResponse, BlockReply, AskFor, Ones, AllOK, Joined, Lower;
    OnesFit();
    AskParses(Ones(127));
    BlockReplyRoundTrip(AskFor(Ones(127)), QueryFor(Ones(127)), Ones(127));
  }
}
