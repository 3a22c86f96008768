/**
 Importing domain lists (tools/import_v2fly.py): expanding includes, finding the owner of a
 host by its longest suffix, and claiming new suffixes for their targets.
 */
module ImportV2fly {
  // ----- Lists and includes -----

  type Name = string

  datatype Line = Include(name: Name, attrs: seq<string>) | Entry(kind: string, value: string, attrs: seq<string>)

  /** The lists that exist, parsed. */
  type Lists = map<Name, seq<Line>>

  datatype Item = Item(kind: string, value: string, attrs: seq<string>, from: Name)

  datatype Expansion = Expanded(items: seq<Item>, cycles: nat, skipped: nat) | NotFound(name: Name)

  /** `@x` asks for an attribute, `@-x` for its absence. */
  predicate FilterOK(attrs: seq<string>, filter: seq<string>) {
    forall f <- filter :: if f != "" && f[0] == '-' then f[1..] !in attrs else f in attrs
  }

  function Passing(items: seq<Item>, filter: seq<string>): seq<Item> {
    if items == [] then []
    else (if FilterOK(items[0].attrs, filter) then [items[0]] else []) + Passing(items[1..], filter)
  }

  function OnStack(stack: seq<Name>): set<Name> { set n | n in stack }

  function Fresh(src: Lists, stack: seq<Name>): nat { |src.Keys - OnStack(stack)| }

  lemma PushLess(src: Lists, stack: seq<Name>, name: Name)
    requires name in src && name !in stack
    ensures Fresh(src, stack + [name]) < Fresh(src, stack)
  {
    var a, b := src.Keys - OnStack(stack), src.Keys - OnStack(stack + [name]);
    assert name in a && b == a - {name};
  }

  /** A list with everything it includes, in order; a list that is being expanded already is not
      expanded again inside itself. It ends whatever the lists include: the lists on the stack
      are different ones. */
  function Expand(src: Lists, name: Name, skip: set<Name>, stack: seq<Name>, filter: seq<string>): Expansion
    decreases Fresh(src, stack), 1, 0
  {
    if name in stack then Expanded([], 1, 0)
    else if name !in src then NotFound(name)
    else ExpandLines(src, src[name], name, skip, stack, filter)
  }

  function ExpandLines(src: Lists, lines: seq<Line>, name: Name, skip: set<Name>, stack: seq<Name>,
                       filter: seq<string>): Expansion
    requires name in src && name !in stack
    decreases Fresh(src, stack), 0, |lines|
  {
    if lines == [] then Expanded([], 0, 0)
    else
      PushLess(src, stack, name);
      var head :=
        if lines[0].Entry? then Own(lines[0], name, filter)
        else if lines[0].name in skip then Expanded([], 0, 1)
        else Through(Expand(src, lines[0].name, skip, stack + [name], lines[0].attrs), filter);
      if head.NotFound? then head
      else
        var rest := ExpandLines(src, lines[1..], name, skip, stack, filter);
        if rest.NotFound? then rest
        else Expanded(head.items + rest.items, head.cycles + rest.cycles, head.skipped + rest.skipped)
  }

  function Own(line: Line, name: Name, filter: seq<string>): Expansion
    requires line.Entry?
  {
    Expanded(if FilterOK(line.attrs, filter) then [Item(line.kind, line.value, line.attrs, name)] else [], 0, 0)
  }

  /** The items of an included list that pass the filter of the including one. */
  function Through(e: Expansion, filter: seq<string>): Expansion {
    if e.NotFound? then e else e.(items := Passing(e.items, filter))
  }

  // ----- Routes through includes -----

  datatype Hop = Hop(name: Name, attrs: seq<string>)

  /** A route follows include lines, never into a skipped list; it may go round in circles. */
  predicate Route(src: Lists, skip: set<Name>, from: Name, hops: seq<Hop>)
    decreases |hops|
  {
    hops != [] ==>
      && from in src && Include(hops[0].name, hops[0].attrs) in src[from] && hops[0].name !in skip
      && Route(src, skip, hops[0].name, hops[1..])
  }

  function End(from: Name, hops: seq<Hop>): Name { if hops == [] then from else hops[|hops| - 1].name }

  predicate AllFilters(attrs: seq<string>, hops: seq<Hop>) { forall h <- hops :: FilterOK(attrs, h.attrs) }

  /** The route leads to a list that has the entry, and every include line on it lets it through. */
  predicate Carries(src: Lists, skip: set<Name>, from: Name, hops: seq<Hop>, item: Item) {
    && Route(src, skip, from, hops) && End(from, hops) == item.from && item.from in src
    && Entry(item.kind, item.value, item.attrs) in src[item.from] && AllFilters(item.attrs, hops)
  }

  lemma {:induction false} InPassing(items: seq<Item>, filter: seq<string>, item: Item)
    ensures item in Passing(items, filter) <==> item in items && FilterOK(item.attrs, filter)
  {
    if items != [] {
      InPassing(items[1..], filter, item);
    }
  }

  lemma EndCons(from: Name, h: Hop, hops: seq<Hop>)
    ensures End(from, [h] + hops) == End(h.name, hops) && ([h] + hops)[1..] == hops
  {
  }

  lemma CarriesCons(src: Lists, skip: set<Name>, from: Name, h: Hop, hops: seq<Hop>, item: Item)
    requires from in src && Include(h.name, h.attrs) in src[from] && h.name !in skip && FilterOK(item.attrs, h.attrs)
    requires Carries(src, skip, h.name, hops, item)
    ensures Carries(src, skip, from, [h] + hops, item)
  {
    EndCons(from, h, hops);
    hide FilterOK;
  }

  /** Whatever is found came along a route and passes the filter asked for. */
  lemma {:induction false} ExpandSound(src: Lists, name: Name, skip: set<Name>, stack: seq<Name>, filter: seq<string>,
                                       item: Item) returns (hops: seq<Hop>)
    requires var e := Expand(src, name, skip, stack, filter); e.Expanded? && item in e.items
    ensures FilterOK(item.attrs, filter) && Carries(src, skip, name, hops, item)
    decreases Fresh(src, stack), 1, 0
  {
    hops := LinesSound(src, src[name], name, skip, stack, filter, item);
  }

  lemma {:induction false} LinesSound(src: Lists, lines: seq<Line>, name: Name, skip: set<Name>, stack: seq<Name>,
                                      filter: seq<string>, item: Item) returns (hops: seq<Hop>)
    requires name in src && name !in stack && forall l <- lines :: l in src[name]
    requires var e := ExpandLines(src, lines, name, skip, stack, filter); e.Expanded? && item in e.items
    ensures FilterOK(item.attrs, filter) && Carries(src, skip, name, hops, item)
    decreases Fresh(src, stack), 0, |lines|
  {
    hide FilterOK, Carries;
    var rest := ExpandLines(src, lines[1..], name, skip, stack, filter);
    if item in rest.items {
      hops := LinesSound(src, lines[1..], name, skip, stack, filter, item);
    } else {
      match lines[0]
      case Include(sub, attrs) =>
        PushLess(src, stack, name);
        InPassing(Expand(src, sub, skip, stack + [name], attrs).items, filter, item);
        hops := ExpandSound(src, sub, skip, stack + [name], attrs, item);
        CarriesCons(src, skip, name, Hop(sub, attrs), hops, item);
        hops := [Hop(sub, attrs)] + hops;
      case Entry(kind, value, attrs) =>
        hops := [];
        CarriesHere(src, skip, name, item);
    }
  }

  lemma CarriesHere(src: Lists, skip: set<Name>, name: Name, item: Item)
    requires item.from == name && name in src && Entry(item.kind, item.value, item.attrs) in src[name]
    ensures Carries(src, skip, name, [], item)
  {
  }

  /** A list reported missing is missing and can be reached. */
  lemma {:induction false} MissingSound(src: Lists, name: Name, skip: set<Name>, stack: seq<Name>, filter: seq<string>)
    returns (hops: seq<Hop>)
    requires Expand(src, name, skip, stack, filter).NotFound?
    ensures Route(src, skip, name, hops) && End(name, hops) !in src
    decreases Fresh(src, stack), 1, 0
  {
    if name in src {
      hops := LinesMissing(src, src[name], name, skip, stack, filter);
    } else {
      hops := [];
    }
  }

  lemma {:induction false} LinesMissing(src: Lists, lines: seq<Line>, name: Name, skip: set<Name>, stack: seq<Name>,
                                        filter: seq<string>) returns (hops: seq<Hop>)
    requires name in src && name !in stack && forall l <- lines :: l in src[name]
    requires ExpandLines(src, lines, name, skip, stack, filter).NotFound?
    ensures Route(src, skip, name, hops) && End(name, hops) !in src
    decreases Fresh(src, stack), 0, |lines|
  {
    if lines[0].Include? && lines[0].name !in skip {
      PushLess(src, stack, name);
      var sub, attrs := lines[0].name, lines[0].attrs;
      if Expand(src, sub, skip, stack + [name], attrs).NotFound? {
        hops := MissingSound(src, sub, skip, stack + [name], attrs);
        EndCons(name, Hop(sub, attrs), hops);
        hops := [Hop(sub, attrs)] + hops;
        return;
      }
    }
    hops := LinesMissing(src, lines[1..], name, skip, stack, filter);
  }

  // ----- Circles can be left out -----

  /** No list occurs twice on the route, and none of those on the stack. */
  predicate Simple(from: Name, hops: seq<Hop>, stack: seq<Name>)
    decreases |hops|
  {
    from !in stack && (hops != [] ==> Simple(hops[0].name, hops[1..], stack + [from]))
  }

  /** `to` is a route with the same ends that uses only hops of `hops`. */
  predicate Shortens(src: Lists, skip: set<Name>, from: Name, hops: seq<Hop>, to: seq<Hop>) {
    && Route(src, skip, from, to) && End(from, to) == End(from, hops)
    && (forall h <- to :: h in hops)
    && (forall h <- to :: h.name != from)
    && (forall i, j :: 0 <= i < j < |to| ==> to[i].name != to[j].name)
  }

  lemma {:induction false} RouteSuffix(src: Lists, skip: set<Name>, from: Name, hops: seq<Hop>, k: nat)
    requires Route(src, skip, from, hops) && k < |hops|
    ensures Route(src, skip, hops[k].name, hops[k + 1..]) && End(hops[k].name, hops[k + 1..]) == End(from, hops)
    decreases k
  {
    if k > 0 {
      RouteSuffix(src, skip, hops[0].name, hops[1..], k - 1);
      assert hops[1..][k..] == hops[k + 1..];
    }
  }

  lemma CutAt(src: Lists, skip: set<Name>, from: Name, h: Hop, t: seq<Hop>, k: nat)
    requires Shortens(src, skip, h.name, t, t) && k < |t| && t[k].name == from
    ensures Shortens(src, skip, from, [h] + t, t[k + 1..])
  {
    var to := t[k + 1..];
    RouteSuffix(src, skip, h.name, t, k);
    EndCons(from, h, t);
    assert forall i :: 0 <= i < |to| ==> to[i] == t[k + 1 + i];
  }

  lemma PutBefore(src: Lists, skip: set<Name>, from: Name, h: Hop, t: seq<Hop>)
    requires Shortens(src, skip, h.name, t, t) && h.name != from && forall g <- t :: g.name != from
    requires from in src && Include(h.name, h.attrs) in src[from] && h.name !in skip
    ensures Shortens(src, skip, from, [h] + t, [h] + t)
  {
    var to := [h] + t;
    EndCons(from, h, t);
    assert forall i :: 1 <= i < |to| ==> to[i] == t[i - 1];
    assert forall g <- to :: g == h || g in t;
  }

  lemma ShortensMore(src: Lists, skip: set<Name>, from: Name, hops: seq<Hop>, mid: seq<Hop>, to: seq<Hop>)
    requires Shortens(src, skip, from, mid, to) && End(from, mid) == End(from, hops) && forall h <- mid :: h in hops
    ensures Shortens(src, skip, from, hops, to)
  {
  }

  /** Every route has a shortened one without circles. */
  lemma {:induction false} LeaveOutCircles(src: Lists, skip: set<Name>, from: Name, hops: seq<Hop>)
    returns (to: seq<Hop>)
    requires Route(src, skip, from, hops)
    ensures Shortens(src, skip, from, hops, to)
    decreases |hops|
  {
    if hops == [] {
      to := [];
      return;
    }
    var h := hops[0];
    var t := LeaveOutCircles(src, skip, h.name, hops[1..]);
    assert hops == [h] + hops[1..];
    EndCons(from, h, hops[1..]);
    EndCons(from, h, t);
    assert forall g <- [h] + t :: g in hops;
    if h.name == from {
      to := t;
    } else {
      if k: nat :| k < |t| && t[k].name == from {
        CutAt(src, skip, from, h, t, k);
        to := t[k + 1..];
      } else {
        PutBefore(src, skip, from, h, t);
        to := [h] + t;
      }
      hide Route, End;
      ShortensMore(src, skip, from, hops, [h] + t, to);
    }
  }

  lemma {:induction false} DistinctIsSimple(from: Name, hops: seq<Hop>, stack: seq<Name>)
    requires from !in stack && forall h <- hops :: h.name !in stack && h.name != from
    requires forall i, j :: 0 <= i < j < |hops| ==> hops[i].name != hops[j].name
    ensures Simple(from, hops, stack)
    decreases |hops|
  {
    if hops != [] {
      var t := hops[1..];
      assert forall i :: 0 <= i < |t| ==> t[i] == hops[i + 1] && hops[i + 1] in hops;
      DistinctIsSimple(hops[0].name, t, stack + [from]);
    }
  }

  // ----- Completeness -----

  lemma {:induction false} SimpleFound(src: Lists, name: Name, skip: set<Name>, stack: seq<Name>, filter: seq<string>,
                                       hops: seq<Hop>, item: Item)
    requires Carries(src, skip, name, hops, item) && Simple(name, hops, stack) && FilterOK(item.attrs, filter)
    requires Expand(src, name, skip, stack, filter).Expanded?
    ensures item in Expand(src, name, skip, stack, filter).items
    decreases |hops|, 2, 0
  {
    var line := if hops == [] then Entry(item.kind, item.value, item.attrs) else Include(hops[0].name, hops[0].attrs);
    assert line in src[name];
    var k :| 0 <= k < |src[name]| && src[name][k] == line;
    LineFound(src, src[name], k, name, skip, stack, filter, hops, item);
  }

  lemma {:induction false} LineFound(src: Lists, lines: seq<Line>, k: nat, name: Name, skip: set<Name>,
                                     stack: seq<Name>, filter: seq<string>, hops: seq<Hop>, item: Item)
    requires name in src && name !in stack && k < |lines|
    requires lines[k] == if hops == [] then Entry(item.kind, item.value, item.attrs)
            else Include(hops[0].name, hops[0].attrs)
    requires Carries(src, skip, name, hops, item) && Simple(name, hops, stack) && FilterOK(item.attrs, filter)
    requires ExpandLines(src, lines, name, skip, stack, filter).Expanded?
    ensures item in ExpandLines(src, lines, name, skip, stack, filter).items
    decreases |hops|, 1, k
  {
    if k > 0 {
      hide FilterOK, Carries, Simple;
      LineFound(src, lines[1..], k - 1, name, skip, stack, filter, hops, item);
    } else if hops != [] {
      var sub, attrs := hops[0].name, hops[0].attrs;
      EndCons(name, hops[0], hops[1..]);
      assert hops == [hops[0]] + hops[1..];
      assert Carries(src, skip, sub, hops[1..], item);
      hide FilterOK, Carries;
      PushLess(src, stack, name);
      SimpleFound(src, sub, skip, stack + [name], attrs, hops[1..], item);
      InPassing(Expand(src, sub, skip, stack + [name], attrs).items, filter, item);
    }
  }

  lemma {:induction false} SimpleMissing(src: Lists, name: Name, skip: set<Name>, stack: seq<Name>, filter: seq<string>,
                                         hops: seq<Hop>)
    requires Route(src, skip, name, hops) && End(name, hops) !in src && Simple(name, hops, stack)
    ensures Expand(src, name, skip, stack, filter).NotFound?
    decreases |hops|, 2, 0
  {
    if hops != [] {
      var line := Include(hops[0].name, hops[0].attrs);
      var k :| 0 <= k < |src[name]| && src[name][k] == line;
      LineMissing(src, src[name], k, name, skip, stack, filter, hops);
    }
  }

  lemma {:induction false} LineMissing(src: Lists, lines: seq<Line>, k: nat, name: Name, skip: set<Name>,
                                       stack: seq<Name>, filter: seq<string>, hops: seq<Hop>)
    requires name in src && name !in stack && k < |lines| && hops != []
            && lines[k] == Include(hops[0].name, hops[0].attrs)
    requires Route(src, skip, name, hops) && End(name, hops) !in src && Simple(name, hops, stack)
    ensures ExpandLines(src, lines, name, skip, stack, filter).NotFound?
    decreases |hops|, 1, k
  {
    if k > 0 {
      LineMissing(src, lines[1..], k - 1, name, skip, stack, filter, hops);
    } else {
      EndCons(name, hops[0], hops[1..]);
      assert hops == [hops[0]] + hops[1..];
      PushLess(src, stack, name);
      SimpleMissing(src, hops[0].name, skip, stack + [name], hops[0].attrs, hops[1..]);
    }
  }

  /** Expansion fails exactly if some route, however it winds, leads to a list that is missing. */
  lemma FailsIfMissing(src: Lists, name: Name, skip: set<Name>)
    ensures Expand(src, name, skip, [], []).NotFound? <==>
            exists hops :: Route(src, skip, name, hops) && End(name, hops) !in src
  {
    if Expand(src, name, skip, [], []).NotFound? {
      var hops := MissingSound(src, name, skip, [], []);
    }
    if hops :| Route(src, skip, name, hops) && End(name, hops) !in src {
      var t := LeaveOutCircles(src, skip, name, hops);
      DistinctIsSimple(name, t, []);
      SimpleMissing(src, name, skip, [], [], t);
    }
  }

  /** Cutting circles loses nothing: an entry is found exactly if some route, however it winds,
      leads to it through include lines that let it through. */
  lemma FindsEverything(src: Lists, name: Name, skip: set<Name>, item: Item)
    requires Expand(src, name, skip, [], []).Expanded?
    ensures item in Expand(src, name, skip, [], []).items <==> exists hops :: Carries(src, skip, name, hops, item)
  {
    if item in Expand(src, name, skip, [], []).items {
      var hops := ExpandSound(src, name, skip, [], [], item);
    }
    if hops :| Carries(src, skip, name, hops, item) {
      var t := LeaveOutCircles(src, skip, name, hops);
      DistinctIsSimple(name, t, []);
      SimpleFound(src, name, skip, [], [], t, item);
    }
  }
}
