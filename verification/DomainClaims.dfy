/**
 Who owns a host (tools/import_v2fly.py:191-199) and which new suffixes go to which target
 (251-303). Host syntax, normalisation and the public-suffix list are parameters.
 */
module DomainClaims {
  import opened Common
  import opened ImportV2fly

  type Host = string

  type Owners = map<Host, string>

  // ----- The longest suffix -----

  /** What follows the first dot. */
  function Up(h: Host): (r: Option<Host>)
    ensures r.Some? ==> |r.value| < |h|
  {
    if h == "" then None else if h[0] == '.' then Some(h[1..]) else Up(h[1..])
  }

  function LongestOwner<T>(h: Host, owners: map<Host, T>): Option<(Host, T)>
    decreases |h|
  {
    if h in owners then Some((h, owners[h]))
    else if Up(h).None? then None
    else LongestOwner(Up(h).value, owners)
  }

  method FindOwner<T>(h: Host, owners: map<Host, T>) returns (r: Option<(Host, T)>)
    ensures r == LongestOwner(h, owners)
  {
    var cur := h;
    while true
      invariant LongestOwner(cur, owners) == LongestOwner(h, owners)
      decreases |cur|
    {
      if cur in owners {
        return Some((cur, owners[cur]));
      }
      var up := Up(cur);
      if up.None? {
        return None;
      }
      cur := up.value;
    }
  }

  /** The host itself, or a parent domain of it. */
  predicate Covers(s: Host, h: Host) {
    s == h || (|s| < |h| && h[|h| - |s| - 1] == '.' && h[|h| - |s|..] == s)
  }

  lemma {:induction false} UpCovers(h: Host, s: Host)
    requires s != h
    ensures Covers(s, h) <==> Up(h).Some? && Covers(s, Up(h).value)
    decreases |h|
  {
    if h != "" {
      var t := h[1..];
      if h[0] == '.' {
        if |s| + 1 < |h| {
          assert h[|h| - |s| - 1] == t[|t| - |s| - 1] && h[|h| - |s|..] == t[|t| - |s|..];
        }
      } else if s == t {
        assert !Covers(s, h);
        UpShorter(t, s);
      } else {
        UpCovers(t, s);
        if |s| + 1 < |h| {
          assert h[|h| - |s| - 1] == t[|t| - |s| - 1] && h[|h| - |s|..] == t[|t| - |s|..];
        }
      }
    }
  }

  lemma UpShorter(t: Host, s: Host)
    requires s == t
    ensures Up(t).Some? ==> !Covers(s, Up(t).value)
  {
  }

  /** The owner found is that of a covering suffix than which no other covering one is longer;
      none is found only if no suffix covers the host. */
  lemma {:induction false} LongestIsLongest<T>(h: Host, owners: map<Host, T>)
    ensures var r := LongestOwner(h, owners);
      && (r.None? <==> forall s :: Covers(s, h) ==> s !in owners)
      && (r.Some? ==>
          && r.value.0 in owners && r.value.1 == owners[r.value.0] && Covers(r.value.0, h)
          && forall s :: Covers(s, h) && s in owners ==> |s| <= |r.value.0|)
    decreases |h|
  {
    if h !in owners {
      if Up(h).Some? {
        LongestIsLongest(Up(h).value, owners);
      }
      forall s | s != h ensures Covers(s, h) <==> Up(h).Some? && Covers(s, Up(h).value) {
        UpCovers(h, s);
      }
    }
  }

  /** Of two suffixes of a host the shorter one covers the longer. */
  lemma CoversChain(s: Host, t: Host, h: Host)
    requires Covers(s, h) && Covers(t, h) && |s| <= |t|
    ensures Covers(s, t)
  {
    if t != h && |s| < |t| {
      assert t[|t| - |s| - 1] == h[|h| - |t|..][|t| - |s| - 1] == h[|h| - |s| - 1];
      assert t[|t| - |s|..] == h[|h| - |t|..][|t| - |s|..] == h[|h| - |s|..];
    } else if |s| == |t| {
      assert s == h[|h| - |s|..] && t == h[|h| - |t|..];
    }
  }

  // ----- Which entries count -----

  /** Normalisation, host syntax, public suffixes, blocked hosts and the categories for ads. */
  datatype Env = Env(norm: string -> Host, valid: Host -> bool, publicSuffix: Host -> bool,
                     blocked: set<Host>, adsCategories: set<string>)

  datatype ListIn = ListIn(name: Name, skip: set<Name>, excluded: set<Host>)

  datatype Group = Group(target: string, category: string, lists: seq<ListIn>)

  function Marks(hosts: set<Host>): map<Host, ()> { map h <- hosts :: () }

  /** The host an entry stands for, if it is a plain domain that nothing rules out. */
  function Candidate(env: Env, item: Item, category: string, excluded: set<Host>): Option<Host> {
    if item.kind in {"keyword", "regexp"} || ("ads" in item.attrs && category !in env.adsCategories) then None
    else
      var h := env.norm(item.value);
      if !env.valid(h) || env.publicSuffix(h) || LongestOwner(h, Marks(excluded)).Some? || h in env.blocked then None
      else Some(h)
  }

  function CandidatesOf(env: Env, items: seq<Item>, category: string, excluded: set<Host>): set<Host> {
    set i | 0 <= i < |items| && Candidate(env, items[i], category, excluded).Some? ::
      Candidate(env, items[i], category, excluded).value
  }

  /** A list that is missing, or includes a missing one, contributes nothing. */
  function Items(src: Lists, l: ListIn): seq<Item> {
    var e := Expand(src, l.name, l.skip, [], []);
    if e.NotFound? then [] else e.items
  }

  function ListHosts(env: Env, src: Lists, category: string, l: ListIn): set<Host> {
    CandidatesOf(env, Items(src, l), category, l.excluded)
  }

  function GroupHosts(env: Env, src: Lists, g: Group): set<Host> {
    set i, h | 0 <= i < |g.lists| && h in ListHosts(env, src, g.category, g.lists[i]) :: h
  }

  predicate Owned(h: Host, owners: Owners) { LongestOwner(h, owners).Some? }

  // ----- Claiming -----

  /** The first group, in their order, that has the host. */
  predicate FirstGroup(env: Env, src: Lists, groups: seq<Group>, k: nat, h: Host)
    requires k < |groups|
  {
    h in GroupHosts(env, src, groups[k]) && forall j :: 0 <= j < k ==> h !in GroupHosts(env, src, groups[j])
  }

  predicate DistinctTargets(groups: seq<Group>) {
    forall i, j :: 0 <= i < j < |groups| ==> groups[i].target != groups[j].target
  }

  /** The claims a host set of target `t` adds: hosts without an owner and not claimed before. */
  function Claim(claimed: Owners, owners: Owners, hosts: set<Host>, t: string): Owners {
    claimed + map h | h in hosts && !Owned(h, owners) && h !in claimed :: t
  }

  function Won(claimed: Owners, t: string): set<Host> { set h <- claimed | claimed[h] == t }

  method ClaimList(env: Env, items: seq<Item>, category: string, excluded: set<Host>, t: string, owners: Owners,
                   claimed0: Owners, sufs0: set<Host>) returns (claimed: Owners, sufs: set<Host>)
    requires sufs0 == Won(claimed0, t)
    ensures claimed == Claim(claimed0, owners, CandidatesOf(env, items, category, excluded), t)
    ensures sufs == Won(claimed, t)
  {
    hide Candidate, CandidatesOf, Claim, LongestOwner, Won;
    claimed, sufs := claimed0, sufs0;
    NoItems(env, items, category, excluded, claimed0, owners, t);
    for i := 0 to |items|
      invariant claimed == Claim(claimed0, owners, CandidatesOf(env, items[..i], category, excluded), t)
      invariant sufs == Won(claimed, t)
    {
      MoreItems(env, items, i, category, excluded);
      var c := Candidate(env, items[i], category, excluded);
      ghost var before := CandidatesOf(env, items[..i], category, excluded);
      assert before + {} == before;
      if c.Some? {
        var h := c.value;
        ClaimMore(claimed0, owners, before, h, t);
        WonMore(claimed, h, t);
        var o := FindOwner(h, owners);
        if o.None? && !(h in claimed && claimed[h] != t) {
          claimed := claimed[h := t];
          sufs := sufs + {h};
        }
      }
    }
    assert items[..|items|] == items;
  }

  lemma NoItems(env: Env, items: seq<Item>, category: string, excluded: set<Host>, claimed: Owners, owners: Owners,
                t: string)
    ensures Claim(claimed, owners, CandidatesOf(env, items[..0], category, excluded), t) == claimed
  {
    assert CandidatesOf(env, items[..0], category, excluded) == {};
    assert claimed + map[] == claimed;
  }

  lemma WonMore(claimed: Owners, h: Host, t: string)
    ensures Won(claimed[h := t], t) == Won(claimed, t) + {h}
  {
  }

  lemma MoreItems(env: Env, items: seq<Item>, i: nat, category: string, excluded: set<Host>)
    requires i < |items|
    ensures var c := Candidate(env, items[i], category, excluded);
      CandidatesOf(env, items[..i + 1], category, excluded) ==
      CandidatesOf(env, items[..i], category, excluded) + if c.Some? then {c.value} else {}
  {
    hide Candidate;
    var a, b := items[..i + 1], items[..i];
    assert forall j :: 0 <= j < i ==> a[j] == b[j];
    assert a[i] == items[i];
  }

  /** One more host. */
  lemma ClaimMore(claimed: Owners, owners: Owners, hosts: set<Host>, h: Host, t: string)
    ensures var c := Claim(claimed, owners, hosts, t);
      Claim(claimed, owners, hosts + {h}, t) ==
      if Owned(h, owners) || (h in c && c[h] != t) then c else c[h := t]
  {
    hide Owned;
  }

  /** What every group has claimed so far is settled: a host belongs to the first group that has
      it, unless it has an owner. */
  ghost predicate Settled(env: Env, src: Lists, groups: seq<Group>, n: nat, owners: Owners, claimed: Owners)
    requires n <= |groups|
  {
    forall h ::
      if Owned(h, owners) || forall k :: 0 <= k < n ==> h !in GroupHosts(env, src, groups[k]) then h !in claimed
      else h in claimed && exists k ::
        0 <= k < n && FirstGroup(env, src, groups, k, h) && claimed[h] == groups[k].target
  }

  method ClaimGroup(env: Env, src: Lists, g: Group, owners: Owners, claimed0: Owners)
    returns (claimed: Owners, sufs: set<Host>)
    requires Won(claimed0, g.target) == {}
    ensures claimed == Claim(claimed0, owners, GroupHosts(env, src, g), g.target)
    ensures sufs == Won(claimed, g.target)
  {
    hide CandidatesOf, Claim, Owned, Expand, Won;
    claimed, sufs := claimed0, {};
    NoLists(env, src, g, claimed0, owners);
    for i := 0 to |g.lists|
      invariant claimed == Claim(claimed0, owners, HostsOf(env, src, g, i), g.target)
      invariant sufs == Won(claimed, g.target)
    {
      var l := g.lists[i];
      var e := Expand(src, l.name, l.skip, [], []);
      MoreLists(env, src, g, i);
      ClaimTwice(claimed0, owners, HostsOf(env, src, g, i), ListHosts(env, src, g.category, l), g.target);
      if e.NotFound? {
        NoItems(env, [], g.category, l.excluded, claimed, owners, g.target);
      } else {
        claimed, sufs := ClaimList(env, e.items, g.category, l.excluded, g.target, owners, claimed, sufs);
      }
    }
  }

  /** The hosts of the first `n` lists of a group. */
  function HostsOf(env: Env, src: Lists, g: Group, n: nat): set<Host>
    requires n <= |g.lists|
  {
    set i, h | 0 <= i < n && h in ListHosts(env, src, g.category, g.lists[i]) :: h
  }

  lemma NoLists(env: Env, src: Lists, g: Group, claimed: Owners, owners: Owners)
    ensures Claim(claimed, owners, HostsOf(env, src, g, 0), g.target) == claimed
    ensures HostsOf(env, src, g, |g.lists|) == GroupHosts(env, src, g)
  {
    assert HostsOf(env, src, g, 0) == {};
    assert claimed + map[] == claimed;
  }

  lemma MoreLists(env: Env, src: Lists, g: Group, n: nat)
    requires n < |g.lists|
    ensures HostsOf(env, src, g, n + 1) == HostsOf(env, src, g, n) + ListHosts(env, src, g.category, g.lists[n])
  {
    hide ListHosts;
  }

  lemma ClaimTwice(claimed: Owners, owners: Owners, a: set<Host>, b: set<Host>, t: string)
    ensures Claim(Claim(claimed, owners, a, t), owners, b, t) == Claim(claimed, owners, a + b, t)
  {
    hide Owned;
  }

  // ----- The whole import -----

  /** A target that exists already gets its suffixes as a child rule. */
  datatype Rule = Rule(id: string, parent: Option<string>, suffixes: set<Host>)

  function RuleFor(t: string, existing: set<string>, sufs: set<Host>): Rule {
    if t in existing then Rule(t + "_v2fly", Some(t), sufs) else Rule(t, None, sufs)
  }

  function Target(r: Rule): string { r.parent.GetOr(r.id) }

  /** The rules of the first `n` groups, in order; groups that won nothing have none. */
  function RulesOf(groups: seq<Group>, n: nat, existing: set<string>, claimed: Owners): seq<Rule>
    requires n <= |groups|
  {
    if n == 0 then [] else
      var w := Won(claimed, groups[n - 1].target);
      RulesOf(groups, n - 1, existing, claimed) + if w == {} then [] else [RuleFor(groups[n - 1].target, existing, w)]
  }

  method Build(env: Env, src: Lists, groups: seq<Group>, existing: set<string>, owners: Owners)
    returns (rules: seq<Rule>, claimed: Owners)
    requires DistinctTargets(groups)
    ensures Settled(env, src, groups, |groups|, owners, claimed)
    ensures rules == RulesOf(groups, |groups|, existing, claimed)
    ensures Extends(owners, claimed)
  {
    hide GroupHosts, Claim, Owned, Won;
    rules, claimed := [], map[];
    for n := 0 to |groups|
      invariant Settled(env, src, groups, n, owners, claimed)
      invariant rules == RulesOf(groups, n, existing, claimed)
    {
      var g := groups[n];
      ghost var before := claimed;
      NothingYet(env, src, groups, n, owners, claimed);
      SettledStep(env, src, groups, n, owners, claimed);
      ClaimKeepsRules(groups, n, n, existing, claimed, owners, GroupHosts(env, src, g));
      var sufs;
      claimed, sufs := ClaimGroup(env, src, g, owners, claimed);
      if sufs != {} {
        rules := rules + [RuleFor(g.target, existing, sufs)];
      }
    }
    ImportExtends(env, src, groups, owners, claimed);
  }

  lemma NothingYet(env: Env, src: Lists, groups: seq<Group>, n: nat, owners: Owners, claimed: Owners)
    requires n < |groups| && DistinctTargets(groups) && Settled(env, src, groups, n, owners, claimed)
    ensures Won(claimed, groups[n].target) == {}
  {
    hide GroupHosts, Owned;
  }

  lemma SettledStep(env: Env, src: Lists, groups: seq<Group>, n: nat, owners: Owners, claimed: Owners)
    requires n < |groups| && Settled(env, src, groups, n, owners, claimed)
    ensures Settled(env, src, groups, n + 1, owners,
            Claim(claimed, owners, GroupHosts(env, src, groups[n]), groups[n].target))
  {
    hide Claim, FirstGroup, GroupHosts, Owned;
    var c := Claim(claimed, owners, GroupHosts(env, src, groups[n]), groups[n].target);
    forall h
      ensures if Owned(h, owners) || forall k :: 0 <= k < n + 1 ==> h !in GroupHosts(env, src, groups[k]) then h !in c
              else h in c && exists k ::
                0 <= k < n + 1 && FirstGroup(env, src, groups, k, h) && c[h] == groups[k].target
    {
      ClaimAt(claimed, owners, GroupHosts(env, src, groups[n]), groups[n].target, h);
      FirstIs(env, src, groups, n, h);
    }
  }

  lemma ClaimAt(claimed: Owners, owners: Owners, hosts: set<Host>, t: string, h: Host)
    ensures var c := Claim(claimed, owners, hosts, t);
      && (h in c <==> h in claimed || (h in hosts && !Owned(h, owners)))
      && (h in c ==> c[h] == if h in claimed then claimed[h] else t)
  {
    hide Owned;
  }

  lemma FirstIs(env: Env, src: Lists, groups: seq<Group>, n: nat, h: Host)
    requires n < |groups|
    ensures h in GroupHosts(env, src, groups[n])
            && (forall k :: 0 <= k < n ==> h !in GroupHosts(env, src, groups[k])) ==>
            FirstGroup(env, src, groups, n, h)
  {
    hide GroupHosts;
  }

  lemma {:induction false} ClaimKeepsRules(groups: seq<Group>, n: nat, m: nat, existing: set<string>, claimed: Owners,
                                           owners: Owners, hosts: set<Host>)
    requires m <= n < |groups| && DistinctTargets(groups)
    ensures RulesOf(groups, m, existing, Claim(claimed, owners, hosts, groups[n].target)) ==
            RulesOf(groups, m, existing, claimed)
  {
    hide Owned;
    if m > 0 {
      ClaimKeepsRules(groups, n, m - 1, existing, claimed, owners, hosts);
      var t := groups[m - 1].target;
      assert Won(Claim(claimed, owners, hosts, groups[n].target), t) == Won(claimed, t);
    }
  }

  // ----- What the import means for owners -----

  /** After the import, every claimed suffix is owned by its target. */
  function Merged(owners: Owners, claimed: Owners): Owners { owners + claimed }

  predicate Unowned(owners: Owners, claimed: Owners) { forall h <- claimed :: !Owned(h, owners) }

  /** The import is a conservative extension: a host that had an owner keeps it, by the same
      suffix; a host without one gets the target of its longest claimed suffix. */
  lemma ConservativeExtension(h: Host, owners: Owners, claimed: Owners)
    requires Unowned(owners, claimed)
    ensures LongestOwner(h, Merged(owners, claimed)) ==
            if Owned(h, owners) then LongestOwner(h, owners) else LongestOwner(h, claimed)
  {
    var all := Merged(owners, claimed);
    LongestIsLongest(h, owners);
    LongestIsLongest(h, claimed);
    LongestIsLongest(h, all);
    var a, o, c := LongestOwner(h, all), LongestOwner(h, owners), LongestOwner(h, claimed);
    hide LongestOwner;
    if o.Some? {
      var s, t := o.value.0, a.value.0;
      if t in claimed {
        assert |s| <= |t|;
        CoversChain(s, t, h);
        NotClaimed(s, t, owners, claimed);
        assert false;
      }
      SameLength(s, t, h);
    } else if c.Some? {
      assert c.value.0 in all;
      SameLength(c.value.0, a.value.0, h);
    }
  }

  lemma NotClaimed(s: Host, t: Host, owners: Owners, claimed: Owners)
    requires Unowned(owners, claimed) && s in owners && Covers(s, t)
    ensures t !in claimed
  {
    LongestIsLongest(t, owners);
  }

  lemma SameLength(s: Host, t: Host, h: Host)
    requires Covers(s, h) && Covers(t, h)
    ensures |s| == |t| ==> s == t
  {
    if |s| == |t| {
      CoversChain(s, t, h);
    }
  }

  /** For every host: an owner it had it keeps, by the same suffix; without one it gets the target
      of its longest claimed suffix. */
  ghost predicate Extends(owners: Owners, claimed: Owners) {
    forall h :: LongestOwner(h, Merged(owners, claimed)) ==
                if Owned(h, owners) then LongestOwner(h, owners) else LongestOwner(h, claimed)
  }

  /** Whatever the lists say, what is claimed in the end is a conservative extension. */
  lemma ImportExtends(env: Env, src: Lists, groups: seq<Group>, owners: Owners, claimed: Owners)
    requires Settled(env, src, groups, |groups|, owners, claimed)
    ensures Extends(owners, claimed)
  {
    SettledIsUnowned(env, src, groups, owners, claimed);
    hide LongestOwner, Merged, Owned, Settled, Unowned;
    forall h ensures LongestOwner(h, Merged(owners, claimed)) ==
                     if Owned(h, owners) then LongestOwner(h, owners) else LongestOwner(h, claimed) {
      ConservativeExtension(h, owners, claimed);
    }
  }

  lemma SettledIsUnowned(env: Env, src: Lists, groups: seq<Group>, owners: Owners, claimed: Owners)
    requires Settled(env, src, groups, |groups|, owners, claimed)
    ensures Unowned(owners, claimed)
  {
    hide GroupHosts, Owned;
  }

  /** Every emitted suffix is in exactly one rule, that of the target it was claimed for, and no
      rule is empty. */
  lemma {:induction false} OneRuleEach(groups: seq<Group>, n: nat, existing: set<string>, claimed: Owners, h: Host,
                                       i: nat)
    requires n <= |groups| && DistinctTargets(groups)
    requires i < |RulesOf(groups, n, existing, claimed)|
    ensures var rs := RulesOf(groups, n, existing, claimed);
      && (h in rs[i].suffixes <==> h in claimed && claimed[h] == Target(rs[i]))
      && rs[i].suffixes != {}
      && exists k :: 0 <= k < n && Target(rs[i]) == groups[k].target
  {
    var rs := RulesOf(groups, n, existing, claimed);
    var before := RulesOf(groups, n - 1, existing, claimed);
    if i < |before| {
      OneRuleEach(groups, n - 1, existing, claimed, h, i);
      assert rs[i] == before[i];
    } else {
      assert Target(rs[i]) == groups[n - 1].target;
    }
  }

  lemma {:induction false} TargetsDiffer(groups: seq<Group>, n: nat, existing: set<string>, claimed: Owners, i: nat,
                                         j: nat)
    requires n <= |groups| && DistinctTargets(groups)
    requires i < j < |RulesOf(groups, n, existing, claimed)|
    ensures var rs := RulesOf(groups, n, existing, claimed); Target(rs[i]) != Target(rs[j])
  {
    var rs := RulesOf(groups, n, existing, claimed);
    var before := RulesOf(groups, n - 1, existing, claimed);
    assert rs[i] == before[i];
    if j < |before| {
      TargetsDiffer(groups, n - 1, existing, claimed, i, j);
      assert rs[j] == before[j];
    } else {
      OneRuleEach(groups, n - 1, existing, claimed, "", i);
      var k :| 0 <= k < n - 1 && Target(before[i]) == groups[k].target;
    }
  }

  /** Rules for different targets have different ids, exactly if no rule for a new target is
      named like the child rule of another: a target `x` that exists and a new target `x_v2fly`
      would share an id, and a loader that keeps the last rule of an id would drop the first. */
  lemma RuleIdsDistinct(s: string, t: string, existing: set<string>, a: set<Host>, b: set<Host>)
    requires s != t
    ensures RuleFor(s, existing, a).id == RuleFor(t, existing, b).id <==>
            || (s in existing && t !in existing && t == s + "_v2fly")
            || (t in existing && s !in existing && s == t + "_v2fly")
  {
    var x, y := s + "_v2fly", t + "_v2fly";
    assert s == x[..|x| - 6] && t == y[..|y| - 6];
  }
}
