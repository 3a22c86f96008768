/**
 Attaching child rules to their root applications (app_time.go:374-439): chains of parents are
 followed for eight steps, the suffixes move to the root and the child goes.
 */
module CatalogAttach {
  import opened Common

  /** Rules with an empty id are skipped when they are loaded, and an empty parent is none, so
      the empty text is free to stand for no root. */
  type Id = s: string | s != "" witness "a"

  const MAX_DEPTH := 8

  /** The parent named for an application, if that one exists. */
  function Parent(keys: set<Id>, parentOf: map<Id, Id>, id: Id): Option<Id> {
    if id in parentOf && parentOf[id] in keys then Some(parentOf[id]) else None
  }

  /** From `cur`, `depth` steps above `id`: the end of the chain, nothing if the chain comes back
      to `id`, goes on after eight steps or has no step at all. */
  function Climb(keys: set<Id>, parentOf: map<Id, Id>, id: Id, cur: Id, depth: nat): Option<Id>
    decreases MAX_DEPTH - depth
  {
    var p := Parent(keys, parentOf, cur);
    if depth >= MAX_DEPTH || p.None? then (if p.Some? || cur == id then None else Some(cur))
    else if p.value == id then None
    else Climb(keys, parentOf, id, p.value, depth + 1)
  }

  function RootOf(keys: set<Id>, parentOf: map<Id, Id>, id: Id): Option<Id> { Climb(keys, parentOf, id, id, 0) }

  datatype App = App(name: string, category: string, suffixes: seq<string>)

  function Absorbed(keys: set<Id>, parentOf: map<Id, Id>): set<Id> {
    set id <- keys | RootOf(keys, parentOf, id).Some?
  }

  function Elems(s: seq<string>): set<string> { set x | x in s }

  /** The suffixes of an application and of those attached to it, among `done`. */
  function Gathered(apps: map<Id, App>, parentOf: map<Id, Id>, done: set<Id>, r: Id): set<string>
    requires r in apps
  {
    Elems(apps[r].suffixes)
    + (set id, s | id in done && id in apps && RootOf(apps.Keys, parentOf, id) == Some(r)
                     && s in apps[id].suffixes :: s)
  }

  predicate NoDup(s: seq<string>) { forall i, j :: 0 <= i < j < |s| ==> s[i] != s[j] }

  /** `b` is `a` grown at the end, by new elements only, to exactly the given ones. */
  predicate Grown(a: seq<string>, b: seq<string>, all: set<string>) {
    a <= b && Elems(b) == all && (NoDup(a) ==> NoDup(b))
  }

  /** The catalogue before and after the children in `done` were merged; none is deleted yet. */
  predicate MergedTo(a: map<Id, App>, parentOf: map<Id, Id>, done: set<Id>, b: map<Id, App>) {
    b.Keys == a.Keys && forall r <- a :: MergedAt(a, parentOf, done, r, b[r])
  }

  predicate MergedAt(a: map<Id, App>, parentOf: map<Id, Id>, done: set<Id>, r: Id, now: App)
    requires r in a
  {
    && now.name == a[r].name && now.category == a[r].category
    && if RootOf(a.Keys, parentOf, r).Some? then now == a[r]
       else Grown(a[r].suffixes, now.suffixes, Gathered(a, parentOf, done, r))
  }

  /** The catalogue before and after: the attached applications are gone, every other one has its
      own suffixes, in place, and those of the applications attached to it. */
  predicate Attached(a: map<Id, App>, parentOf: map<Id, Id>, b: map<Id, App>) {
    && b.Keys == a.Keys - Absorbed(a.Keys, parentOf)
    && forall r <- b :: b[r].name == a[r].name && b[r].category == a[r].category
                        && Grown(a[r].suffixes, b[r].suffixes, Gathered(a, parentOf, a.Keys, r))
  }

  class Catalog {
    var apps: map<Id, App>

    constructor (a: map<Id, App>)
      ensures apps == a
    {
      apps := a;
    }

    method FindRoot(parentOf: map<Id, Id>, id: Id) returns (r: Option<Id>)
      ensures r == RootOf(apps.Keys, parentOf, id)
    {
      var cur := id;
      var depth := 0;
      while depth < MAX_DEPTH && cur in parentOf && parentOf[cur] in apps
        invariant 0 <= depth <= MAX_DEPTH
        invariant Climb(apps.Keys, parentOf, id, cur, depth) == RootOf(apps.Keys, parentOf, id)
        decreases MAX_DEPTH - depth
      {
        var p := parentOf[cur];
        if p == id {
          return None;
        }
        cur := p;
        depth := depth + 1;
      }
      if cur in parentOf && parentOf[cur] in apps {
        return None;
      }
      return if cur == id then None else Some(cur);
    }

    method FindRoots(parentOf: map<Id, Id>, ids: set<Id>) returns (roots: map<Id, Id>)
      ensures roots.Keys == set id <- ids | RootOf(apps.Keys, parentOf, id).Some?
      ensures forall id <- roots :: RootOf(apps.Keys, parentOf, id) == Some(roots[id])
    {
      hide RootOf;
      roots := map[];
      var todo := ids;
      while todo != {}
        invariant todo <= ids
        invariant roots.Keys == set id <- ids - todo | RootOf(apps.Keys, parentOf, id).Some?
        invariant forall id <- roots :: RootOf(apps.Keys, parentOf, id) == Some(roots[id])
        decreases |todo|
      {
        var id :| id in todo;
        var r := FindRoot(parentOf, id);
        if r.Some? {
          roots := roots[id := r.value];
        }
        todo := todo - {id};
      }
    }

    method Attach(parentOf: map<Id, Id>)
      modifies this
      ensures Attached(old(apps), parentOf, apps)
    {
      hide RootOf, MergedTo, Attached, Absorbed;
      ghost var a := apps;
      var ids := set id <- parentOf | id in apps;
      var roots := FindRoots(parentOf, ids);
      RootsAre(a, parentOf, ids, roots);
      var todo := roots.Keys;
      ghost var done: set<Id> := {};
      NothingMerged(a, parentOf);
      while todo != {}
        invariant done + todo == roots.Keys && MergedTo(a, parentOf, done, apps) && apps.Keys == a.Keys
        decreases |todo|
      {
        var id :| id in todo;
        var r := roots[id];
        RootStays(a.Keys, parentOf, id);
        var merged := Merge(apps[r].suffixes, apps[id].suffixes);
        MergeStep(a, parentOf, done, id, r, apps, merged);
        apps := apps[r := apps[r].(suffixes := merged)];
        done := done + {id};
        todo := todo - {id};
      }
      assert done == roots.Keys;
      AllMerged(a, parentOf, done, apps);
      apps := apps - roots.Keys;
    }

    method Merge(dst: seq<string>, src: seq<string>) returns (r: seq<string>)
      ensures Grown(dst, r, Elems(dst) + Elems(src))
    {
      r := dst;
      for i := 0 to |src|
        invariant Grown(dst, r, Elems(dst) + Elems(src[..i]))
      {
        GrowOne(dst, r, src, i);
        if src[i] !in r {
          r := r + [src[i]];
        }
      }
      assert src[..|src|] == src;
    }
  }

  lemma GrowOne(dst: seq<string>, r: seq<string>, src: seq<string>, i: nat)
    requires i < |src| && Grown(dst, r, Elems(dst) + Elems(src[..i]))
    ensures Grown(dst, if src[i] in r then r else r + [src[i]], Elems(dst) + Elems(src[..i + 1]))
  {
    assert src[..i + 1] == src[..i] + [src[i]];
    assert Elems(src[..i + 1]) == Elems(src[..i]) + {src[i]};
    assert Elems(r + [src[i]]) == Elems(r) + {src[i]};
  }

  lemma RootsAre(a: map<Id, App>, parentOf: map<Id, Id>, ids: set<Id>, roots: map<Id, Id>)
    requires ids == (set id <- parentOf | id in a)
    requires roots.Keys == set id <- ids | RootOf(a.Keys, parentOf, id).Some?
    ensures roots.Keys == Absorbed(a.Keys, parentOf) && roots.Keys <= a.Keys
  {
  }

  lemma NothingMerged(a: map<Id, App>, parentOf: map<Id, Id>)
    ensures MergedTo(a, parentOf, {}, a)
  {
    hide RootOf;
  }

  lemma MergeStep(a: map<Id, App>, parentOf: map<Id, Id>, done: set<Id>, id: Id, r: Id, b: map<Id, App>,
                  merged: seq<string>)
    requires MergedTo(a, parentOf, done, b) && id in a && r in a && RootOf(a.Keys, parentOf, id) == Some(r)
            && RootOf(a.Keys, parentOf, r).None?
    requires Grown(b[r].suffixes, merged, Elems(b[r].suffixes) + Elems(b[id].suffixes))
    ensures MergedTo(a, parentOf, done + {id}, b[r := b[r].(suffixes := merged)])
  {
    hide MergedAt, RootOf, Grown;
    forall q <- a | q != r ensures MergedAt(a, parentOf, done + {id}, q, b[q]) {
      OtherKept(a, parentOf, done, id, q, b[q]);
    }
    assert MergedAt(a, parentOf, done, id, b[id]);
    RootGrown(a, parentOf, done, id, r, b[r], b[id], merged);
  }

  lemma OtherKept(a: map<Id, App>, parentOf: map<Id, Id>, done: set<Id>, id: Id, q: Id, now: App)
    requires id in a && q in a && RootOf(a.Keys, parentOf, id) != Some(q) && MergedAt(a, parentOf, done, q, now)
    ensures MergedAt(a, parentOf, done + {id}, q, now)
  {
    GatherOne(a, parentOf, done, id, q);
    assert Gathered(a, parentOf, done, q) + {} == Gathered(a, parentOf, done, q);
    hide RootOf, Gathered, Grown;
  }

  lemma RootGrown(a: map<Id, App>, parentOf: map<Id, Id>, done: set<Id>, id: Id, r: Id, now: App, child: App,
                  merged: seq<string>)
    requires id in a && r in a && RootOf(a.Keys, parentOf, id) == Some(r) && RootOf(a.Keys, parentOf, r).None?
    requires MergedAt(a, parentOf, done, r, now) && MergedAt(a, parentOf, done, id, child)
    requires Grown(now.suffixes, merged, Elems(now.suffixes) + Elems(child.suffixes))
    ensures MergedAt(a, parentOf, done + {id}, r, now.(suffixes := merged))
  {
    GatherOne(a, parentOf, done, id, r);
    hide RootOf, Gathered, NoDup, Elems;
  }

  lemma GatherOne(a: map<Id, App>, parentOf: map<Id, Id>, done: set<Id>, id: Id, q: Id)
    requires id in a && q in a
    ensures Gathered(a, parentOf, done + {id}, q) ==
            Gathered(a, parentOf, done, q) + if RootOf(a.Keys, parentOf, id) == Some(q) then Elems(a[id].suffixes)
              else {}
  {
    hide RootOf;
  }

  lemma AllMerged(a: map<Id, App>, parentOf: map<Id, Id>, roots: set<Id>, b: map<Id, App>)
    requires roots == Absorbed(a.Keys, parentOf) && MergedTo(a, parentOf, roots, b)
    ensures Attached(a, parentOf, b - roots)
  {
    hide RootOf, Grown;
    forall r <- a ensures Gathered(a, parentOf, roots, r) == Gathered(a, parentOf, a.Keys, r) {
    }
    hide Gathered;
    assert forall r <- a :: MergedAt(a, parentOf, roots, r, b[r]);
  }

  // ----- Chains -----

  /** From `id`, exactly `n` steps lead to an application without an existing parent. */
  predicate Ends(keys: set<Id>, parentOf: map<Id, Id>, id: Id, n: nat)
    decreases n
  {
    var p := Parent(keys, parentOf, id);
    if n == 0 then p.None? else p.Some? && Ends(keys, parentOf, p.value, n - 1)
  }

  function Above(keys: set<Id>, parentOf: map<Id, Id>, id: Id, n: nat): Id
    decreases n
  {
    var p := Parent(keys, parentOf, id);
    if n == 0 || p.None? then id else Above(keys, parentOf, p.value, n - 1)
  }

  lemma {:induction false} EndsOnce(keys: set<Id>, parentOf: map<Id, Id>, id: Id, m: nat, n: nat)
    requires Ends(keys, parentOf, id, m) && Ends(keys, parentOf, id, n)
    ensures m == n
    decreases m
  {
    if m > 0 && n > 0 {
      EndsOnce(keys, parentOf, Parent(keys, parentOf, id).value, m - 1, n - 1);
    }
  }

  lemma {:induction false} EndsAbove(keys: set<Id>, parentOf: map<Id, Id>, id: Id, n: nat, k: nat)
    requires Ends(keys, parentOf, id, n) && k <= n
    ensures Ends(keys, parentOf, Above(keys, parentOf, id, k), n - k)
            && (id in keys ==> Above(keys, parentOf, id, k) in keys)
    decreases k
  {
    if k > 0 {
      EndsAbove(keys, parentOf, Parent(keys, parentOf, id).value, n - 1, k - 1);
    }
  }

  /** A chain that ends does not come back to where it started. */
  lemma EndsNotCircular(keys: set<Id>, parentOf: map<Id, Id>, id: Id, n: nat, k: nat)
    requires Ends(keys, parentOf, id, n) && 0 < k <= n
    ensures Above(keys, parentOf, id, k) != id
  {
    EndsAbove(keys, parentOf, id, n, k);
    if Above(keys, parentOf, id, k) == id {
      EndsOnce(keys, parentOf, id, n, n - k);
    }
  }

  lemma {:induction false} ClimbEnds(keys: set<Id>, parentOf: map<Id, Id>, id: Id, cur: Id, depth: nat) returns (n: nat)
    requires depth <= MAX_DEPTH && Climb(keys, parentOf, id, cur, depth).Some?
    ensures n <= MAX_DEPTH - depth && Ends(keys, parentOf, cur, n)
    ensures Climb(keys, parentOf, id, cur, depth) == Some(Above(keys, parentOf, cur, n))
            && Above(keys, parentOf, cur, n) != id
    decreases MAX_DEPTH - depth
  {
    var p := Parent(keys, parentOf, cur);
    if p.None? {
      n := 0;
    } else {
      n := ClimbEnds(keys, parentOf, id, p.value, depth + 1);
      n := n + 1;
    }
  }

  lemma {:induction false} EndsClimb(keys: set<Id>, parentOf: map<Id, Id>, id: Id, cur: Id, depth: nat, n: nat)
    requires depth + n <= MAX_DEPTH && Ends(keys, parentOf, cur, n)
    requires forall k :: 0 < k <= n ==> Above(keys, parentOf, cur, k) != id
    requires n == 0 ==> cur != id
    ensures Climb(keys, parentOf, id, cur, depth) == Some(Above(keys, parentOf, cur, n))
    decreases n
  {
    if n > 0 {
      var p := Parent(keys, parentOf, cur).value;
      assert Above(keys, parentOf, cur, 1) == Above(keys, parentOf, p, 0) == p;
      assert forall k :: 0 < k <= n - 1 ==> Above(keys, parentOf, p, k) == Above(keys, parentOf, cur, k + 1);
      EndsClimb(keys, parentOf, id, p, depth + 1, n - 1);
    }
  }

  /** An application is attached exactly if its chain of parents ends after one to eight steps,
      and then to the end of the chain; members of circles and deeper ones stay as they are. */
  lemma RootIsEnd(keys: set<Id>, parentOf: map<Id, Id>, id: Id, n: nat)
    ensures RootOf(keys, parentOf, id).Some? ==> exists k :: 1 <= k <= MAX_DEPTH && Ends(keys, parentOf, id, k)
    ensures Ends(keys, parentOf, id, n) ==>
            RootOf(keys, parentOf, id) == if 1 <= n <= MAX_DEPTH then Some(Above(keys, parentOf, id, n)) else None
  {
    if RootOf(keys, parentOf, id).Some? {
      var k := ClimbEnds(keys, parentOf, id, id, 0);
      if Ends(keys, parentOf, id, n) {
        EndsOnce(keys, parentOf, id, k, n);
      }
    } else if Ends(keys, parentOf, id, n) && 1 <= n <= MAX_DEPTH {
      forall k | 0 < k <= n ensures Above(keys, parentOf, id, k) != id {
        EndsNotCircular(keys, parentOf, id, n, k);
      }
      EndsClimb(keys, parentOf, id, id, 0, n);
    }
  }

  /** No root is ever deleted. */
  lemma RootStays(keys: set<Id>, parentOf: map<Id, Id>, id: Id)
    requires id in keys && RootOf(keys, parentOf, id).Some?
    ensures var r := RootOf(keys, parentOf, id).value; r in keys && r != id && RootOf(keys, parentOf, r).None?
  {
    var n := ClimbEnds(keys, parentOf, id, id, 0);
    EndsAbove(keys, parentOf, id, n, n);
    RootIsEnd(keys, parentOf, Above(keys, parentOf, id, n), 0);
  }

  /** A member of a circle is never attached. */
  lemma CirclesStay(keys: set<Id>, parentOf: map<Id, Id>, id: Id, k: nat)
    requires k > 0 && Parent(keys, parentOf, id).Some? && Above(keys, parentOf, id, k) == id
    ensures RootOf(keys, parentOf, id).None?
  {
    if RootOf(keys, parentOf, id).Some? {
      var n := ClimbEnds(keys, parentOf, id, id, 0);
      if k <= n {
        EndsNotCircular(keys, parentOf, id, n, k);
      } else {
        AboveStops(keys, parentOf, id, n, k);
      }
    }
  }

  lemma {:induction false} AboveStops(keys: set<Id>, parentOf: map<Id, Id>, id: Id, n: nat, k: nat)
    requires Ends(keys, parentOf, id, n) && n <= k
    ensures Above(keys, parentOf, id, k) == Above(keys, parentOf, id, n)
    decreases n
  {
    if n > 0 {
      AboveStops(keys, parentOf, Parent(keys, parentOf, id).value, n - 1, k - 1);
    }
  }

  // ----- What attaching keeps -----

  predicate Somewhere(apps: map<Id, App>, s: string) { exists id :: id in apps && s in apps[id].suffixes }

  /** No suffix is lost and none is made up; those of an attached application are with its root. */
  lemma SuffixesKept(a: map<Id, App>, parentOf: map<Id, Id>, b: map<Id, App>, s: string)
    requires Attached(a, parentOf, b)
    ensures Somewhere(a, s) <==> Somewhere(b, s)
    ensures forall id <- a :: s in a[id].suffixes ==>
              var r := RootOf(a.Keys, parentOf, id).GetOr(id); r in b && s in b[r].suffixes
  {
    hide RootOf, NoDup;
    forall id <- a | s in a[id].suffixes
      ensures var r := RootOf(a.Keys, parentOf, id).GetOr(id); r in b && s in b[r].suffixes
    {
      var root := RootOf(a.Keys, parentOf, id);
      if root.Some? {
        RootStays(a.Keys, parentOf, id);
      }
      var r := root.GetOr(id);
      assert r in b && s in Gathered(a, parentOf, a.Keys, r);
    }
    forall r <- b | s in b[r].suffixes ensures Somewhere(a, s) {
      assert s in Gathered(a, parentOf, a.Keys, r);
    }
  }

  // ----- A second pass -----

  /** A second pass finds nothing to attach exactly if no chain of ten or more steps ends: of such
      a chain the upper part is gone after the first pass, so a lower part that was too deep then
      is not too deep any more. */
  lemma SecondPass(keys: set<Id>, parentOf: map<Id, Id>)
    ensures var left := keys - Absorbed(keys, parentOf);
      Absorbed(left, parentOf) == {} <==>
        !exists id, n :: id in keys && n >= MAX_DEPTH + 2 && Ends(keys, parentOf, id, n)
  {
    var left := keys - Absorbed(keys, parentOf);
    if id, n :| id in keys && n >= MAX_DEPTH + 2 && Ends(keys, parentOf, id, n) {
      TooDeepIsAttached(keys, parentOf, id, n);
    }
    if id :| id in Absorbed(left, parentOf) {
      AttachedWasTooDeep(keys, parentOf, id);
    }
  }

  lemma TooDeepIsAttached(keys: set<Id>, parentOf: map<Id, Id>, id: Id, n: nat)
    requires id in keys && n >= MAX_DEPTH + 2 && Ends(keys, parentOf, id, n)
    ensures Absorbed(keys - Absorbed(keys, parentOf), parentOf) != {}
  {
    var left := keys - Absorbed(keys, parentOf);
    EndsAbove(keys, parentOf, id, n, n - (MAX_DEPTH + 2));
    var x := Above(keys, parentOf, id, n - (MAX_DEPTH + 2));
    var p := Parent(keys, parentOf, x).value;
    var q := Parent(keys, parentOf, p).value;
    RootIsEnd(keys, parentOf, x, MAX_DEPTH + 2);
    RootIsEnd(keys, parentOf, p, MAX_DEPTH + 1);
    RootIsEnd(keys, parentOf, q, MAX_DEPTH);
    assert Parent(left, parentOf, x) == Some(p) && Parent(left, parentOf, p).None?;
    assert Ends(left, parentOf, p, 0);
    assert Ends(left, parentOf, x, 1);
    RootIsEnd(left, parentOf, x, 1);
    assert x in Absorbed(left, parentOf);
  }

  /** Along what is left, the whole chain has as many steps more as its end had. */
  lemma {:induction false} EndsInLeft(keys: set<Id>, left: set<Id>, parentOf: map<Id, Id>, id: Id, k: nat, m: nat)
    requires left <= keys && Ends(left, parentOf, id, k) && Ends(keys, parentOf, Above(left, parentOf, id, k), m)
    ensures Ends(keys, parentOf, id, k + m)
    decreases k
  {
    if k > 0 {
      EndsInLeft(keys, left, parentOf, Parent(left, parentOf, id).value, k - 1, m);
    }
  }

  lemma AttachedWasTooDeep(keys: set<Id>, parentOf: map<Id, Id>, id: Id)
    requires id in Absorbed(keys - Absorbed(keys, parentOf), parentOf)
    ensures id in keys && exists n :: n >= MAX_DEPTH + 2 && Ends(keys, parentOf, id, n)
  {
    hide RootOf, Above;
    var left := keys - Absorbed(keys, parentOf);
    RootIsEnd(left, parentOf, id, 0);
    var k :| 1 <= k <= MAX_DEPTH && Ends(left, parentOf, id, k);
    var e := Above(left, parentOf, id, k);
    EndsAbove(left, parentOf, id, k, k);
    if Parent(keys, parentOf, e).None? {
      EndsInLeft(keys, left, parentOf, id, k, 0);
      RootIsEnd(keys, parentOf, id, k);
    } else {
      var q := Parent(keys, parentOf, e).value;
      assert q in Absorbed(keys, parentOf);
      RootIsEnd(keys, parentOf, q, 0);
      var m :| 1 <= m <= MAX_DEPTH && Ends(keys, parentOf, q, m);
      assert Ends(keys, parentOf, e, m + 1);
      RootIsEnd(keys, parentOf, e, m + 1);
      EndsInLeft(keys, left, parentOf, id, k, m + 1);
    }
  }

  // ----- A catalogue that a second pass changes -----

  function Nth(k: nat): Id { seq(k + 1, i => 'a') }

  /** Eleven applications, each but the first the child of the one before. */
  const TEN_KEYS: set<Id> := set k: nat | k <= MAX_DEPTH + 2 :: Nth(k)

  const TEN_PARENTS: map<Id, Id> := map id: Id | id in TEN_KEYS && |id| > 1 :: Nth(|id| - 2)

  lemma {:induction false} TenEnds(k: nat)
    requires k <= MAX_DEPTH + 2
    ensures Ends(TEN_KEYS, TEN_PARENTS, Nth(k), k)
  {
    assert Nth(k) in TEN_KEYS && |Nth(k)| == k + 1;
    if k > 0 {
      assert Nth(k - 1) in TEN_KEYS;
      assert Parent(TEN_KEYS, TEN_PARENTS, Nth(k)) == Some(Nth(k - 1));
      TenEnds(k - 1);
    }
  }

  lemma TwoPassesDiffer()
    ensures Absorbed(TEN_KEYS - Absorbed(TEN_KEYS, TEN_PARENTS), TEN_PARENTS) != {}
  {
    TenEnds(MAX_DEPTH + 2);
    assert Nth(MAX_DEPTH + 2) in TEN_KEYS;
    TooDeepIsAttached(TEN_KEYS, TEN_PARENTS, Nth(MAX_DEPTH + 2), MAX_DEPTH + 2);
  }
}
