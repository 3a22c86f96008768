/**
 What an import claims in the end (tools/import_v2fly.py:251-303), stated on the lists themselves: which
 hosts a group of lists offers, and which target gets each of them.
 */
module DomainImport {
  import opened Common
  import opened ImportV2fly
  import opened DomainClaims

  /** An include line lets an entry through: every plain attribute it names is there, and none that it
      names with a dash. */
  ghost predicate Lets(attrs: seq<string>, filter: seq<string>) {
    && (forall f <- filter :: "-" <= f ==> f[1..] !in attrs)
    && (forall f <- filter :: f in attrs || "-" <= f)
  }

  lemma FilterIff(attrs: seq<string>, filter: seq<string>)
    ensures FilterOK(attrs, filter) <==> Lets(attrs, filter)
  {
  }

  /** A route of include lines leads from a list to one that has the line, and each of them lets it through. */
  ghost predicate LeadsTo(src: Lists, skip: set<Name>, from: Name, hops: seq<Hop>, to: Name, line: Line) {
    && Route(src, skip, from, hops) && End(from, hops) == to && to in src && line in src[to] && line.Entry?
    && forall h <- hops :: Lets(line.attrs, h.attrs)
  }

  lemma CarriesIff(src: Lists, skip: set<Name>, from: Name, hops: seq<Hop>, item: Item)
    ensures Carries(src, skip, from, hops, item) <==>
            LeadsTo(src, skip, from, hops, item.from, Entry(item.kind, item.value, item.attrs))
  {
    hide FilterOK, Lets, Route, End;
    forall h <- hops ensures FilterOK(item.attrs, h.attrs) <==> Lets(item.attrs, h.attrs) {
      FilterIff(item.attrs, h.attrs);
    }
  }

  /** A line of a list names the host: a plain one, not an advertising one in a category without
      advertising, whose host is well formed, no public suffix, not blocked, and neither excluded itself nor
      below an excluded one. */
  ghost predicate Names(env: Env, line: Line, category: string, excluded: set<Host>, h: Host) {
    && line.Entry? && line.kind != "keyword" && line.kind != "regexp"
    && ("ads" in line.attrs ==> category in env.adsCategories)
    && h == env.norm(line.value) && env.valid(h) && !env.publicSuffix(h) && h !in env.blocked
    && forall x <- excluded :: !Covers(x, h)
  }

  lemma CandidateIff(env: Env, item: Item, category: string, excluded: set<Host>, h: Host)
    ensures Candidate(env, item, category, excluded) == Some(h) <==>
            Names(env, Entry(item.kind, item.value, item.attrs), category, excluded, h)
  {
    var g := env.norm(item.value);
    LongestIsLongest(g, Marks(excluded));
    assert LongestOwner(g, Marks(excluded)).Some? <==> exists x <- excluded :: Covers(x, g);
    hide LongestOwner, Covers;
  }

  /** No include route from the list leads to one that is missing. */
  ghost predicate Whole(src: Lists, l: ListIn) {
    forall hops :: Route(src, l.skip, l.name, hops) ==> End(l.name, hops) in src
  }

  /** The host is named by a line that some include route of the list leads to. */
  ghost predicate ListOffers(env: Env, src: Lists, category: string, l: ListIn, h: Host) {
    Whole(src, l) && exists hops, to, line ::
      LeadsTo(src, l.skip, l.name, hops, to, line) && Names(env, line, category, l.excluded, h)
  }

  lemma ListOffersIff(env: Env, src: Lists, category: string, l: ListIn, h: Host)
    ensures h in ListHosts(env, src, category, l) <==> ListOffers(env, src, category, l, h)
  {
    hide Candidate, Names, LeadsTo, Carries, Route, Expand;
    FailsIfMissing(src, l.name, l.skip);
    if h in ListHosts(env, src, category, l) {
      var items := Items(src, l);
      var i :| 0 <= i < |items| && Candidate(env, items[i], category, l.excluded) == Some(h);
      FindsEverything(src, l.name, l.skip, items[i]);
      var hops :| Carries(src, l.skip, l.name, hops, items[i]);
      CarriesIff(src, l.skip, l.name, hops, items[i]);
      CandidateIff(env, items[i], category, l.excluded, h);
    }
    if ListOffers(env, src, category, l, h) {
      var hops, to, line :|
        LeadsTo(src, l.skip, l.name, hops, to, line) && Names(env, line, category, l.excluded, h);
      Offered(env, src, category, l, h, hops, to, line);
    }
  }

  lemma Offered(env: Env, src: Lists, category: string, l: ListIn, h: Host, hops: seq<Hop>, to: Name, line: Line)
    requires Expand(src, l.name, l.skip, [], []).Expanded?
    requires LeadsTo(src, l.skip, l.name, hops, to, line) && Names(env, line, category, l.excluded, h)
    ensures h in ListHosts(env, src, category, l)
  {
    assert line.Entry?;
    var item := Item(line.kind, line.value, line.attrs, to);
    hide Candidate, Names, LeadsTo, Carries, Expand;
    CarriesIff(src, l.skip, l.name, hops, item);
    FindsEverything(src, l.name, l.skip, item);
    CandidateIff(env, item, category, l.excluded, h);
    var items := Items(src, l);
    var i :| 0 <= i < |items| && items[i] == item;
  }

  /** Some list of the group offers the host. */
  ghost predicate Offers(env: Env, src: Lists, g: Group, h: Host) {
    exists l <- g.lists :: ListOffers(env, src, g.category, l, h)
  }

  lemma OffersIff(env: Env, src: Lists, g: Group, h: Host)
    ensures h in GroupHosts(env, src, g) <==> Offers(env, src, g, h)
  {
    hide ListHosts, ListOffers;
    forall l: ListIn ensures h in ListHosts(env, src, g.category, l) <==> ListOffers(env, src, g.category, l, h) {
      ListOffersIff(env, src, g.category, l, h);
    }
  }

  /** What the import claims, for every host: it goes to the target of the first group that offers it, if
      no existing suffix covers it, and to none otherwise. */
  lemma ClaimedExactly(env: Env, src: Lists, groups: seq<Group>, owners: Owners, claimed: Owners, h: Host)
    requires Settled(env, src, groups, |groups|, owners, claimed)
    ensures h in claimed <==>
            (forall s <- owners :: !Covers(s, h)) && exists g <- groups :: Offers(env, src, g, h)
    ensures h in claimed ==>
              exists k: nat :: k < |groups| && claimed[h] == groups[k].target && Offers(env, src, groups[k], h)
                && forall j :: 0 <= j < k ==> !Offers(env, src, groups[j], h)
  {
    hide GroupHosts, Offers, LongestOwner, Covers;
    forall g: Group ensures h in GroupHosts(env, src, g) <==> Offers(env, src, g, h) {
      OffersIff(env, src, g, h);
    }
    LongestIsLongest(h, owners);
    assert Owned(h, owners) <==> exists s <- owners :: Covers(s, h);
    if h in claimed {
      var k :| 0 <= k < |groups| && FirstGroup(env, src, groups, k, h) && claimed[h] == groups[k].target;
      assert groups[k] in groups;
    }
  }
}
