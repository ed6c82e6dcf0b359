/** The depth-bounded, cycle-safe walk over a gov.uk manual. The site is a map
    from path to page; a path outside the map is a page whose fetch fails. */
module GovukWalk {
  import opened Prelude

  datatype Section = Section(basePath: string, title: string, description: string)

  datatype Page = Page(
    title: string,
    body: string,
    groups: seq<seq<Section>>,
    linkChildren: seq<Section>,
    linkSections: seq<Section>)

  datatype Leaf = Leaf(title: string, url: string, html: string)

  type Site = map<string, Page>

  const GOVUK: string := "https://www.gov.uk"

  // ---- One page -----------------------------------------------------------

  function Named(sections: seq<Section>): seq<Section> {
    if sections == [] then []
    else (if sections[0].basePath == "" then [] else [sections[0]]) + Named(sections[1..])
  }

  function Flatten(groups: seq<seq<Section>>): seq<Section> {
    if groups == [] then [] else groups[0] + Flatten(groups[1..])
  }

  /** Children listed in groups win; links are read only when there are none. */
  function ChildSections(page: Page): seq<Section> {
    var grouped := Named(Flatten(page.groups));
    if grouped != [] then grouped
    else Named(if page.linkChildren != [] then page.linkChildren else page.linkSections)
  }

  lemma {:induction false} NamedSplits(a: seq<Section>, b: seq<Section>)
    ensures Named(a + b) == Named(a) + Named(b)
  {
    if a == [] {
      assert a + b == b;
    } else {
      var head := if a[0].basePath == "" then [] else [a[0]];
      var all := a + b;
      assert all[0] == a[0] && all[1..] == a[1..] + b;
      NamedSplits(a[1..], b);
      assert Named(all) == head + (Named(a[1..]) + Named(b));
      assert head + (Named(a[1..]) + Named(b)) == head + Named(a[1..]) + Named(b);
    }
  }

  method AppendNamed(out: seq<Section>, sections: seq<Section>) returns (r: seq<Section>)
    ensures r == out + Named(sections)
  {
    r := out;
    for i := 0 to |sections|
      invariant r + Named(sections[i..]) == out + Named(sections)
    {
      ghost var head := if sections[i].basePath == "" then [] else [sections[i]];
      assert sections[i..][1..] == sections[i + 1..];
      assert r + (head + Named(sections[i + 1..])) == r + head + Named(sections[i + 1..]);
      if sections[i].basePath != "" {
        r := r + [sections[i]];
      }
    }
  }

  /** The groups are laid end to end. */
  lemma {:induction false} FlattenOneMore(groups: seq<seq<Section>>, g: seq<Section>)
    ensures Flatten(groups + [g]) == Flatten(groups) + g
  {
    if groups == [] {
      assert Flatten([]) == [] && ([] + [g])[1..] == [];
    } else {
      assert (groups + [g])[1..] == groups[1..] + [g];
      FlattenOneMore(groups[1..], g);
    }
  }

  lemma {:induction false} NextGroup(groups: seq<seq<Section>>, i: nat)
    requires i < |groups|
    ensures Named(Flatten(groups[..i + 1])) == Named(Flatten(groups[..i])) + Named(groups[i])
  {
    TakeOneMore(groups, i);
    FlattenOneMore(groups[..i], groups[i]);
    NamedSplits(Flatten(groups[..i]), groups[i]);
  }

  method GovukChildPaths(page: Page) returns (out: seq<Section>)
    ensures out == ChildSections(page)
  {
    out := [];
    for i := 0 to |page.groups|
      invariant out == Named(Flatten(page.groups[..i]))
    {
      NextGroup(page.groups, i);
      out := AppendNamed(out, page.groups[i]);
    }
    assert page.groups[..|page.groups|] == page.groups;
    if out == [] {
      out := AppendNamed(out, if page.linkChildren != [] then page.linkChildren else page.linkSections);
    }
  }

  lemma {:induction false} NamedExactly(sections: seq<Section>, s: Section)
    ensures s in Named(sections) <==> s in sections && s.basePath != ""
  {
    if sections != [] {
      NamedExactly(sections[1..], s);
    }
  }

  ghost function NamedPositions(sections: seq<Section>): set<nat> {
    set i: nat | i < |sections| && sections[i].basePath != ""
  }

  /** The named sections, each where it stands and as often. */
  lemma {:induction false} NamedSelects(sections: seq<Section>)
    ensures Selection(Named(sections), sections, NamedPositions(sections))
  {
    if sections == [] {
      SelectNothing<Section>();
      assert NamedPositions(sections) == {};
    } else {
      var n := |sections| - 1;
      var front, last := sections[..n], sections[n];
      NamedSelects(front);
      Rejoin(sections);
      NamedSplits(front, [last]);
      assert Named([last][1..]) == [] && [last][0] == last;
      if last.basePath != "" {
        SelectTake(Named(front), front, NamedPositions(front), last);
        assert NamedPositions(sections) == NamedPositions(front) + {n};
      } else {
        SelectSkip(Named(front), front, NamedPositions(front), last);
        assert NamedPositions(sections) == NamedPositions(front);
        assert Named(front) + [] == Named(front);
      }
    }
  }

  ghost predicate IsGrouped(groups: seq<seq<Section>>, s: Section) {
    exists i :: 0 <= i < |groups| && s in groups[i]
  }

  lemma {:induction false} FlattenExactly(groups: seq<seq<Section>>, s: Section)
    ensures s in Flatten(groups) <==> IsGrouped(groups, s)
  {
    if groups != [] {
      FlattenExactly(groups[1..], s);
      if IsGrouped(groups[1..], s) {
        var i :| 0 <= i < |groups[1..]| && s in groups[1..][i];
        assert s in groups[i + 1];
      }
      if IsGrouped(groups, s) && s !in groups[0] {
        var i :| 0 <= i < |groups| && s in groups[i];
        assert s in groups[1..][i - 1];
      }
    }
  }

  lemma {:induction false} NamedIsEmptyIff(sections: seq<Section>)
    ensures Named(sections) != [] <==> exists s :: s in sections && s.basePath != ""
  {
    if Named(sections) != [] {
      NamedExactly(sections, Named(sections)[0]);
    }
    forall s | s in sections && s.basePath != ""
      ensures Named(sections) != []
    {
      NamedExactly(sections, s);
    }
  }

  /** The children in order: the named ones of the groups' sections, laid end to end,
      or of the links when the groups have none. */
  lemma {:induction false} ChildSectionsInOrder(page: Page)
    ensures var grouped := Flatten(page.groups);
            var links := if page.linkChildren != [] then page.linkChildren else page.linkSections;
            var source := if exists s :: s in grouped && s.basePath != "" then grouped else links;
            Selection(ChildSections(page), source, NamedPositions(source))
  {
    var grouped := Flatten(page.groups);
    NamedSelects(grouped);
    NamedSelects(if page.linkChildren != [] then page.linkChildren else page.linkSections);
    NamedIsEmptyIff(grouped);
  }

  /** Which sections are children: named ones, from the groups if any grouped
      section is named, and from the links otherwise. */
  lemma ChildSectionsExactly(page: Page, s: Section)
    ensures var grouped := exists g :: IsGrouped(page.groups, g) && g.basePath != "";
            s in ChildSections(page) <==>
              s.basePath != ""
              && if grouped then IsGrouped(page.groups, s)
                 else s in if page.linkChildren != [] then page.linkChildren else page.linkSections
  {
    var named := Named(Flatten(page.groups));
    forall g
      ensures g in named <==> IsGrouped(page.groups, g) && g.basePath != ""
    {
      FlattenExactly(page.groups, g);
      NamedExactly(Flatten(page.groups), g);
    }
    assert named != [] ==> named[0] in named;
    NamedExactly(if page.linkChildren != [] then page.linkChildren else page.linkSections, s);
  }

  ghost function Kids(site: Site, path: string): seq<string> {
    if path in site
    then var cs := ChildSections(site[path]); seq(|cs|, i requires 0 <= i < |cs| => cs[i].basePath)
    else []
  }

  function WrapHtml(body: string, title: string): string {
    "<!doctype html><html><head><meta charset='utf-8'><title>" + title + "</title></head><body><h1>"
    + title + "</h1>" + body + "</body></html>"
  }

  ghost predicate IsBodiedLeaf(site: Site, path: string) {
    path in site && Kids(site, path) == [] && site[path].body != ""
  }

  function LeafOf(path: string, page: Page): Leaf {
    var title := if page.title != "" then page.title else path;
    Leaf(title, GOVUK + path, WrapHtml(page.body, title))
  }

  /** What a leaf carries of its page: the address, the page's title or else its
      path, and a document showing that title over the whole body. */
  ghost predicate Carries(site: Site, p: string, leaf: Leaf) {
    && p in site && ChildSections(site[p]) == [] && site[p].body != ""
    && leaf.url == "https://www.gov.uk" + p
    && leaf.title == (if site[p].title == "" then p else site[p].title)
    && leaf.html == HeadFor(leaf.title) + site[p].body + "</body></html>"
  }

  /** The part of the document before the body: it depends on the title alone. */
  function HeadFor(title: string): string {
    "<!doctype html><html><head><meta charset='utf-8'><title>" + title + "</title></head><body><h1>" + title + "</h1>"
  }

  lemma LeafCarriesItsPage(site: Site, p: string)
    requires IsBodiedLeaf(site, p)
    ensures Carries(site, p, LeafOf(p, site[p]))
  {
    var page := site[p];
    assert |Kids(site, p)| == |ChildSections(page)|;
    var title := LeafOf(p, page).title;
    assert WrapHtml(page.body, title) == HeadFor(title) + page.body + "</body></html>";
  }

  lemma CutTail<T>(head: seq<T>, a: seq<T>, b: seq<T>, tail: seq<T>)
    requires head + a + tail == head + b + tail
    ensures a == b
  {
    assert (head + a + tail)[|head|..|head| + |a|] == a;
    assert |a| == |b|;
    assert (head + b + tail)[|head|..|head| + |b|] == b;
  }

  /** Pages with one title and different bodies give different documents. */
  lemma BodiesAreKeptApart(site: Site, p: string, q: string, a: Leaf, b: Leaf)
    requires Carries(site, p, a) && Carries(site, q, b) && a.title == b.title && site[p].body != site[q].body
    ensures a.html != b.html
  {
    if a.html == b.html {
      CutTail(HeadFor(a.title), site[p].body, site[q].body, "</body></html>");
    }
  }

  // ---- The walk as a function ---------------------------------------------

  /** `visited` and `out` are what the walk mutates; `fetched` is the log of
      requests in order, `cut` the branches it warned about and stopped at. */
  datatype Walk = Walk(visited: set<string>, fetched: seq<string>, cut: set<string>, out: seq<Leaf>)

  ghost function Room(depth: int, maxDepth: int): nat {
    if depth <= maxDepth then maxDepth + 1 - depth else 0
  }

  ghost function Visit(site: Site, path: string, w: Walk, depth: int, maxDepth: int): Walk
    decreases Room(depth, maxDepth), 0
  {
    if path in w.visited then w
    else if depth > maxDepth then
      w.(visited := w.visited + {path}, cut := w.cut + {path})
    else
      var v := w.(visited := w.visited + {path}, fetched := w.fetched + [path]);
      if path !in site then v
      else if Kids(site, path) != [] then VisitAll(site, Kids(site, path), v, depth + 1, maxDepth)
      else if site[path].body == "" then v
      else v.(out := v.out + [LeafOf(path, site[path])])
  }

  ghost function VisitAll(site: Site, kids: seq<string>, w: Walk, depth: int, maxDepth: int): Walk
    decreases Room(depth, maxDepth), 1 + |kids|
  {
    if kids == [] then w
    else VisitAll(site, kids[1..], Visit(site, kids[0], w, depth, maxDepth), depth, maxDepth)
  }

  ghost function Crawl(site: Site, root: string, maxDepth: int): Walk {
    Visit(site, root, Walk({}, [], {}, []), 0, maxDepth)
  }

  // ---- The walk as it runs ------------------------------------------------

  class Crawler {
    const site: Site
    const maxDepth: int
    var visited: set<string>
    var out: seq<Leaf>
    ghost var fetched: seq<string>
    ghost var cut: set<string>

    constructor (site: Site, maxDepth: int)
      ensures this.site == site && this.maxDepth == maxDepth
      ensures State() == Walk({}, [], {}, [])
    {
      this.site, this.maxDepth := site, maxDepth;
      visited, out, fetched, cut := {}, [], [], {};
    }

    ghost function State(): Walk
      reads this
    {
      Walk(visited, fetched, cut, out)
    }

    method WalkGovuk(path: string, depth: int)
      modifies this
      ensures State() == Visit(site, path, old(State()), depth, maxDepth)
      decreases Room(depth, maxDepth)
    {
      if path in visited {
        return;
      }
      visited := visited + {path};
      if depth > maxDepth {
        cut := cut + {path};
        return;
      }
      fetched := fetched + [path];
      if path !in site {
        return;
      }
      var children := GovukChildPaths(site[path]);
      if children != [] {
        ghost var kids, start := Kids(site, path), State();
        for i := 0 to |children|
          invariant VisitAll(site, kids[i..], State(), depth + 1, maxDepth)
                 == VisitAll(site, kids, start, depth + 1, maxDepth)
        {
          WalkGovuk(children[i].basePath, depth + 1);
        }
        return;
      }
      if site[path].body == "" {
        return;
      }
      out := out + [LeafOf(path, site[path])];
    }
  }

  method CrawlGovukManual(site: Site, root: string, maxDepth: int) returns (leaves: seq<Leaf>)
    ensures leaves == Crawl(site, root, maxDepth).out
    ensures forall leaf :: leaf in leaves ==>
              exists p :: p in Crawl(site, root, maxDepth).fetched && Carries(site, p, leaf)
  {
    var crawler := new Crawler(site, maxDepth);
    crawler.WalkGovuk(root, 0);
    leaves := crawler.out;
    LeavesCarryPages(site, root, maxDepth);
  }

  // ---- Reachability, independently of the walk ----------------------------

  ghost predicate IsRoute(site: Site, r: seq<string>) {
    |r| > 0 && forall i :: 0 <= i < |r| - 1 ==> r[i + 1] in Kids(site, r[i])
  }

  ghost predicate RouteBetween(site: Site, r: seq<string>, a: string, b: string) {
    IsRoute(site, r) && r[0] == a && r[|r| - 1] == b
  }

  ghost predicate Reachable(site: Site, a: string, b: string) {
    exists r :: RouteBetween(site, r, a, b)
  }

  /** Reachable from `a` along a route that repeats no page, in at most `n` steps. */
  ghost predicate Within(site: Site, a: string, b: string, n: int) {
    exists r :: RouteBetween(site, r, a, b) && Distinct(r) && |r| - 1 <= n
  }

  /** The same, with every page of the route among `pages`. */
  ghost predicate Via(site: Site, a: string, b: string, n: int, pages: seq<string>) {
    exists r :: RouteBetween(site, r, a, b) && Distinct(r) && |r| - 1 <= n && Among(r, pages)
  }

  ghost predicate Among(r: seq<string>, pages: seq<string>) {
    forall p :: p in r ==> p in pages
  }

  /** Some route to `b` meets none of the pages in `cut`. */
  ghost predicate Around(site: Site, a: string, b: string, cut: set<string>) {
    exists r :: RouteBetween(site, r, a, b) && Avoids(r, cut)
  }

  ghost predicate Avoids(r: seq<string>, cut: set<string>) {
    forall p :: p in r ==> p !in cut
  }

  /** Some route to `b` that repeats no page has more than `n` steps. */
  ghost predicate Beyond(site: Site, a: string, b: string, n: int) {
    exists r :: RouteBetween(site, r, a, b) && Distinct(r) && |r| - 1 > n
  }

  /** Every route from the root that repeats no page has at most `n` steps. */
  ghost predicate Shallow(site: Site, root: string, n: int) {
    forall r :: IsRoute(site, r) && Distinct(r) && r[0] == root ==> |r| - 1 <= n
  }

  ghost function Emitted(site: Site, fetched: seq<string>): seq<Leaf> {
    if fetched == [] then []
    else
      var n := |fetched| - 1;
      Emitted(site, fetched[..n])
      + (if IsBodiedLeaf(site, fetched[n]) then [LeafOf(fetched[n], site[fetched[n]])] else [])
  }

  ghost predicate UrlsDistinct(leaves: seq<Leaf>) {
    forall i, j :: 0 <= i < j < |leaves| ==> leaves[i].url != leaves[j].url
  }

  // ---- What every step keeps ----------------------------------------------

  /** `open` are the pages whose children are still being walked. */
  ghost predicate Inv(site: Site, root: string, maxDepth: int, w: Walk, open: set<string>) {
    && Distinct(w.fetched)
    && w.visited == Elements(w.fetched) + w.cut
    && Elements(w.fetched) !! w.cut
    && w.out == Emitted(site, w.fetched)
    && (forall p :: p in w.fetched ==> Via(site, root, p, maxDepth, w.fetched))
    && (forall p :: p in w.cut ==> Beyond(site, root, p, maxDepth))
    && (forall p :: p in w.fetched && p !in open ==> forall k :: k in Kids(site, p) ==> k in w.visited)
  }

  /** The ancestors of the page being visited, root first. */
  ghost predicate OnStack(site: Site, root: string, w: Walk, stack: seq<string>, path: string, depth: int) {
    && |stack| == depth
    && Distinct(stack)
    && Among(stack, w.fetched)
    && RouteBetween(site, stack + [path], root, path)
  }

  /** The walk just after requesting a page. */
  ghost function Opened(site: Site, path: string, w: Walk): Walk {
    var leaf := if IsBodiedLeaf(site, path) then [LeafOf(path, site[path])] else [];
    Walk(w.visited + {path}, w.fetched + [path], w.cut, w.out + leaf)
  }

  lemma {:induction false} VisitOpens(site: Site, path: string, w: Walk, depth: int, maxDepth: int)
    requires path !in w.visited && depth <= maxDepth
    ensures var kids, v := Kids(site, path), Opened(site, path, w);
            Visit(site, path, w, depth, maxDepth) == if kids == [] then v else VisitAll(site, kids, v, depth + 1, maxDepth)
  {
    assert w.out + [] == w.out;
  }

  lemma ViaMore(site: Site, root: string, p: string, n: int, pages: seq<string>, more: seq<string>)
    requires Via(site, root, p, n, pages)
    ensures Via(site, root, p, n, pages + more)
  {
    var r :| RouteBetween(site, r, root, p) && Distinct(r) && |r| - 1 <= n && Among(r, pages);
    assert Among(r, pages + more);
  }

  lemma AppendFetched(site: Site, root: string, maxDepth: int, w: Walk, stack: seq<string>, path: string)
    requires Inv(site, root, maxDepth, w, Elements(stack))
    requires OnStack(site, root, w, stack, path, |stack|) && path !in w.visited && |stack| <= maxDepth
    ensures Inv(site, root, maxDepth, Opened(site, path, w), Elements(stack + [path]))
  {
    var fetched := w.fetched + [path];
    FetchedGrows(w.fetched, path);
    StackGrows(w, stack, path);
    assert RouteBetween(site, stack + [path], root, path) && Among(stack + [path], fetched);
    assert Via(site, root, path, maxDepth, fetched);
    forall p | p in fetched
      ensures Via(site, root, p, maxDepth, fetched)
    {
      if p != path {
        ViaMore(site, root, p, maxDepth, w.fetched, [path]);
      }
    }
    assert fetched[..|fetched| - 1] == w.fetched;
  }

  lemma FetchedGrows(fetched: seq<string>, path: string)
    requires Distinct(fetched) && path !in fetched
    ensures Distinct(fetched + [path]) && Elements(fetched + [path]) == Elements(fetched) + {path}
  {
  }

  lemma StackGrows(w: Walk, stack: seq<string>, path: string)
    requires Distinct(stack) && Among(stack, w.fetched) && path !in w.fetched
    ensures Distinct(stack + [path]) && Among(stack + [path], w.fetched + [path])
  {
  }

  lemma PushStack(site: Site, root: string, w: Walk, stack: seq<string>, path: string, kids: seq<string>)
    requires OnStack(site, root, w, stack, path, |stack|) && path !in w.fetched && kids == Kids(site, path)
    ensures forall k :: k in kids ==>
              OnStack(site, root, Opened(site, path, w), stack + [path], k, |stack| + 1)
  {
    StackGrows(w, stack, path);
    forall k | k in kids
      ensures RouteBetween(site, stack + [path] + [k], root, k)
    {
      RouteExtends(site, stack + [path], root, path, k);
    }
  }

  lemma RouteExtends(site: Site, r: seq<string>, a: string, b: string, k: string)
    requires RouteBetween(site, r, a, b) && k in Kids(site, b)
    ensures RouteBetween(site, r + [k], a, k)
  {
    assert forall i :: 0 <= i < |r| ==> (r + [k])[i] == r[i];
  }

  lemma PopStack(site: Site, root: string, maxDepth: int, w: Walk, stack: seq<string>, path: string)
    requires Inv(site, root, maxDepth, w, Elements(stack + [path]))
    requires forall k :: k in Kids(site, path) ==> k in w.visited
    ensures Inv(site, root, maxDepth, w, Elements(stack))
  {
    assert Elements(stack + [path]) == Elements(stack) + {path};
  }

  /** `v` keeps the invariant and has forgotten nothing of `w`. */
  ghost predicate Kept(site: Site, root: string, maxDepth: int, w: Walk, v: Walk, stack: seq<string>) {
    Inv(site, root, maxDepth, v, Elements(stack)) && w.visited <= v.visited && Among(w.fetched, v.fetched)
  }

  lemma {:induction false} VisitKeeps(site: Site, root: string, path: string, w: Walk, depth: int, maxDepth: int,
                                      stack: seq<string>)
    requires Inv(site, root, maxDepth, w, Elements(stack))
    requires OnStack(site, root, w, stack, path, depth)
    ensures var v := Visit(site, path, w, depth, maxDepth);
            Kept(site, root, maxDepth, w, v, stack) && path in v.visited
    decreases Room(depth, maxDepth), 1
  {
    if path in w.visited {
    } else if depth > maxDepth {
      CutKeeps(site, root, maxDepth, w, stack, path);
    } else {
      VisitOpens(site, path, w, depth, maxDepth);
      OpenKeeps(site, root, path, w, depth, maxDepth, stack);
    }
  }

  lemma {:induction false} OpenKeeps(site: Site, root: string, path: string, w: Walk, depth: int, maxDepth: int,
                                     stack: seq<string>)
    requires Inv(site, root, maxDepth, w, Elements(stack))
    requires OnStack(site, root, w, stack, path, depth) && path !in w.visited && depth <= maxDepth
    ensures var kids, o := Kids(site, path), Opened(site, path, w);
            var v := if kids == [] then o else VisitAll(site, kids, o, depth + 1, maxDepth);
            Kept(site, root, maxDepth, w, v, stack) && path in v.visited
    decreases Room(depth, maxDepth), 0
  {
    var kids, o := Kids(site, path), Opened(site, path, w);
    AppendFetched(site, root, maxDepth, w, stack, path);
    assert path in o.visited && Among(w.fetched, o.fetched);
    if kids == [] {
      PopStack(site, root, maxDepth, o, stack, path);
    } else {
      PushStack(site, root, w, stack, path, kids);
      VisitAllKeeps(site, root, kids, o, depth + 1, maxDepth, stack + [path]);
      PopStack(site, root, maxDepth, VisitAll(site, kids, o, depth + 1, maxDepth), stack, path);
    }
  }

  lemma CutKeeps(site: Site, root: string, maxDepth: int, w: Walk, stack: seq<string>, path: string)
    requires Inv(site, root, maxDepth, w, Elements(stack))
    requires OnStack(site, root, w, stack, path, |stack|) && path !in w.visited && |stack| > maxDepth
    ensures Inv(site, root, maxDepth, w.(visited := w.visited + {path}, cut := w.cut + {path}), Elements(stack))
  {
    assert Distinct(stack + [path]);
    assert Beyond(site, root, path, maxDepth);
  }

  lemma {:induction false} VisitAllKeeps(site: Site, root: string, kids: seq<string>, w: Walk, depth: int,
                                         maxDepth: int, stack: seq<string>)
    requires |stack| == depth > 0 && Inv(site, root, maxDepth, w, Elements(stack))
    requires forall k :: k in kids ==> OnStack(site, root, w, stack, k, depth)
    ensures var v := VisitAll(site, kids, w, depth, maxDepth);
            Kept(site, root, maxDepth, w, v, stack) && forall k :: k in kids ==> k in v.visited
    decreases Room(depth, maxDepth), 2 + |kids|
  {
    if kids != [] {
      assert kids[0] in kids;
      VisitKeeps(site, root, kids[0], w, depth, maxDepth, stack);
      var v := Visit(site, kids[0], w, depth, maxDepth);
      forall k | k in kids[1..]
        ensures OnStack(site, root, v, stack, k, depth)
      {
        assert k in kids;
      }
      VisitAllKeeps(site, root, kids[1..], v, depth, maxDepth, stack);
    }
  }

  lemma CrawlKeeps(site: Site, root: string, maxDepth: int)
    ensures var w := Crawl(site, root, maxDepth);
            Inv(site, root, maxDepth, w, {}) && root in w.visited
  {
    var start := Walk({}, [], {}, []);
    assert RouteBetween(site, [root], root, root);
    assert [] + [root] == [root];
    VisitKeeps(site, root, root, start, 0, maxDepth, []);
    assert Elements<string>([]) == {};
  }

  // ---- What is emitted ----------------------------------------------------

  ghost predicate EmittedFor(site: Site, p: string, leaf: Leaf) {
    IsBodiedLeaf(site, p) && leaf == LeafOf(p, site[p])
  }

  lemma {:induction false} EmittedExactly(site: Site, fetched: seq<string>, leaf: Leaf)
    ensures leaf in Emitted(site, fetched) <==> exists p :: p in fetched && EmittedFor(site, p, leaf)
  {
    if fetched != [] {
      var n := |fetched| - 1;
      var last := fetched[n];
      EmittedExactly(site, fetched[..n], leaf);
      assert leaf in Emitted(site, fetched) <==> leaf in Emitted(site, fetched[..n]) || EmittedFor(site, last, leaf);
      assert forall p :: p in fetched <==> p in fetched[..n] || p == last;
    }
  }

  lemma {:induction false} EmittedUrlsDiffer(site: Site, fetched: seq<string>)
    requires Distinct(fetched)
    ensures UrlsDistinct(Emitted(site, fetched))
  {
    if fetched != [] {
      var n := |fetched| - 1;
      var out, before := Emitted(site, fetched), Emitted(site, fetched[..n]);
      EmittedUrlsDiffer(site, fetched[..n]);
      forall i, j | 0 <= i < j < |out|
        ensures out[i].url != out[j].url
      {
        assert out[i] == before[i];
        if j == |before| {
          EmittedExactly(site, fetched[..n], before[i]);
          var p :| p in fetched[..n] && EmittedFor(site, p, before[i]);
          assert out[j] == LeafOf(fetched[n], site[fetched[n]]);
          UrlsDiffer(p, fetched[n]);
        } else {
          assert out[j] == before[j];
        }
      }
    }
  }

  lemma UrlsDiffer(p: string, q: string)
    requires p != q
    ensures GOVUK + p != GOVUK + q
  {
    assert (GOVUK + p)[|GOVUK|..] == p && (GOVUK + q)[|GOVUK|..] == q;
  }

  /** On every site, cyclic or not: no page is requested twice, no URL is emitted
      twice, and what is emitted is the bodied leaves among the pages requested,
      in request order, each within the bound of the root. */
  lemma CrawlIsSound(site: Site, root: string, maxDepth: int)
    ensures var w := Crawl(site, root, maxDepth);
            && Distinct(w.fetched)
            && w.out == Emitted(site, w.fetched)
            && UrlsDistinct(w.out)
            && (forall p :: p in w.fetched ==> Within(site, root, p, maxDepth))
            && (forall leaf :: leaf in w.out ==>
                  exists p :: Within(site, root, p, maxDepth) && EmittedFor(site, p, leaf))
  {
    var w := Crawl(site, root, maxDepth);
    CrawlKeeps(site, root, maxDepth);
    EmittedUrlsDiffer(site, w.fetched);
    forall leaf | leaf in w.out
      ensures exists p :: Within(site, root, p, maxDepth) && EmittedFor(site, p, leaf)
    {
      EmittedExactly(site, w.fetched, leaf);
    }
  }

  lemma {:induction false} LeavesCarryPages(site: Site, root: string, maxDepth: int)
    ensures var w := Crawl(site, root, maxDepth);
            forall leaf :: leaf in w.out ==> exists p :: p in w.fetched && Carries(site, p, leaf)
  {
    var w := Crawl(site, root, maxDepth);
    CrawlKeeps(site, root, maxDepth);
    forall leaf | leaf in w.out
      ensures exists p :: p in w.fetched && Carries(site, p, leaf)
    {
      EmittedExactly(site, w.fetched, leaf);
      var p :| p in w.fetched && EmittedFor(site, p, leaf);
      LeafCarriesItsPage(site, p);
    }
  }

  // ---- Completeness -------------------------------------------------------

  lemma {:induction false} ClosedUnderRoutes(site: Site, closed: set<string>, r: seq<string>)
    requires IsRoute(site, r) && r[0] in closed
    requires forall p, k :: p in closed && k in Kids(site, p) ==> k in closed
    ensures r[|r| - 1] in closed
  {
    if |r| > 1 {
      assert r[1] in Kids(site, r[0]);
      assert IsRoute(site, r[1..]) by {
        assert forall i :: 0 <= i < |r| - 1 ==> r[1..][i] == r[i + 1];
      }
      ClosedUnderRoutes(site, closed, r[1..]);
    }
  }

  /** The walk requests every reachable page if and only if its depth guard never
      fired: one cut branch always means one reachable page never requested. */
  lemma CompleteIffNothingCut(site: Site, root: string, maxDepth: int)
    ensures var w := Crawl(site, root, maxDepth);
            (forall p :: Reachable(site, root, p) ==> p in w.fetched) <==> w.cut == {}
  {
    var w := Crawl(site, root, maxDepth);
    CrawlKeeps(site, root, maxDepth);
    if w.cut == {} {
      forall p | Reachable(site, root, p)
        ensures p in w.fetched
      {
        var r :| RouteBetween(site, r, root, p);
        ClosedUnderRoutes(site, w.visited, r);
      }
    } else {
      var c :| c in w.cut;
      assert Beyond(site, root, c, maxDepth);
      var r :| RouteBetween(site, r, root, c) && Distinct(r) && |r| - 1 > maxDepth;
      assert Reachable(site, root, c);
      assert c !in Elements(w.fetched);
    }
  }

  lemma {:induction false} UncutRouteIsWalked(site: Site, visited: set<string>, cut: set<string>, r: seq<string>)
    requires IsRoute(site, r) && Avoids(r, cut) && r[0] in visited
    requires forall p, k :: p in visited && p !in cut && k in Kids(site, p) ==> k in visited
    ensures r[|r| - 1] in visited && r[|r| - 1] !in cut
  {
    assert r[0] in r;
    if |r| > 1 {
      var rest := r[1..];
      assert r[1] in Kids(site, r[0]);
      assert forall i :: 0 <= i < |rest| ==> rest[i] == r[i + 1];
      assert Avoids(rest, cut) by {
        assert forall p :: p in rest ==> p in r;
      }
      UncutRouteIsWalked(site, visited, cut, rest);
    }
  }

  /** Page by page, on any site: a page is requested if and only if some route from
      the root, of any length, meets no page the depth guard stopped at. */
  lemma FetchedIffAroundCut(site: Site, root: string, maxDepth: int, p: string)
    ensures var w := Crawl(site, root, maxDepth);
            p in w.fetched <==> Around(site, root, p, w.cut)
  {
    var w := Crawl(site, root, maxDepth);
    CrawlKeeps(site, root, maxDepth);
    assert forall q :: q in w.fetched ==> q in Elements(w.fetched);
    if p in w.fetched {
      assert Via(site, root, p, maxDepth, w.fetched);
      var r :| RouteBetween(site, r, root, p) && Distinct(r) && |r| - 1 <= maxDepth && Among(r, w.fetched);
      assert Avoids(r, w.cut);
    }
    if Around(site, root, p, w.cut) {
      var r :| RouteBetween(site, r, root, p) && Avoids(r, w.cut);
      UncutRouteIsWalked(site, w.visited, w.cut, r);
      assert p in Elements(w.fetched);
    }
  }

  lemma PrefixIsWithin(site: Site, root: string, r: seq<string>, i: nat, n: int)
    requires IsRoute(site, r) && r[0] == root && Distinct(r) && i < |r| && |r| - 1 <= n
    ensures Within(site, root, r[i], n)
  {
    var head := r[..i + 1];
    assert RouteBetween(site, head, root, r[i]) && Distinct(head);
  }

  /** The bound is kept to in full, every page within it requested, if and only if
      no page the guard stopped at lies within it by another route. */
  lemma BoundIsKeptIff(site: Site, root: string, maxDepth: int)
    ensures var w := Crawl(site, root, maxDepth);
            (forall p :: Within(site, root, p, maxDepth) ==> p in w.fetched)
            <==> (forall c :: c in w.cut ==> !Within(site, root, c, maxDepth))
  {
    var w := Crawl(site, root, maxDepth);
    CrawlKeeps(site, root, maxDepth);
    assert forall q :: q in w.fetched ==> q in Elements(w.fetched);
    if forall c :: c in w.cut ==> !Within(site, root, c, maxDepth) {
      forall p | Within(site, root, p, maxDepth)
        ensures p in w.fetched
      {
        var r :| RouteBetween(site, r, root, p) && Distinct(r) && |r| - 1 <= maxDepth;
        forall q | q in r
          ensures q !in w.cut
        {
          var i :| 0 <= i < |r| && r[i] == q;
          PrefixIsWithin(site, root, r, i, maxDepth);
        }
        assert Avoids(r, w.cut);
        FetchedIffAroundCut(site, root, maxDepth, p);
      }
    }
  }

  /** A leaf with a body is emitted if and only if some route to it meets no page
      the guard stopped at. */
  lemma LeafEmittedIffAroundCut(site: Site, root: string, maxDepth: int, p: string)
    requires p in site && ChildSections(site[p]) == [] && site[p].body != ""
    ensures var w := Crawl(site, root, maxDepth);
            (exists leaf :: leaf in w.out && Carries(site, p, leaf)) <==> Around(site, root, p, w.cut)
  {
    var w, leaf := Crawl(site, root, maxDepth), LeafOf(p, site[p]);
    assert IsBodiedLeaf(site, p);
    LeafCarriesItsPage(site, p);
    LeafIsDetermined(site, p, leaf);
    CrawlKeeps(site, root, maxDepth);
    EmittedExactly(site, w.fetched, leaf);
    FetchedIffAroundCut(site, root, maxDepth, p);
    forall q | EmittedFor(site, q, leaf)
      ensures q == p
    {
      LeafNamesItsPage(site, q, p);
    }
    assert EmittedFor(site, p, leaf);
  }

  lemma LeafIsDetermined(site: Site, p: string, leaf: Leaf)
    requires Carries(site, p, leaf)
    ensures forall other :: Carries(site, p, other) ==> other == leaf
  {
  }

  lemma LeafNamesItsPage(site: Site, p: string, q: string)
    requires p in site && q in site && LeafOf(p, site[p]) == LeafOf(q, site[q])
    ensures p == q
  {
    if p != q {
      UrlsDiffer(p, q);
    }
  }

  lemma ShallowSitesAreNeverCut(site: Site, root: string, maxDepth: int)
    requires Shallow(site, root, maxDepth)
    ensures Crawl(site, root, maxDepth).cut == {}
  {
    CrawlKeeps(site, root, maxDepth);
    var cut := Crawl(site, root, maxDepth).cut;
    if c :| c in cut {
      assert false;
    }
  }

  /** On a site whose routes fit the bound, exactly the reachable leaves with a
      body are emitted. */
  lemma CrawlIsExact(site: Site, root: string, maxDepth: int, leaf: Leaf)
    requires Shallow(site, root, maxDepth)
    ensures leaf in Crawl(site, root, maxDepth).out
       <==> exists p :: Reachable(site, root, p) && EmittedFor(site, p, leaf)
  {
    var w := Crawl(site, root, maxDepth);
    ShallowSitesAreNeverCut(site, root, maxDepth);
    CompleteIffNothingCut(site, root, maxDepth);
    CrawlKeeps(site, root, maxDepth);
    EmittedExactly(site, w.fetched, leaf);
    assert forall p :: p in w.fetched ==> Reachable(site, root, p);
  }

  /** A bound of at least the number of pages is always enough. */
  lemma PageCountBoundsDepth(site: Site, root: string, maxDepth: int)
    requires |site| <= maxDepth
    ensures Shallow(site, root, maxDepth)
  {
    forall r | IsRoute(site, r) && Distinct(r) && r[0] == root
      ensures |r| - 1 <= maxDepth
    {
      var inner := r[..|r| - 1];
      forall p | p in inner
        ensures p in site.Keys
      {
        var i :| 0 <= i < |r| - 1 && r[i] == p;
        assert r[i + 1] in Kids(site, r[i]);
      }
      DistinctCount(inner);
      SubsetCount(Elements(inner), site.Keys);
    }
  }

  // ---- The bound itself ---------------------------------------------------

  lemma {:induction false} CutGrows(site: Site, path: string, w: Walk, depth: int, maxDepth: int)
    requires w.cut <= w.visited
    ensures var v := Visit(site, path, w, depth, maxDepth); w.cut <= v.cut <= v.visited
    decreases Room(depth, maxDepth), 0
  {
    if path !in w.visited && depth <= maxDepth && Kids(site, path) != [] {
      var v := w.(visited := w.visited + {path}, fetched := w.fetched + [path]);
      CutGrowsAll(site, Kids(site, path), v, depth + 1, maxDepth);
    }
  }

  lemma {:induction false} CutGrowsAll(site: Site, kids: seq<string>, w: Walk, depth: int, maxDepth: int)
    requires w.cut <= w.visited
    ensures var v := VisitAll(site, kids, w, depth, maxDepth); w.cut <= v.cut <= v.visited
    decreases Room(depth, maxDepth), 1 + |kids|
  {
    if kids != [] {
      CutGrows(site, kids[0], w, depth, maxDepth);
      CutGrowsAll(site, kids[1..], Visit(site, kids[0], w, depth, maxDepth), depth, maxDepth);
    }
  }

  lemma {:induction false} LargerBoundAgrees(site: Site, path: string, w: Walk, depth: int, maxDepth: int, larger: int)
    requires maxDepth <= larger && w.cut <= w.visited
    requires Visit(site, path, w, depth, maxDepth).cut == w.cut
    ensures Visit(site, path, w, depth, larger) == Visit(site, path, w, depth, maxDepth)
    decreases Room(depth, maxDepth), 0
  {
    if path !in w.visited && depth <= maxDepth && Kids(site, path) != [] {
      var v := w.(visited := w.visited + {path}, fetched := w.fetched + [path]);
      LargerBoundAgreesAll(site, Kids(site, path), v, depth + 1, maxDepth, larger);
    }
  }

  lemma {:induction false} LargerBoundAgreesAll(site: Site, kids: seq<string>, w: Walk, depth: int, maxDepth: int,
                                                larger: int)
    requires maxDepth <= larger && w.cut <= w.visited
    requires VisitAll(site, kids, w, depth, maxDepth).cut == w.cut
    ensures VisitAll(site, kids, w, depth, larger) == VisitAll(site, kids, w, depth, maxDepth)
    decreases Room(depth, maxDepth), 1 + |kids|
  {
    if kids != [] {
      var v := Visit(site, kids[0], w, depth, maxDepth);
      CutGrows(site, kids[0], w, depth, maxDepth);
      CutGrowsAll(site, kids[1..], v, depth, maxDepth);
      LargerBoundAgrees(site, kids[0], w, depth, maxDepth, larger);
      LargerBoundAgreesAll(site, kids[1..], v, depth, maxDepth, larger);
    }
  }

  /** The bound changes nothing exactly when the guard did not fire. */
  lemma BoundIsHarmlessIffNothingCut(site: Site, root: string, maxDepth: int)
    ensures Crawl(site, root, maxDepth).cut == {}
       <==> forall larger :: maxDepth <= larger ==> Crawl(site, root, larger) == Crawl(site, root, maxDepth)
  {
    if Crawl(site, root, maxDepth).cut == {} {
      forall larger | maxDepth <= larger
        ensures Crawl(site, root, larger) == Crawl(site, root, maxDepth)
      {
        LargerBoundAgrees(site, root, Walk({}, [], {}, []), 0, maxDepth, larger);
      }
    } else {
      var larger := Max(maxDepth, |site|);
      PageCountBoundsDepth(site, root, larger);
      ShallowSitesAreNeverCut(site, root, larger);
      assert Crawl(site, root, larger) != Crawl(site, root, maxDepth);
    }
  }

  // ---- The cut read off the site alone ------------------------------------

  /** Where `k` first stands among the children. */
  ghost function Place(kids: seq<string>, k: string): nat {
    if kids == [] || kids[0] == k then 0 else 1 + Place(kids[1..], k)
  }

  lemma {:induction false} PlaceOf(kids: seq<string>, k: string)
    requires k in kids
    ensures Place(kids, k) < |kids| && kids[Place(kids, k)] == k
  {
    if kids[0] != k {
      PlaceOf(kids[1..], k);
    }
  }

  lemma {:induction false} PlaceAtMost(kids: seq<string>, m: nat)
    requires m < |kids|
    ensures Place(kids, kids[m]) <= m
  {
    if m > 0 && kids[0] != kids[m] {
      PlaceAtMost(kids[1..], m - 1);
    }
  }

  /** `y` is a child of the page before position k of the route, listed before the
      child the route takes there. */
  ghost predicate ListedBefore(site: Site, route: seq<string>, k: nat, y: string) {
    0 < k < |route| && y in Kids(site, route[k - 1])
    && Place(Kids(site, route[k - 1]), y) < Place(Kids(site, route[k - 1]), route[k])
  }

  /** `q` leaves `r` at position k for a child listed earlier. */
  ghost predicate BranchesBefore(site: Site, q: seq<string>, r: seq<string>, k: nat) {
    k < |q| && k < |r| && q[..k] == r[..k] && ListedBefore(site, r, k, q[k])
  }

  /** Among the routes from `root` to `p` that repeat no page, `r` comes first in
      the order of the children. */
  ghost predicate FirstRoute(site: Site, root: string, p: string, r: seq<string>) {
    && RouteBetween(site, r, root, p) && Distinct(r)
    && forall q, k: nat :: RouteBetween(site, q, root, p) && Distinct(q) ==> !BranchesBefore(site, q, r, k)
  }

  lemma {:induction false} FirstDifference(q: seq<string>, r: seq<string>) returns (k: nat)
    ensures k <= |q| && k <= |r| && q[..k] == r[..k]
    ensures k < |q| && k < |r| ==> q[k] != r[k]
  {
    k := 0;
    while k < |q| && k < |r| && q[k] == r[k]
      invariant k <= |q| && k <= |r| && q[..k] == r[..k]
    {
      k := k + 1;
    }
  }

  /** A route that repeats no page is met only at its end by routes to the same page. */
  lemma PrefixIsWhole(site: Site, root: string, p: string, q: seq<string>, r: seq<string>)
    requires RouteBetween(site, q, root, p) && RouteBetween(site, r, root, p) && Distinct(r)
    requires |q| <= |r| && r[..|q|] == q
    ensures q == r
  {
    assert q[|q| - 1] == r[|q| - 1] == r[|r| - 1];
    assert r[..|r|] == r;
  }

  lemma SameParent(site: Site, q: seq<string>, r: seq<string>, k: nat)
    requires IsRoute(site, q) && IsRoute(site, r) && 0 < k < |q| && k < |r| && q[..k] == r[..k]
    ensures q[k - 1] == r[k - 1] && q[k] in Kids(site, q[k - 1]) && r[k] in Kids(site, q[k - 1])
  {
    assert q[..k][k - 1] == r[..k][k - 1];
    var i := k - 1;
    assert q[i + 1] in Kids(site, q[i]) && r[i + 1] in Kids(site, r[i]);
  }

  lemma {:induction false} PlacesDiffer(kids: seq<string>, a: string, b: string)
    requires a in kids && b in kids && a != b
    ensures Place(kids, a) != Place(kids, b)
  {
    PlaceOf(kids, a);
    PlaceOf(kids, b);
  }

  lemma {:induction false} FirstRouteIsUnique(site: Site, root: string, p: string, q: seq<string>, r: seq<string>)
    requires FirstRoute(site, root, p, q) && FirstRoute(site, root, p, r)
    ensures q == r
  {
    var k := FirstDifference(q, r);
    assert q[..|q|] == q && r[..|r|] == r;
    if k == |q| {
      PrefixIsWhole(site, root, p, q, r);
    } else if k == |r| {
      PrefixIsWhole(site, root, p, r, q);
    } else {
      SameParent(site, q, r, k);
      PlacesDiffer(Kids(site, q[k - 1]), q[k], r[k]);
      BothFirst(site, root, p, q, r, k);
    }
  }

  lemma BothFirst(site: Site, root: string, p: string, q: seq<string>, r: seq<string>, k: nat)
    requires FirstRoute(site, root, p, q) && FirstRoute(site, root, p, r)
    requires 0 < k < |q| && k < |r| && q[..k] == r[..k] && q[k - 1] == r[k - 1]
    requires q[k] in Kids(site, q[k - 1]) && r[k] in Kids(site, q[k - 1])
    ensures Place(Kids(site, q[k - 1]), q[k]) == Place(Kids(site, q[k - 1]), r[k])
  {
    assert !BranchesBefore(site, q, r, k) && !BranchesBefore(site, r, q, k);
    assert !ListedBefore(site, r, k, q[k]) && !ListedBefore(site, q, k, r[k]);
  }

  /** All that can be reached from `y` without the pages in `avoid` is visited. */
  ghost predicate Swept(site: Site, visited: set<string>, y: string, avoid: seq<string>) {
    forall r :: IsRoute(site, r) && r[0] == y && Apart(r, avoid) ==> r[|r| - 1] in visited
  }

  ghost predicate Apart(r: seq<string>, avoid: seq<string>) {
    forall p :: p in r ==> p !in avoid
  }

  /** What the children listed earlier along the route lead to, off the route, is
      already visited. */
  ghost predicate EarlierSwept(site: Site, visited: set<string>, route: seq<string>) {
    forall k: nat, y :: ListedBefore(site, route, k, y) ==> Swept(site, visited, y, route[..k])
  }

  lemma {:induction false} RouteStaysVisited(site: Site, visited: set<string>, avoid: seq<string>, r: seq<string>)
    requires IsRoute(site, r) && Apart(r, avoid) && r[0] in visited
    requires forall p, k :: p in visited && p !in avoid && k in Kids(site, p) ==> k in visited
    ensures r[|r| - 1] in visited
  {
    assert r[0] in r;
    if |r| > 1 {
      var rest := r[1..];
      assert r[1] in Kids(site, r[0]);
      assert forall i :: 0 <= i < |rest| ==> rest[i] == r[i + 1];
      assert forall p :: p in rest ==> p in r;
      RouteStaysVisited(site, visited, avoid, rest);
    }
  }

  lemma SuffixIsRoute(site: Site, q: seq<string>, k: nat)
    requires IsRoute(site, q) && Distinct(q) && k < |q|
    ensures IsRoute(site, q[k..]) && Apart(q[k..], q[..k])
  {
    var rest := q[k..];
    forall i | 0 <= i < |rest| - 1
      ensures rest[i + 1] in Kids(site, rest[i])
    {
      assert q[k + i + 1] in Kids(site, q[k + i]);
    }
  }

  lemma {:induction false} EarlierRouteIsVisited(site: Site, visited: set<string>, route: seq<string>, q: seq<string>,
                                                 k: nat)
    requires IsRoute(site, q) && Distinct(q) && BranchesBefore(site, q, route, k)
    requires EarlierSwept(site, visited, route)
    ensures q[|q| - 1] in visited
  {
    var rest := q[k..];
    SuffixIsRoute(site, q, k);
    assert Swept(site, visited, q[k], route[..k]);
    assert rest[0] == q[k] && Apart(rest, route[..k]);
    assert rest[|rest| - 1] == q[|q| - 1];
  }

  /** A page not yet visited is being visited along its first route. */
  lemma {:induction false} RouteIsFirst(site: Site, root: string, path: string, visited: set<string>, route: seq<string>)
    requires RouteBetween(site, route, root, path) && Distinct(route)
    requires path !in visited && EarlierSwept(site, visited, route)
    ensures FirstRoute(site, root, path, route)
  {
    forall q, k: nat | RouteBetween(site, q, root, path) && Distinct(q)
      ensures !BranchesBefore(site, q, route, k)
    {
      if BranchesBefore(site, q, route, k) {
        EarlierRouteIsVisited(site, visited, route, q, k);
      }
    }
  }

  ghost predicate FirstRouteFits(site: Site, root: string, p: string, n: int) {
    exists r :: FirstRoute(site, root, p, r) && |r| - 1 <= n
  }

  ghost predicate AllFirstRoutesFit(site: Site, root: string, pages: seq<string>, n: int) {
    forall p :: p in pages ==> FirstRouteFits(site, root, p, n)
  }

  /** The first route to some page has more than `n` steps. */
  ghost predicate TooDeep(site: Site, root: string, n: int) {
    exists p, r :: FirstRoute(site, root, p, r) && |r| - 1 > n
  }

  ghost predicate Explained(site: Site, root: string, maxDepth: int, v: Walk) {
    if v.cut == {} then AllFirstRoutesFit(site, root, v.fetched, maxDepth) else TooDeep(site, root, maxDepth)
  }

  lemma MoreSwept(site: Site, visited: set<string>, visited': set<string>, route: seq<string>)
    requires EarlierSwept(site, visited, route) && visited <= visited'
    ensures EarlierSwept(site, visited', route)
  {
    forall k: nat, y | ListedBefore(site, route, k, y)
      ensures Swept(site, visited', y, route[..k])
    {
      assert Swept(site, visited, y, route[..k]);
    }
  }

  /** A visited page has led to all it can: only the stack is still open. */
  lemma {:induction false} VisitedIsSwept(site: Site, root: string, maxDepth: int, w: Walk, stack: seq<string>, y: string)
    requires Inv(site, root, maxDepth, w, Elements(stack)) && w.cut == {} && y in w.visited
    ensures Swept(site, w.visited, y, stack)
  {
    forall p, k | p in w.visited && p !in stack && k in Kids(site, p)
      ensures k in w.visited
    {
      assert p in Elements(w.fetched);
    }
    forall r | IsRoute(site, r) && r[0] == y && Apart(r, stack)
      ensures r[|r| - 1] in w.visited
    {
      RouteStaysVisited(site, w.visited, stack, r);
    }
  }

  lemma EarlierOnStack(site: Site, stack: seq<string>, x: string, k: nat, y: string)
    requires ListedBefore(site, stack + [x], k, y) && k < |stack|
    ensures ListedBefore(site, stack, k, y) && (stack + [x])[..k] == stack[..k]
  {
  }

  lemma {:induction false} EarlierChild(site: Site, stack: seq<string>, all: seq<string>, m: nat, y: string)
    requires stack != [] && all == Kids(site, stack[|stack| - 1]) && m < |all|
    requires ListedBefore(site, stack + [all[m]], |stack|, y)
    ensures Place(all, y) < m && y == all[Place(all, y)]
  {
    PlaceOf(all, y);
    PlaceAtMost(all, m);
  }

  /** Moving on to the m-th child, the earlier ones being visited. */
  lemma {:induction false} NextChildSwept(site: Site, root: string, maxDepth: int, w: Walk, stack: seq<string>,
                                          all: seq<string>, m: nat)
    requires Inv(site, root, maxDepth, w, Elements(stack)) && w.cut == {}
    requires stack != [] && all == Kids(site, stack[|stack| - 1]) && m < |all|
    requires forall i :: 0 <= i < m ==> all[i] in w.visited
    requires EarlierSwept(site, w.visited, stack)
    ensures EarlierSwept(site, w.visited, stack + [all[m]])
  {
    var route := stack + [all[m]];
    assert route[..|stack|] == stack;
    forall k: nat, y | ListedBefore(site, route, k, y)
      ensures Swept(site, w.visited, y, route[..k])
    {
      if k < |stack| {
        EarlierOnStack(site, stack, all[m], k, y);
      } else {
        EarlierChild(site, stack, all, m, y);
        VisitedIsSwept(site, root, maxDepth, w, stack, y);
      }
    }
  }

  ghost predicate AllOnStack(site: Site, root: string, w: Walk, stack: seq<string>, kids: seq<string>) {
    forall i :: 0 <= i < |kids| ==> OnStack(site, root, w, stack, kids[i], |stack|)
  }

  /** What holds, beside the invariant, when the walk turns to the m-th child of the
      page on top of the stack and nothing has been cut. */
  ghost predicate AtChild(site: Site, root: string, maxDepth: int, w: Walk, stack: seq<string>, all: seq<string>, m: nat) {
    && w.cut == {} && AllFirstRoutesFit(site, root, w.fetched, maxDepth)
    && stack != [] && all == Kids(site, stack[|stack| - 1]) && m <= |all|
    && EarlierSwept(site, w.visited, stack) && AllOnStack(site, root, w, stack, all)
    && (forall i :: 0 <= i < m ==> all[i] in w.visited)
  }

  lemma OpenedFits(site: Site, root: string, path: string, w: Walk, n: int)
    requires AllFirstRoutesFit(site, root, w.fetched, n) && FirstRouteFits(site, root, path, n)
    ensures AllFirstRoutesFit(site, root, Opened(site, path, w).fetched, n)
  {
  }

  lemma {:induction false} OpenedAtChild(site: Site, root: string, path: string, w: Walk, maxDepth: int, stack: seq<string>)
    requires OnStack(site, root, w, stack, path, |stack|)
    requires w.cut == {} && AllFirstRoutesFit(site, root, w.fetched, maxDepth)
    requires path !in w.fetched && |stack| <= maxDepth && FirstRoute(site, root, path, stack + [path])
    requires EarlierSwept(site, w.visited, stack + [path])
    ensures AtChild(site, root, maxDepth, Opened(site, path, w), stack + [path], Kids(site, path), 0)
  {
    assert FirstRouteFits(site, root, path, maxDepth);
    OpenedFits(site, root, path, w, maxDepth);
    PushStack(site, root, w, stack, path, Kids(site, path));
    MoreSwept(site, w.visited, Opened(site, path, w).visited, stack + [path]);
  }

  lemma {:induction false} StillOnStack(site: Site, root: string, w: Walk, v: Walk, stack: seq<string>, kids: seq<string>)
    requires AllOnStack(site, root, w, stack, kids) && Among(w.fetched, v.fetched)
    ensures AllOnStack(site, root, v, stack, kids)
  {
    forall i | 0 <= i < |kids|
      ensures OnStack(site, root, v, stack, kids[i], |stack|)
    {
      assert OnStack(site, root, w, stack, kids[i], |stack|);
    }
  }

  lemma {:induction false} ChildVisited(site: Site, root: string, maxDepth: int, w: Walk, v: Walk, stack: seq<string>,
                                        all: seq<string>, m: nat)
    requires AtChild(site, root, maxDepth, w, stack, all, m) && m < |all|
    requires w.visited <= v.visited && Among(w.fetched, v.fetched) && all[m] in v.visited
    requires v.cut == {} && AllFirstRoutesFit(site, root, v.fetched, maxDepth)
    ensures AtChild(site, root, maxDepth, v, stack, all, m + 1)
  {
    StillOnStack(site, root, w, v, stack, all);
    MoreSwept(site, w.visited, v.visited, stack);
  }

  lemma {:induction false} CutIsTooDeep(site: Site, root: string, path: string, w: Walk, maxDepth: int, stack: seq<string>)
    requires OnStack(site, root, w, stack, path, |stack|) && path !in w.visited && path !in w.fetched
    requires |stack| > maxDepth && EarlierSwept(site, w.visited, stack + [path])
    ensures TooDeep(site, root, maxDepth)
  {
    StackGrows(w, stack, path);
    RouteIsFirst(site, root, path, w.visited, stack + [path]);
    assert |stack + [path]| - 1 > maxDepth;
  }

  /** The walk `o` just after requesting `path`, with all that is known of it. */
  lemma {:induction false} OpenedWalk(site: Site, root: string, path: string, w: Walk, maxDepth: int, stack: seq<string>)
    returns (o: Walk)
    requires Inv(site, root, maxDepth, w, Elements(stack)) && OnStack(site, root, w, stack, path, |stack|)
    requires w.cut == {} && AllFirstRoutesFit(site, root, w.fetched, maxDepth)
    requires path !in w.visited && |stack| <= maxDepth && EarlierSwept(site, w.visited, stack + [path])
    ensures Inv(site, root, maxDepth, o, Elements(stack + [path]))
    ensures AtChild(site, root, maxDepth, o, stack + [path], Kids(site, path), 0)
    ensures Visit(site, path, w, |stack|, maxDepth)
         == if Kids(site, path) == [] then o else VisitAll(site, Kids(site, path), o, |stack| + 1, maxDepth)
  {
    o := Opened(site, path, w);
    StackGrows(w, stack, path);
    RouteIsFirst(site, root, path, w.visited, stack + [path]);
    VisitOpens(site, path, w, |stack|, maxDepth);
    OpenedAtChild(site, root, path, w, maxDepth, stack);
    AppendFetched(site, root, maxDepth, w, stack, path);
  }

  lemma {:induction false} VisitFirst(site: Site, root: string, path: string, w: Walk, maxDepth: int, stack: seq<string>)
    requires Inv(site, root, maxDepth, w, Elements(stack)) && OnStack(site, root, w, stack, path, |stack|)
    requires w.cut == {} && AllFirstRoutesFit(site, root, w.fetched, maxDepth)
    requires EarlierSwept(site, w.visited, stack + [path])
    ensures Explained(site, root, maxDepth, Visit(site, path, w, |stack|, maxDepth))
    decreases Room(|stack|, maxDepth), 1
  {
    if path in w.visited {
    } else if |stack| > maxDepth {
      CutIsTooDeep(site, root, path, w, maxDepth, stack);
    } else {
      var o := OpenedWalk(site, root, path, w, maxDepth, stack);
      OpenFirst(site, root, o, maxDepth, stack + [path]);
    }
  }

  lemma {:induction false} OpenFirst(site: Site, root: string, o: Walk, maxDepth: int, stack: seq<string>)
    requires stack != [] && |stack| <= maxDepth + 1
    requires Inv(site, root, maxDepth, o, Elements(stack))
    requires AtChild(site, root, maxDepth, o, stack, Kids(site, stack[|stack| - 1]), 0)
    ensures var kids := Kids(site, stack[|stack| - 1]);
            Explained(site, root, maxDepth, if kids == [] then o else VisitAll(site, kids, o, |stack|, maxDepth))
    decreases Room(|stack| - 1, maxDepth), 0
  {
    var kids := Kids(site, stack[|stack| - 1]);
    if kids != [] {
      assert kids[0..] == kids;
      VisitAllFirst(site, root, kids, 0, o, maxDepth, stack);
    }
  }

  lemma {:induction false} VisitAllFirst(site: Site, root: string, all: seq<string>, m: nat, w: Walk, maxDepth: int,
                                         stack: seq<string>)
    requires Inv(site, root, maxDepth, w, Elements(stack)) && AtChild(site, root, maxDepth, w, stack, all, m)
    ensures Explained(site, root, maxDepth, VisitAll(site, all[m..], w, |stack|, maxDepth))
    decreases Room(|stack|, maxDepth), 2 + |all| - m
  {
    if m < |all| {
      var v := Visit(site, all[m], w, |stack|, maxDepth);
      assert all[m..][1..] == all[m + 1..];
      NextChildSwept(site, root, maxDepth, w, stack, all, m);
      VisitFirst(site, root, all[m], w, maxDepth, stack);
      VisitKeeps(site, root, all[m], w, |stack|, maxDepth, stack);
      if v.cut == {} {
        ChildVisited(site, root, maxDepth, w, v, stack, all, m);
        VisitAllFirst(site, root, all, m + 1, v, maxDepth, stack);
      } else {
        CutGrowsAll(site, all[m + 1..], v, |stack|, maxDepth);
      }
    }
  }

  lemma CrawlIsExplained(site: Site, root: string, maxDepth: int)
    ensures Explained(site, root, maxDepth, Crawl(site, root, maxDepth))
  {
    var start := Walk({}, [], {}, []);
    assert RouteBetween(site, [root], root, root);
    assert [] + [root] == [root] && Elements<string>([]) == {};
    VisitFirst(site, root, root, start, maxDepth, []);
  }

  /** Every reachable page has exactly one first route. */
  lemma {:induction false} FirstRouteExists(site: Site, root: string, p: string)
    requires Reachable(site, root, p)
    ensures exists r :: FirstRoute(site, root, p, r) && forall q :: FirstRoute(site, root, p, q) ==> q == r
  {
    var n := |site|;
    PageCountBoundsDepth(site, root, n);
    ShallowSitesAreNeverCut(site, root, n);
    CompleteIffNothingCut(site, root, n);
    CrawlIsExplained(site, root, n);
    assert FirstRouteFits(site, root, p, n);
    var r :| FirstRoute(site, root, p, r) && |r| - 1 <= n;
    forall q | FirstRoute(site, root, p, q)
      ensures q == r
    {
      FirstRouteIsUnique(site, root, p, q, r);
    }
  }

  /** On the site alone: the guard never fires, and every reachable page is
      requested, if and only if no page's first route has more steps than the
      bound. A shorter route listed later does not help. */
  lemma {:induction false} CompleteIffFirstRoutesFit(site: Site, root: string, maxDepth: int)
    ensures Crawl(site, root, maxDepth).cut == {} <==> !TooDeep(site, root, maxDepth)
    ensures (forall p :: Reachable(site, root, p) ==> p in Crawl(site, root, maxDepth).fetched)
            <==> !TooDeep(site, root, maxDepth)
  {
    var w := Crawl(site, root, maxDepth);
    CompleteIffNothingCut(site, root, maxDepth);
    CrawlIsExplained(site, root, maxDepth);
    if w.cut == {} {
      forall p, r | FirstRoute(site, root, p, r)
        ensures |r| - 1 <= maxDepth
      {
        assert Reachable(site, root, p) && FirstRouteFits(site, root, p, maxDepth);
        var q :| FirstRoute(site, root, p, q) && |q| - 1 <= maxDepth;
        FirstRouteIsUnique(site, root, p, q, r);
      }
    }
  }

  function Index(children: seq<string>): Page {
    Page("", "text", [], seq(|children|, i requires 0 <= i < |children| => Section(children[i], "", "")), [])
  }

  lemma KidsOfIndex(site: Site, path: string, children: seq<string>)
    requires path in site && site[path] == Index(children)
    requires 0 < |children| <= 2 && "" !in children
    ensures Kids(site, path) == children
  {
    var cs := Index(children).linkChildren;
    assert Named([]) == [];
    if |cs| == 1 {
      assert cs[1..] == [] && Named(cs) == cs;
    } else {
      assert cs[1..][1..] == [] && Named(cs[1..]) == cs[1..] && Named(cs) == cs;
    }
  }

  /** Marking a page before testing its depth can lose a page that the bound
      allows: `c` is one step from the root, but is met first beyond the bound. */
  lemma MarkedBeforeTestedLosesAPage(r: string, a: string, c: string)
    requires r != a && a != c && r != c && r != "" && a != "" && c != ""
    ensures var site := map[r := Index([a, c]), a := Index([c]), c := Index([])];
            Within(site, r, c, 1) && IsBodiedLeaf(site, c) && LeafOf(c, site[c]) !in Crawl(site, r, 1).out
  {
    var site := map[r := Index([a, c]), a := Index([c]), c := Index([])];
    KidsOfIndex(site, r, [a, c]);
    KidsOfIndex(site, a, [c]);
    assert Kids(site, c) == [];
    assert RouteBetween(site, [r, c], r, c) && Distinct([r, c]);
    var w1 := Walk({r}, [r], {}, []);
    var w2 := Walk({r, a}, [r, a], {}, []);
    var w3 := Walk({r, a, c}, [r, a], {c}, []);
    assert VisitAll(site, [c], w2, 2, 1) == w3 by {
      assert Visit(site, c, w2, 2, 1) == w3;
      assert [c][1..] == [];
    }
    assert Visit(site, a, w1, 1, 1) == w3;
    assert VisitAll(site, [c], w3, 1, 1) == w3 by {
      assert [c][1..] == [];
    }
    assert VisitAll(site, [a, c], w1, 1, 1) == w3 by {
      assert [a, c][1..] == [c];
    }
    assert VisitAll(site, Kids(site, r), w1, 1, 1) == w3;
    assert Visit(site, r, Walk({}, [], {}, []), 0, 1) == w3 by {
      assert {} + {r} == {r} && [] + [r] == [r];
    }
  }
}
