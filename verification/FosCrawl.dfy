/** The paged decision crawl with its date cutoff. */
module FosCrawl {
  import opened Prelude

  /** Dates are day numbers; some rows carry none. */
  datatype Decision = Decision(drn: string, date: Option<int>)

  datatype Page = Failed | Listed(decisions: seq<Decision>)

  predicate IsOld(d: Decision, since: Option<int>) {
    since.Some? && d.date.Some? && d.date.value < since.value
  }

  function Keep(ds: seq<Decision>, since: Option<int>): seq<Decision> {
    if ds == [] then []
    else Keep(ds[..|ds| - 1], since) + if IsOld(ds[|ds| - 1], since) then [] else [ds[|ds| - 1]]
  }

  predicate HitsCutoff(ds: seq<Decision>, since: Option<int>) {
    exists i :: 0 <= i < |ds| && IsOld(ds[i], since)
  }

  predicate Ends(p: Page) {
    p.Failed? || p.decisions == []
  }

  /** Everything listed from `page` on, before the first empty or failed page. */
  ghost function Listing(fetch: nat -> Page, page: nat, maxPages: int): seq<Decision>
    decreases maxPages - page
  {
    if page > maxPages || Ends(fetch(page)) then []
    else fetch(page).decisions + Listing(fetch, page + 1, maxPages)
  }

  /** What the early stop leaves unread: all that is listed after the first page
      showing a decision older than the cutoff. */
  ghost function Unread(fetch: nat -> Page, page: nat, maxPages: int, since: Option<int>): seq<Decision>
    decreases maxPages - page
  {
    if page > maxPages || Ends(fetch(page)) then []
    else if HitsCutoff(fetch(page).decisions, since) then Listing(fetch, page + 1, maxPages)
    else Unread(fetch, page + 1, maxPages, since)
  }

  ghost function Crawled(fetch: nat -> Page, page: nat, maxPages: int, since: Option<int>): seq<Decision>
    decreases maxPages - page
  {
    if page > maxPages || Ends(fetch(page)) then []
    else
      var kept := Keep(fetch(page).decisions, since);
      if HitsCutoff(fetch(page).decisions, since) then kept
      else kept + Crawled(fetch, page + 1, maxPages, since)
  }

  method KeepPage(ds: seq<Decision>, since: Option<int>) returns (keep: seq<Decision>, hitCutoff: bool)
    ensures keep == Keep(ds, since) && hitCutoff == HitsCutoff(ds, since)
  {
    keep, hitCutoff := [], false;
    for i := 0 to |ds|
      invariant keep == Keep(ds[..i], since)
      invariant hitCutoff <==> exists k :: 0 <= k < i && IsOld(ds[k], since)
    {
      assert ds[..i + 1][..i] == ds[..i];
      if since.Some? && ds[i].date.Some? && ds[i].date.value < since.value {
        hitCutoff := true;
      } else {
        keep := keep + [ds[i]];
      }
    }
    assert ds[..|ds|] == ds;
  }

  lemma {:induction false} NextPage(all: seq<Decision>, fetch: nat -> Page, page: nat, maxPages: int, since: Option<int>)
    requires page <= maxPages && !Ends(fetch(page))
    ensures var keep, rest := Keep(fetch(page).decisions, since), Crawled(fetch, page + 1, maxPages, since);
            all + Crawled(fetch, page, maxPages, since)
            == if HitsCutoff(fetch(page).decisions, since) then all + keep else all + keep + rest
  {
    var keep, rest := Keep(fetch(page).decisions, since), Crawled(fetch, page + 1, maxPages, since);
    assert all + (keep + rest) == all + keep + rest;
  }

  // ---- What the crawl returns, read off the pages -------------------------

  /** The decisions of pages 1 to n, laid end to end. */
  ghost function PagesThrough(fetch: nat -> Page, n: nat): seq<Decision> {
    if n == 0 then []
    else PagesThrough(fetch, n - 1) + if fetch(n).Listed? then fetch(n).decisions else []
  }

  ghost predicate ShowsOld(p: Page, since: Option<int>) {
    p.Listed? && since.Some? && exists d :: d in p.decisions && d.date.Some? && d.date.value < since.value
  }

  /** The crawl reads pages 1 to n: each lists something, none before the n-th shows
      an old decision, and after the n-th it stops at an old decision on it, at the
      page limit, or at a page that failed or is empty. */
  ghost predicate ReadsThrough(fetch: nat -> Page, maxPages: int, since: Option<int>, n: nat) {
    && (forall k :: 1 <= k <= n ==> fetch(k).Listed? && fetch(k).decisions != [])
    && (forall k :: 1 <= k < n ==> !ShowsOld(fetch(k), since))
    && (n > 0 ==> n <= maxPages)
    && ((n > 0 && ShowsOld(fetch(n), since)) || n >= maxPages
        || fetch(n + 1).Failed? || fetch(n + 1).decisions == [])
  }

  ghost function NotOldPositions(ds: seq<Decision>, since: Option<int>): set<nat> {
    set i: nat | i < |ds| && !(since.Some? && ds[i].date.Some? && ds[i].date.value < since.value)
  }

  lemma {:induction false} KeepSelects(ds: seq<Decision>, since: Option<int>)
    ensures Selection(Keep(ds, since), ds, NotOldPositions(ds, since))
  {
    if ds == [] {
      SelectNothing<Decision>();
      assert NotOldPositions(ds, since) == {};
    } else {
      var front, last := ds[..|ds| - 1], ds[|ds| - 1];
      KeepSelects(front, since);
      Rejoin(ds);
      if IsOld(last, since) {
        SelectSkip(Keep(front, since), front, NotOldPositions(front, since), last);
        assert NotOldPositions(ds, since) == NotOldPositions(front, since);
      } else {
        SelectTake(Keep(front, since), front, NotOldPositions(front, since), last);
        assert NotOldPositions(ds, since) == NotOldPositions(front, since) + {|front|};
      }
    }
  }

  lemma OldMeans(p: Page, since: Option<int>)
    requires p.Listed?
    ensures HitsCutoff(p.decisions, since) <==> ShowsOld(p, since)
  {
    if ShowsOld(p, since) {
      var d :| d in p.decisions && d.date.Some? && d.date.value < since.value;
      var i :| 0 <= i < |p.decisions| && p.decisions[i] == d;
      assert IsOld(p.decisions[i], since);
    }
    if HitsCutoff(p.decisions, since) {
      var i :| 0 <= i < |p.decisions| && IsOld(p.decisions[i], since);
      assert p.decisions[i] in p.decisions;
    }
  }

  ghost function KeptThrough(fetch: nat -> Page, since: Option<int>, n: nat): seq<Decision> {
    if n == 0 then []
    else KeptThrough(fetch, since, n - 1) + if fetch(n).Listed? then Keep(fetch(n).decisions, since) else []
  }

  lemma {:induction false} KeptThroughIsKeep(fetch: nat -> Page, since: Option<int>, n: nat)
    ensures KeptThrough(fetch, since, n) == Keep(PagesThrough(fetch, n), since)
  {
    if n > 0 {
      KeptThroughIsKeep(fetch, since, n - 1);
      KeepSplits(PagesThrough(fetch, n - 1), if fetch(n).Listed? then fetch(n).decisions else [], since);
    }
  }

  lemma {:induction false} NothingMore(kept: seq<Decision>, fetch: nat -> Page, page: nat, maxPages: int, since: Option<int>)
    requires page > maxPages || Ends(fetch(page))
    ensures kept + Crawled(fetch, page, maxPages, since) == kept
  {
  }

  /** Pages 1 to n are read and show nothing old. */
  ghost predicate NothingOldThrough(fetch: nat -> Page, maxPages: int, since: Option<int>, n: nat) {
    && (n > 0 ==> n <= maxPages)
    && forall k :: 1 <= k <= n ==> fetch(k).Listed? && fetch(k).decisions != [] && !ShowsOld(fetch(k), since)
  }

  lemma StopsBeforeNext(fetch: nat -> Page, maxPages: int, since: Option<int>, n: nat)
    requires NothingOldThrough(fetch, maxPages, since, n) && (n + 1 > maxPages || Ends(fetch(n + 1)))
    ensures ReadsThrough(fetch, maxPages, since, n)
  {
  }

  lemma StopsAtOld(fetch: nat -> Page, maxPages: int, since: Option<int>, n: nat)
    requires NothingOldThrough(fetch, maxPages, since, n) && n + 1 <= maxPages && !Ends(fetch(n + 1))
    requires ShowsOld(fetch(n + 1), since)
    ensures ReadsThrough(fetch, maxPages, since, n + 1)
  {
  }

  lemma GoesOn(fetch: nat -> Page, maxPages: int, since: Option<int>, n: nat)
    requires NothingOldThrough(fetch, maxPages, since, n) && n + 1 <= maxPages && !Ends(fetch(n + 1))
    requires !ShowsOld(fetch(n + 1), since)
    ensures NothingOldThrough(fetch, maxPages, since, n + 1)
  {
  }

  /** The pages read from the (n + 1)-th on. */
  ghost function LastRead(fetch: nat -> Page, maxPages: int, since: Option<int>, n: nat): nat
    decreases maxPages - n
  {
    if n + 1 > maxPages || Ends(fetch(n + 1)) then n
    else if HitsCutoff(fetch(n + 1).decisions, since) then n + 1
    else LastRead(fetch, maxPages, since, n + 1)
  }

  lemma {:induction false} LastReadMeans(fetch: nat -> Page, maxPages: int, since: Option<int>, n: nat)
    requires NothingOldThrough(fetch, maxPages, since, n)
    ensures ReadsThrough(fetch, maxPages, since, LastRead(fetch, maxPages, since, n))
    decreases maxPages - n
  {
    if n + 1 > maxPages || Ends(fetch(n + 1)) {
      StopsBeforeNext(fetch, maxPages, since, n);
    } else {
      OldMeans(fetch(n + 1), since);
      if HitsCutoff(fetch(n + 1).decisions, since) {
        StopsAtOld(fetch, maxPages, since, n);
      } else {
        GoesOn(fetch, maxPages, since, n);
        LastReadMeans(fetch, maxPages, since, n + 1);
      }
    }
  }

  lemma {:induction false} KeptOnePage(fetch: nat -> Page, maxPages: int, since: Option<int>, n: nat)
    requires n + 1 <= maxPages && !Ends(fetch(n + 1))
    ensures KeptThrough(fetch, since, n) + Crawled(fetch, n + 1, maxPages, since)
         == if HitsCutoff(fetch(n + 1).decisions, since) then KeptThrough(fetch, since, n + 1)
            else KeptThrough(fetch, since, n + 1) + Crawled(fetch, n + 2, maxPages, since)
  {
    NextPage(KeptThrough(fetch, since, n), fetch, n + 1, maxPages, since);
    assert KeptThrough(fetch, since, n + 1) == KeptThrough(fetch, since, n) + Keep(fetch(n + 1).decisions, since);
  }

  lemma {:induction false} KeptToLast(fetch: nat -> Page, maxPages: int, since: Option<int>, n: nat)
    ensures KeptThrough(fetch, since, n) + Crawled(fetch, n + 1, maxPages, since)
         == KeptThrough(fetch, since, LastRead(fetch, maxPages, since, n))
    decreases maxPages - n
  {
    if n + 1 > maxPages || Ends(fetch(n + 1)) {
      NothingMore(KeptThrough(fetch, since, n), fetch, n + 1, maxPages, since);
    } else {
      KeptOnePage(fetch, maxPages, since, n);
      if !HitsCutoff(fetch(n + 1).decisions, since) {
        KeptToLast(fetch, maxPages, since, n + 1);
      }
    }
  }

  /** The decisions are, in order, those not old on the pages read. */
  ghost predicate IsWhatIsRead(all: seq<Decision>, fetch: nat -> Page, maxPages: int, since: Option<int>) {
    exists n: nat :: ReadsThrough(fetch, maxPages, since, n) && SelectsNotOld(all, PagesThrough(fetch, n), since)
  }

  ghost predicate SelectsNotOld(all: seq<Decision>, read: seq<Decision>, since: Option<int>) {
    Selection(all, read, NotOldPositions(read, since))
  }

  lemma {:induction false} CrawledIsKeep(fetch: nat -> Page, maxPages: int, since: Option<int>, n: nat)
    requires n == LastRead(fetch, maxPages, since, 0)
    ensures Crawled(fetch, 1, maxPages, since) == Keep(PagesThrough(fetch, n), since)
  {
    KeptToLast(fetch, maxPages, since, 0);
    KeptThroughIsKeep(fetch, since, n);
    NothingBefore(Crawled(fetch, 1, maxPages, since));
  }

  lemma {:induction false} KeptIsRead(all: seq<Decision>, fetch: nat -> Page, maxPages: int, since: Option<int>, n: nat)
    requires ReadsThrough(fetch, maxPages, since, n) && all == Keep(PagesThrough(fetch, n), since)
    ensures IsWhatIsRead(all, fetch, maxPages, since)
  {
    KeepSelects(PagesThrough(fetch, n), since);
    assert SelectsNotOld(all, PagesThrough(fetch, n), since);
  }

  lemma {:induction false} CrawlReadsPages(all: seq<Decision>, fetch: nat -> Page, maxPages: int, since: Option<int>)
    requires all == Crawled(fetch, 1, maxPages, since)
    ensures IsWhatIsRead(all, fetch, maxPages, since)
  {
    var n := LastRead(fetch, maxPages, since, 0);
    LastReadMeans(fetch, maxPages, since, 0);
    CrawledIsKeep(fetch, maxPages, since, n);
    KeptIsRead(all, fetch, maxPages, since, n);
  }

  method CrawlPages(fetch: nat -> Page, maxPages: int, since: Option<int>) returns (all: seq<Decision>)
    ensures all == Crawled(fetch, 1, maxPages, since)
  {
    all := [];
    var page := 1;
    while page <= maxPages
      invariant page >= 1
      invariant all + Crawled(fetch, page, maxPages, since) == Crawled(fetch, 1, maxPages, since)
      decreases maxPages - page
    {
      var response := fetch(page);
      if response.Failed? || response.decisions == [] {
        break;
      }
      var keep, hitCutoff := KeepPage(response.decisions, since);
      NextPage(all, fetch, page, maxPages, since);
      all := all + keep;
      if hitCutoff {
        return;
      }
      page := page + 1;
    }
  }

  /** The decisions returned are those of the pages read that are not old, in order. */
  method CrawlSearch(fetch: nat -> Page, maxPages: int, since: Option<int>) returns (all: seq<Decision>)
    ensures all == Crawled(fetch, 1, maxPages, since)
    ensures IsWhatIsRead(all, fetch, maxPages, since)
  {
    all := CrawlPages(fetch, maxPages, since);
    CrawlReadsPages(all, fetch, maxPages, since);
  }

  // ---- Against the whole listing ------------------------------------------

  lemma {:induction false} KeepSplits(a: seq<Decision>, b: seq<Decision>, since: Option<int>)
    ensures Keep(a + b, since) == Keep(a, since) + Keep(b, since)
  {
    if b == [] {
      assert a + b == a;
    } else {
      assert (a + b)[..|a + b| - 1] == a + b[..|b| - 1];
      KeepSplits(a, b[..|b| - 1], since);
    }
  }

  lemma {:induction false} ListingIsCrawledAndUnread(fetch: nat -> Page, page: nat, maxPages: int, since: Option<int>)
    ensures Keep(Listing(fetch, page, maxPages), since)
         == Crawled(fetch, page, maxPages, since) + Keep(Unread(fetch, page, maxPages, since), since)
    decreases maxPages - page
  {
    if page <= maxPages && !Ends(fetch(page)) {
      KeepSplits(fetch(page).decisions, Listing(fetch, page + 1, maxPages), since);
      ListingIsCrawledAndUnread(fetch, page + 1, maxPages, since);
    }
  }

  /** Stopping early returns exactly the filter over the whole listing if and only
      if nothing on the pages left unread would have been kept. */
  lemma EarlyStopIsExactIff(fetch: nat -> Page, maxPages: int, since: Option<int>)
    ensures Crawled(fetch, 1, maxPages, since) == Keep(Listing(fetch, 1, maxPages), since)
       <==> forall d :: d in Unread(fetch, 1, maxPages, since) ==> IsOld(d, since)
  {
    var unread := Unread(fetch, 1, maxPages, since);
    ListingIsCrawledAndUnread(fetch, 1, maxPages, since);
    KeepNothingIff(unread, since);
  }

  lemma {:induction false} KeepNothingIff(ds: seq<Decision>, since: Option<int>)
    ensures Keep(ds, since) == [] <==> forall d :: d in ds ==> IsOld(d, since)
  {
    if ds != [] {
      var n := |ds| - 1;
      KeepNothingIff(ds[..n], since);
      assert forall d :: d in ds <==> d in ds[..n] || d == ds[n];
    }
  }

  ghost predicate NewestFirst(ds: seq<Decision>) {
    && (forall i :: 0 <= i < |ds| ==> ds[i].date.Some?)
    && (forall i, j :: 0 <= i < j < |ds| ==> ds[i].date.value >= ds[j].date.value)
  }

  lemma NewestFirstSplits(a: seq<Decision>, b: seq<Decision>)
    requires NewestFirst(a + b)
    ensures NewestFirst(b)
  {
    assert forall j :: 0 <= j < |b| ==> (a + b)[|a| + j] == b[j];
  }

  lemma OlderFollows(a: seq<Decision>, b: seq<Decision>, since: Option<int>)
    requires NewestFirst(a + b) && HitsCutoff(a, since)
    ensures forall d :: d in b ==> IsOld(d, since)
  {
    var i :| 0 <= i < |a| && IsOld(a[i], since);
    assert (a + b)[i] == a[i];
    assert forall j :: 0 <= j < |b| ==> (a + b)[|a| + j] == b[j];
  }

  lemma {:induction false} SortedListingLosesNothing(fetch: nat -> Page, page: nat, maxPages: int, since: Option<int>)
    requires NewestFirst(Listing(fetch, page, maxPages))
    ensures forall d :: d in Unread(fetch, page, maxPages, since) ==> IsOld(d, since)
    decreases maxPages - page
  {
    if page <= maxPages && !Ends(fetch(page)) {
      var here, rest := fetch(page).decisions, Listing(fetch, page + 1, maxPages);
      NewestFirstSplits(here, rest);
      if HitsCutoff(here, since) {
        OlderFollows(here, rest, since);
      } else {
        SortedListingLosesNothing(fetch, page + 1, maxPages, since);
      }
    }
  }

  /** On a fully dated, newest-first listing the early-stopping crawl is the filter. */
  lemma SortedCrawlIsTheFilter(fetch: nat -> Page, maxPages: int, since: Option<int>)
    requires NewestFirst(Listing(fetch, 1, maxPages))
    ensures Crawled(fetch, 1, maxPages, since) == Keep(Listing(fetch, 1, maxPages), since)
  {
    SortedListingLosesNothing(fetch, 1, maxPages, since);
    EarlyStopIsExactIff(fetch, maxPages, since);
  }
}
