/** What a catalog listing can be trusted for, whatever the server answers. */
module CatalogTheory {
  import opened Results
  import opened Catalog

  predicate GoodPage(a: Answer) {
    a.Page? && a.total.Some? && a.items.Some? && AllParsed(a.items.value)
  }

  /** Everything that the first `k` pages contained. */
  function Received(server: Server, k: nat): seq<Repository> {
    if k == 0 then []
    else Received(server, k - 1) + (if GoodPage(server(k)) then Values(server(k).items.value) else [])
  }

  /** Pages 1 to `k` agree on the total `total` and together hold exactly that many entries, no sooner than page `k`. */
  ghost predicate Consistent(server: Server, k: nat, total: nat) {
    && 1 <= k <= MAX_PAGES && total <= MAX_SELECTED_REPOSITORIES
    && |Received(server, k)| == total
    && forall p :: 1 <= p <= k ==> PageFits(server, p, k, total)
  }

  ghost predicate PageFits(server: Server, p: nat, k: nat, total: nat)
    requires p >= 1
  {
    && GoodPage(server(p)) && server(p).total.value == total
    && |server(p).items.value| <= MAX_REPOSITORIES_PER_PAGE
    && (p < k ==> server(p).items.value != [] && |Received(server, p)| < total)
  }

  lemma {:induction false} ReceivedGrows(server: Server, p: nat, k: nat)
    requires p <= k
    ensures |Received(server, p)| <= |Received(server, k)|
  {
    if p < k { ReceivedGrows(server, p, k - 1); }
  }

  /** The pages before `page` have all been taken. */
  ghost predicate Taken(server: Server, page: nat, total: Option<nat>) {
    && (page == 1 <==> total.None?)
    && forall p :: 1 <= p < page ==> total.Some? && PageFits(server, p, page, total.value)
  }

  lemma TakenMore(server: Server, page: nat, total: Option<nat>)
    requires 1 <= page <= MAX_PAGES && Taken(server, page, total)
    requires TakePage(server(page), Received(server, page - 1), total).Ok?
    ensures var (more, t) := TakePage(server(page), Received(server, page - 1), total).value;
      && more == Received(server, page)
      && (|more| < t ==> Taken(server, page + 1, Some(t)))
      && (|more| == t ==> Consistent(server, page, t))
  {
    var (more, t) := TakePage(server(page), Received(server, page - 1), total).value;
    var next := page + 1;
    if |more| < t {
      forall p | 1 <= p < next ensures PageFits(server, p, next, t) {
        if p < page { assert PageFits(server, p, page, total.value); }
      }
    } else {
      forall p | 1 <= p <= page ensures PageFits(server, p, page, t) {
        if p < page { assert PageFits(server, p, page, total.value); }
      }
    }
  }

  /** The listing ended with page `last` and returns the catalog of all pages read. */
  ghost predicate ReadWhole(server: Server, last: nat, res: seq<Repository>) {
    && Consistent(server, last, |res|)
    && DistinctIds(Received(server, last))
    && res == SortById(Received(server, last))
  }

  lemma FinishExact(received: seq<Repository>)
    ensures DistinctIds(received) ==> Finish(received, Some(|received|)) == Ok(SortById(received))
    ensures !DistinctIds(received) ==> Finish(received, Some(|received|)) == Err(InstallationSubstitution)
    ensures |SortById(received)| == |received|
  {
    SortSorts(received);
    SortStrict(received);
    NeighboursSuffice(SortById(received));
  }

  /** After ten pages that did not complete the catalog the listing fails. */
  lemma TooManyPages(server: Server, total: Option<nat>)
    requires Taken(server, MAX_PAGES + 1, total)
    ensures Finish(Received(server, MAX_PAGES), total) == Err(RepositoryCatalogTooLarge)
  {
    assert PageFits(server, MAX_PAGES, MAX_PAGES + 1, total.value);
  }

  /** A listing that succeeds has read a consistent catalog and returns it sorted. */
  lemma {:induction false} ListFromSound(server: Server, page: nat, total: Option<nat>)
    requires 1 <= page <= MAX_PAGES + 1 && Taken(server, page, total)
    ensures var (res, n) := ListFrom(server, page, Received(server, page - 1), total);
      n <= MAX_PAGES + 1 - page && (res.Ok? ==> n >= 1 && ReadWhole(server, page - 1 + n, res.value))
    decreases MAX_PAGES + 1 - page
  {
    hide Received, SortById, DistinctIds;
    if page == MAX_PAGES + 1 {
      TooManyPages(server, total);
    } else {
      var taken := TakePage(server(page), Received(server, page - 1), total);
      if taken.Ok? {
        TakenMore(server, page, total);
        var (more, t) := taken.value;
        if |more| == t {
          FinishExact(more);
        } else {
          ListFromSound(server, page + 1, Some(t));
          var (rest, n) := ListFrom(server, page + 1, more, Some(t));
          assert ListFrom(server, page, Received(server, page - 1), total) == (rest, n + 1);
        }
      }
    }
  }

  /** A page of a consistent catalog is taken; it completes the list exactly when it is the last. */
  lemma PageTaken(server: Server, page: nat, total: Option<nat>, k: nat, t: nat)
    requires 1 <= page <= k && (page == 1 <==> total.None?) && (page > 1 ==> total == Some(t))
    requires Consistent(server, k, t)
    ensures k <= MAX_PAGES
    ensures TakePage(server(page), Received(server, page - 1), total) == Ok((Received(server, page), t))
    ensures page < k ==> |Received(server, page)| < t
    ensures page == k ==> |Received(server, page)| == t
  {
    assert PageFits(server, page, k, t);
    ReceivedGrows(server, page, k);
  }

  lemma ListNext(server: Server, page: nat, received: seq<Repository>, prior: Option<nat>, more: seq<Repository>, total: nat)
    requires 1 <= page <= MAX_PAGES && TakePage(server(page), received, prior) == Ok((more, total))
    ensures ListFrom(server, page, received, prior) ==
      if |more| == total then (Finish(more, Some(total)), 1)
      else (ListFrom(server, page + 1, more, Some(total)).0, ListFrom(server, page + 1, more, Some(total)).1 + 1)
  {
  }

  /** A consistent catalog with distinct ids that begins with the pages already taken is always read to its end. */
  lemma {:induction false} ListFromComplete(server: Server, page: nat, total: Option<nat>, k: nat, t: nat)
    requires 1 <= page <= k && (page == 1 <==> total.None?) && (page > 1 ==> total == Some(t))
    requires Consistent(server, k, t) && DistinctIds(Received(server, k))
    ensures ListFrom(server, page, Received(server, page - 1), total) == (Ok(SortById(Received(server, k))), k + 1 - page)
    decreases k - page
  {
    hide TakePage, Consistent, PageFits, SortById, DistinctIds, Received, ListFrom, Finish;
    PageTaken(server, page, total, k, t);
    ListNext(server, page, Received(server, page - 1), total, Received(server, page), t);
    if page == k {
      FinishExact(Received(server, k));
    } else {
      ListFromComplete(server, page + 1, Some(t), k, t);
    }
  }

  /**
   For arbitrary answers: at most ten requests, and success exactly when the pages form a
   consistent catalog with distinct ids. The result is then that catalog, strictly sorted,
   each received entry once, and as long as the total every page announced.
   */
  lemma ListingExact(server: Server)
    ensures var (res, n) := Listing(server);
      && n <= MAX_PAGES
      && (res.Ok? <==> exists k: nat, t: nat :: Consistent(server, k, t) && DistinctIds(Received(server, k)))
      && (res.Ok? ==>
            && Consistent(server, n, |res.value|)
            && StrictlyAscending(res.value)
            && multiset(res.value) == multiset(Received(server, n)))
  {
    ListFromSound(server, 1, None);
    var (res, n) := Listing(server);
    if k: nat, t: nat :| Consistent(server, k, t) && DistinctIds(Received(server, k)) {
      ListFromComplete(server, 1, None, k, t);
    }
    if res.Ok? {
      SortSorts(Received(server, n));
      SortStrict(Received(server, n));
    }
  }

  // ---------------------------------------------------------------- an honest server

  function Slice(catalog: seq<Repository>, page: nat): seq<Repository>
    requires page >= 1
  {
    var lo := if MAX_REPOSITORIES_PER_PAGE * (page - 1) < |catalog| then MAX_REPOSITORIES_PER_PAGE * (page - 1) else |catalog|;
    var hi := if MAX_REPOSITORIES_PER_PAGE * page < |catalog| then MAX_REPOSITORIES_PER_PAGE * page else |catalog|;
    catalog[lo..hi]
  }

  function Items(rs: seq<Repository>): seq<Item> {
    seq(|rs|, i requires 0 <= i < |rs| => Ok(rs[i]))
  }

  /** Every page answers 200 with the true total and its own hundred entries. */
  ghost predicate Honest(server: Server, catalog: seq<Repository>) {
    forall page: nat :: page >= 1 ==> server(page) == Page(Some(|catalog|), Some(Items(Slice(catalog, page))))
  }

  lemma {:induction false} HonestReceived(server: Server, catalog: seq<Repository>, k: nat)
    requires Honest(server, catalog)
    ensures Received(server, k) ==
      catalog[..if MAX_REPOSITORIES_PER_PAGE * k < |catalog| then MAX_REPOSITORIES_PER_PAGE * k else |catalog|]
  {
    if k > 0 {
      HonestReceived(server, catalog, k - 1);
      assert server(k) == Page(Some(|catalog|), Some(Items(Slice(catalog, k))));
      assert Values(Items(Slice(catalog, k))) == Slice(catalog, k);
    }
  }

  function Pages(n: nat): nat {
    if n == 0 then 1 else (n + MAX_REPOSITORIES_PER_PAGE - 1) / MAX_REPOSITORIES_PER_PAGE
  }

  lemma HonestConsistent(server: Server, catalog: seq<Repository>)
    requires Honest(server, catalog) && |catalog| <= MAX_SELECTED_REPOSITORIES
    ensures Consistent(server, Pages(|catalog|), |catalog|)
    ensures Received(server, Pages(|catalog|)) == catalog
  {
    var k := Pages(|catalog|);
    HonestReceived(server, catalog, k);
    assert MAX_REPOSITORIES_PER_PAGE * k >= |catalog|;
    assert catalog[..|catalog|] == catalog;
    forall p | 1 <= p <= k ensures PageFits(server, p, k, |catalog|) {
      HonestReceived(server, catalog, p);
      assert server(p) == Page(Some(|catalog|), Some(Items(Slice(catalog, p))));
      assert p < k ==> MAX_REPOSITORIES_PER_PAGE * p < |catalog|;
    }
  }

  /** An honest server's catalog of at most 1000 distinct entries is always listed, in max(1, ceil(n/100)) requests. */
  lemma HonestListing(server: Server, catalog: seq<Repository>)
    requires Honest(server, catalog) && |catalog| <= MAX_SELECTED_REPOSITORIES && DistinctIds(catalog)
    ensures Listing(server) == (Ok(SortById(catalog)), Pages(|catalog|))
    ensures StrictlyAscending(SortById(catalog)) && multiset(SortById(catalog)) == multiset(catalog)
  {
    HonestConsistent(server, catalog);
    ListFromComplete(server, 1, None, Pages(|catalog|), |catalog|);
    SortSorts(catalog);
    SortStrict(catalog);
  }
}
