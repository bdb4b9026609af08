/** The installation's repository catalog, read page by page from answers that nobody vouches for. */
module Catalog {
  import opened Results

  const MAX_SELECTED_REPOSITORIES: nat := 1000
  const MAX_REPOSITORIES_PER_PAGE: nat := 100
  const MAX_PAGES: nat := MAX_SELECTED_REPOSITORIES / MAX_REPOSITORIES_PER_PAGE

  datatype Repository = Repository(id: nat, fullName: string)

  datatype Error =
    | MalformedResponse | RepositoryCatalogTooLarge | InstallationSubstitution | Transport
    | RateLimited | UnexpectedStatus(status: nat)

  /** One entry of a page, as its parser leaves it. */
  type Item = Result<Repository, Error>

  /** The answer to one page request; the two fields of a 200 may be missing or ill-typed. */
  datatype Answer =
    | NoAnswer
    | ErrorAnswer(status: nat)
    | NotJson
    | Page(total: Option<nat>, items: Option<seq<Item>>)

  /** The answers to the requests for pages 1, 2, and so on: any function at all. */
  type Server = nat -> Answer

  function StatusError(status: nat): Error {
    if status == 429 then RateLimited else UnexpectedStatus(status)
  }

  // ---------------------------------------------------------------- sorting

  function Insert(r: Repository, sorted: seq<Repository>): seq<Repository> {
    if sorted == [] || r.id < sorted[0].id then [r] + sorted else [sorted[0]] + Insert(r, sorted[1..])
  }

  /** `sort_by_key` on the id, which keeps equal ids in order. */
  function SortById(rs: seq<Repository>): seq<Repository> {
    if rs == [] then [] else Insert(rs[|rs| - 1], SortById(rs[..|rs| - 1]))
  }

  predicate Ascending(rs: seq<Repository>) {
    forall i, j :: 0 <= i < j < |rs| ==> rs[i].id <= rs[j].id
  }

  predicate StrictlyAscending(rs: seq<Repository>) {
    forall i, j :: 0 <= i < j < |rs| ==> rs[i].id < rs[j].id
  }

  predicate DistinctIds(rs: seq<Repository>) {
    forall i, j :: 0 <= i < j < |rs| ==> rs[i].id != rs[j].id
  }

  lemma InFront(r: Repository, rest: seq<Repository>)
    requires Ascending(rest) && rest != [] && r.id <= rest[0].id
    ensures Ascending([r] + rest)
  {
    var all := [r] + rest;
    forall i, j | 0 <= i < j < |all| ensures all[i].id <= all[j].id {
      assert rest[0].id <= rest[j - 1].id;
      if i > 0 { assert all[i] == rest[i - 1]; }
    }
  }

  lemma {:induction false} InsertSorts(r: Repository, s: seq<Repository>)
    requires Ascending(s)
    ensures Ascending(Insert(r, s))
    ensures Insert(r, s) != [] && Insert(r, s)[0].id == if s == [] || r.id < s[0].id then r.id else s[0].id
  {
    if s != [] {
      assert s == [s[0]] + s[1..];
      InsertSorts(r, s[1..]);
      if s[0].id <= r.id { InFront(s[0], Insert(r, s[1..])); }
    }
  }

  lemma {:induction false} InsertAdds(r: Repository, s: seq<Repository>)
    ensures multiset(Insert(r, s)) == multiset(s) + multiset{r}
  {
    if s != [] {
      assert s == [s[0]] + s[1..];
      InsertAdds(r, s[1..]);
    }
  }

  lemma {:induction false} SortAscends(rs: seq<Repository>)
    ensures Ascending(SortById(rs))
  {
    hide Insert;
    if rs != [] {
      SortAscends(rs[..|rs| - 1]);
      InsertSorts(rs[|rs| - 1], SortById(rs[..|rs| - 1]));
    }
  }

  lemma {:induction false} SortKeeps(rs: seq<Repository>)
    ensures multiset(SortById(rs)) == multiset(rs)
  {
    hide Insert;
    if rs != [] {
      var init, last := rs[..|rs| - 1], rs[|rs| - 1];
      SortKeeps(init);
      InsertAdds(last, SortById(init));
      assert rs == init + [last];
    }
  }

  lemma SortSorts(rs: seq<Repository>)
    ensures Ascending(SortById(rs))
    ensures multiset(SortById(rs)) == multiset(rs)
    ensures |SortById(rs)| == |rs|
  {
    hide SortById, Ascending;
    SortAscends(rs);
    SortKeeps(rs);
    assert |multiset(SortById(rs))| == |SortById(rs)|;
  }

  predicate AdjacentEqual(rs: seq<Repository>) {
    exists i :: 0 <= i < |rs| - 1 && rs[i].id == rs[i + 1].id
  }

  /** Comparing neighbours of the sorted list finds every repetition. */
  lemma NeighboursSuffice(rs: seq<Repository>)
    requires Ascending(rs)
    ensures !AdjacentEqual(rs) <==> StrictlyAscending(rs)
  {
    if !AdjacentEqual(rs) {
      forall i, j | 0 <= i < j < |rs| ensures rs[i].id < rs[j].id {
        assert rs[i].id <= rs[i + 1].id <= rs[j].id;
      }
    }
  }

  function Count(rs: seq<Repository>, id: nat): nat {
    if rs == [] then 0 else Count(rs[..|rs| - 1], id) + (if rs[|rs| - 1].id == id then 1 else 0)
  }

  lemma {:induction false} CountInsert(r: Repository, s: seq<Repository>, id: nat)
    ensures Count(Insert(r, s), id) == Count(s, id) + (if r.id == id then 1 else 0)
  {
    if s == [] || r.id < s[0].id {
      CountSplit([r], s, id);
      assert [r][..0] == [];
    } else {
      CountInsert(r, s[1..], id);
      CountSplit([s[0]], Insert(r, s[1..]), id);
      CountSplit([s[0]], s[1..], id);
      assert s == [s[0]] + s[1..];
    }
  }

  lemma {:induction false} CountSplit(a: seq<Repository>, b: seq<Repository>, id: nat)
    ensures Count(a + b, id) == Count(a, id) + Count(b, id)
  {
    if b == [] {
      assert a + b == a;
    } else {
      assert (a + b)[..|a + b| - 1] == a + b[..|b| - 1];
      CountSplit(a, b[..|b| - 1], id);
    }
  }

  lemma {:induction false} CountSort(rs: seq<Repository>, id: nat)
    ensures Count(SortById(rs), id) == Count(rs, id)
  {
    if rs != [] {
      CountSort(rs[..|rs| - 1], id);
      CountInsert(rs[|rs| - 1], SortById(rs[..|rs| - 1]), id);
    }
  }

  lemma {:induction false} CountSome(rs: seq<Repository>, i: nat)
    requires i < |rs|
    ensures Count(rs, rs[i].id) >= 1
  {
    if i < |rs| - 1 { CountSome(rs[..|rs| - 1], i); }
  }

  ghost predicate NoneTwice(rs: seq<Repository>) {
    forall id: nat :: Count(rs, id) <= 1
  }

  /** Ids are distinct exactly when no id is counted twice. */
  lemma {:induction false} DistinctByCount(rs: seq<Repository>)
    ensures DistinctIds(rs) <==> NoneTwice(rs)
  {
    if rs != [] {
      var init, last := rs[..|rs| - 1], rs[|rs| - 1];
      DistinctByCount(init);
      if DistinctIds(rs) {
        assert DistinctIds(init);
        CountNone(init, last.id);
        forall id ensures Count(rs, id) <= 1 { assert Count(init, id) <= 1; }
      } else if DistinctIds(init) {
        var i :| 0 <= i < |init| && init[i].id == last.id;
        CountSome(init, i);
        assert Count(rs, last.id) >= 2;
      } else {
        var id :| Count(init, id) > 1;
        assert Count(rs, id) > 1;
      }
    }
  }

  lemma {:induction false} CountNone(rs: seq<Repository>, id: nat)
    requires forall i :: 0 <= i < |rs| ==> rs[i].id != id
    ensures Count(rs, id) == 0
  {
    if rs != [] { CountNone(rs[..|rs| - 1], id); }
  }

  lemma StrictIsDistinct(rs: seq<Repository>)
    requires Ascending(rs)
    ensures StrictlyAscending(rs) <==> DistinctIds(rs)
  {
  }

  lemma SortKeepsDistinct(rs: seq<Repository>)
    ensures DistinctIds(SortById(rs)) <==> DistinctIds(rs)
  {
    var sorted := SortById(rs);
    DistinctByCount(rs);
    DistinctByCount(sorted);
    if NoneTwice(rs) {
      forall id: nat ensures Count(sorted, id) <= 1 { CountSort(rs, id); }
    }
    if NoneTwice(sorted) {
      forall id: nat ensures Count(rs, id) <= 1 { CountSort(rs, id); }
    }
  }

  /** The sorted list is strictly ascending exactly when the received ids are distinct. */
  lemma SortStrict(rs: seq<Repository>)
    ensures StrictlyAscending(SortById(rs)) <==> DistinctIds(rs)
  {
    SortSorts(rs);
    StrictIsDistinct(SortById(rs));
    SortKeepsDistinct(rs);
  }

  // ---------------------------------------------------------------- the page loop

  predicate AllParsed(items: seq<Item>) {
    forall i :: 0 <= i < |items| ==> items[i].Ok?
  }

  function Values(items: seq<Item>): (r: seq<Repository>)
    requires AllParsed(items)
    ensures |r| == |items|
  {
    seq(|items|, i requires 0 <= i < |items| => items[i].value)
  }

  function FirstError(items: seq<Item>): Error
    requires !AllParsed(items)
  {
    if items[0].Err? then items[0].error else FirstError(items[1..])
  }

  /** What one page adds to what was received, or the error that ends the listing. */
  function TakePage(a: Answer, received: seq<Repository>, prior: Option<nat>): Result<(seq<Repository>, nat), Error> {
    match a
    case NoAnswer => Err(Transport)
    case ErrorAnswer(status) => Err(StatusError(status))
    case NotJson => Err(MalformedResponse)
    case Page(total, items) =>
      if total.None? then Err(MalformedResponse)
      else if total.value > MAX_SELECTED_REPOSITORIES then Err(RepositoryCatalogTooLarge)
      else if prior.Some? && prior.value != total.value then Err(InstallationSubstitution)
      else if items.None? then Err(MalformedResponse)
      else if |items.value| > MAX_REPOSITORIES_PER_PAGE || |received| + |items.value| > total.value then Err(MalformedResponse)
      else if !AllParsed(items.value) then Err(FirstError(items.value))
      else if |received| + |items.value| < total.value && items.value == [] then Err(MalformedResponse)
      else Ok((received + Values(items.value), total.value))
  }

  /** The listing from page `page` on, and how many requests it makes from there. */
  function ListFrom(server: Server, page: nat, received: seq<Repository>, prior: Option<nat>): (Result<seq<Repository>, Error>, nat)
    requires 1 <= page <= MAX_PAGES + 1
    decreases MAX_PAGES + 1 - page
  {
    if page > MAX_PAGES then (Finish(received, prior), 0)
    else
      match TakePage(server(page), received, prior)
      case Err(e) => (Err(e), 1)
      case Ok((more, total)) =>
        if |more| == total then (Finish(more, Some(total)), 1)
        else
          var (res, n) := ListFrom(server, page + 1, more, Some(total));
          (res, n + 1)
  }

  function Finish(received: seq<Repository>, total: Option<nat>): Result<seq<Repository>, Error> {
    if Some(|received|) != total then Err(RepositoryCatalogTooLarge)
    else if AdjacentEqual(SortById(received)) then Err(InstallationSubstitution)
    else Ok(SortById(received))
  }

  function Listing(server: Server): (Result<seq<Repository>, Error>, nat) {
    ListFrom(server, 1, [], None)
  }

  /** The token's remaining life is checked before anything is sent. */
  method ListInstallationRepositories(server: Server, expiresAt: nat, now: nat)
    returns (res: Result<seq<Repository>, Error>, requests: nat)
    ensures (res, requests) == if expiresAt <= now + 30 then (Err(MalformedResponse), 0) else Listing(server)
  {
    hide SortById, AdjacentEqual, TakePage, ListFrom, Finish;
    requests := 0;
    if expiresAt <= now + 30 { return Err(MalformedResponse), 0; }
    var repositories: seq<Repository> := [];
    var totalCount: Option<nat> := None;
    var page := 1;
    while page <= MAX_PAGES
      invariant 1 <= page <= MAX_PAGES + 1
      invariant requests == page - 1
      invariant Listing(server) == Later(ListFrom(server, page, repositories, totalCount), requests)
    {
      ListStep(server, page, repositories, totalCount);
      var answer := server(page);
      requests := requests + 1;
      var taken := ReadPage(answer, repositories, totalCount);
      if taken.Err? { return Err(taken.error), requests; }
      repositories := taken.value.0;
      totalCount := Some(taken.value.1);
      if |repositories| == taken.value.1 { break; }
      page := page + 1;
    }
    if page > MAX_PAGES { ListEnd(server, repositories, totalCount); }
    res := Conclude(repositories, totalCount);
  }

  /** The list is complete, sorted and without a repeated id, or it is refused. */
  method Conclude(received: seq<Repository>, total: Option<nat>) returns (res: Result<seq<Repository>, Error>)
    ensures res == Finish(received, total)
  {
    if Some(|received|) != total { return Err(RepositoryCatalogTooLarge); }
    var repositories := SortById(received);
    if AdjacentEqual(repositories) { return Err(InstallationSubstitution); }
    res := Ok(repositories);
  }

  /** A listing after some requests more. */
  function Later(listing: (Result<seq<Repository>, Error>, nat), requests: nat): (Result<seq<Repository>, Error>, nat) {
    (listing.0, requests + listing.1)
  }

  lemma ListStep(server: Server, page: nat, received: seq<Repository>, prior: Option<nat>)
    requires 1 <= page <= MAX_PAGES
    ensures ListFrom(server, page, received, prior) ==
      match TakePage(server(page), received, prior)
      case Err(e) => (Err(e), 1)
      case Ok((more, total)) =>
        if |more| == total then (Finish(more, Some(total)), 1) else Later(ListFrom(server, page + 1, more, Some(total)), 1)
  {
  }

  lemma ListEnd(server: Server, received: seq<Repository>, prior: Option<nat>)
    ensures ListFrom(server, MAX_PAGES + 1, received, prior) == (Finish(received, prior), 0)
  {
  }

  /** The entries of a page, or the error of the first that does not parse. */
  method ReadItems(items: seq<Item>) returns (res: Result<seq<Repository>, Error>)
    ensures res == if AllParsed(items) then Ok(Values(items)) else Err(FirstError(items))
  {
    var repositories: seq<Repository> := [];
    for i := 0 to |items|
      invariant AllParsed(items[..i]) && repositories == Values(items[..i])
    {
      if items[i].Err? {
        FirstErrorAt(items, i);
        return Err(items[i].error);
      }
      assert items[..i + 1] == items[..i] + [items[i]];
      repositories := repositories + [items[i].value];
    }
    assert items[..|items|] == items;
    res := Ok(repositories);
  }

  /** The checks of one page in their order, and what the page adds. */
  method ReadPage(answer: Answer, received: seq<Repository>, prior: Option<nat>) returns (res: Result<(seq<Repository>, nat), Error>)
    ensures res == TakePage(answer, received, prior)
  {
    if answer.NoAnswer? { return Err(Transport); }
    if answer.ErrorAnswer? { return Err(StatusError(answer.status)); }
    if answer.NotJson? || answer.total.None? { return Err(MalformedResponse); }
    var observed := answer.total.value;
    if observed > MAX_SELECTED_REPOSITORIES { return Err(RepositoryCatalogTooLarge); }
    if prior.Some? && prior.value != observed { return Err(InstallationSubstitution); }
    if answer.items.None? { return Err(MalformedResponse); }
    var items := answer.items.value;
    if |items| > MAX_REPOSITORIES_PER_PAGE || |received| + |items| > observed { return Err(MalformedResponse); }
    var added := ReadItems(items);
    if added.Err? { return Err(added.error); }
    if |received| + |items| < observed && items == [] { return Err(MalformedResponse); }
    res := Ok((received + added.value, observed));
  }

  lemma {:induction false} FirstErrorAt(items: seq<Item>, i: nat)
    requires i < |items| && items[i].Err? && AllParsed(items[..i])
    ensures !AllParsed(items) && FirstError(items) == items[i].error
  {
    if i > 0 {
      assert items[..i][0] == items[0];
      assert items[1..][..i - 1] == items[..i][1..];
      FirstErrorAt(items[1..], i - 1);
    }
  }
}
