/** The permission merge as a join, and where it is not one. */
module PermissionTheory {
  import opened Results
  import opened Workflow

  /** What the importer ever puts into the cache fields. */
  predicate ImporterCache(p: PermissionState) {
    p.cacheRead in {CacheReadDeny, Run} && p.cacheWrite in {CacheWriteDeny, Quarantine}
  }

  /** Capability inclusion: accesses, cache, destinations and secret names. */
  ghost predicate Within(p: PermissionState, q: PermissionState) {
    && (forall s: Scope :: Leq(At(p.access, s), At(q.access, s)))
    && (p.cacheRead != CacheReadDeny ==> q.cacheRead != CacheReadDeny)
    && (p.cacheWrite != CacheWriteDeny ==> q.cacheWrite != CacheWriteDeny)
    && p.destinations <= q.destinations
    && p.secrets.Keys <= q.secrets.Keys
  }

  lemma MergeAt(p: PermissionState, q: PermissionState, s: Scope)
    ensures At(MergeMaximum(p, q).access, s) == Max(At(p.access, s), At(q.access, s))
  {
  }

  /** The merge contains both sides, and is contained in whatever contains both. */
  lemma MergeIsJoin(p: PermissionState, q: PermissionState, bound: PermissionState)
    ensures Within(p, MergeMaximum(p, q)) && Within(q, MergeMaximum(p, q))
    ensures Within(p, bound) && Within(q, bound) ==> Within(MergeMaximum(p, q), bound)
  {
    forall s: Scope
      ensures At(MergeMaximum(p, q).access, s) == Max(At(p.access, s), At(q.access, s))
    {
      MergeAt(p, q, s);
    }
  }

  lemma WithinTransitive(p: PermissionState, q: PermissionState, r: PermissionState)
    requires Within(p, q) && Within(q, r)
    ensures Within(p, r)
  {
    forall s: Scope ensures Leq(At(p.access, s), At(r.access, s)) {
      assert Leq(At(p.access, s), At(q.access, s)) && Leq(At(q.access, s), At(r.access, s));
    }
  }

  /** The workflow's permissions: the top level's, then each job's in turn. */
  function Folded(top: PermissionState, jobs: seq<PermissionState>): PermissionState {
    if jobs == [] then top else MergeMaximum(Folded(top, jobs[..|jobs| - 1]), jobs[|jobs| - 1])
  }

  ghost predicate Bounds(bound: PermissionState, top: PermissionState, jobs: seq<PermissionState>) {
    Within(top, bound) && forall i :: 0 <= i < |jobs| ==> Within(jobs[i], bound)
  }

  /** The fold is an upper bound of the top level and all jobs, and within every other. */
  lemma {:induction false} FoldIsLeastUpperBound(top: PermissionState, jobs: seq<PermissionState>, bound: PermissionState)
    ensures Bounds(Folded(top, jobs), top, jobs)
    ensures Bounds(bound, top, jobs) ==> Within(Folded(top, jobs), bound)
  {
    if jobs != [] {
      var init, last := jobs[..|jobs| - 1], jobs[|jobs| - 1];
      var before := Folded(top, init);
      FoldIsLeastUpperBound(top, init, bound);
      MergeIsJoin(before, last, bound);
      WithinTransitive(top, before, Folded(top, jobs));
      forall i | 0 <= i < |jobs| ensures Within(jobs[i], Folded(top, jobs)) {
        if i < |init| {
          assert Within(init[i], before);
          WithinTransitive(jobs[i], before, Folded(top, jobs));
        }
      }
      if Bounds(bound, top, jobs) {
        assert forall i :: 0 <= i < |init| ==> init[i] == jobs[i];
        assert Bounds(bound, top, init);
      }
    }
  }

  lemma SameJobsBound(top: PermissionState, jobs: seq<PermissionState>, reordered: seq<PermissionState>, bound: PermissionState)
    requires Bounds(bound, top, reordered) && forall p :: p in jobs ==> p in reordered
    ensures Bounds(bound, top, jobs)
  {
    forall i | 0 <= i < |jobs| ensures Within(jobs[i], bound) {
      assert jobs[i] in reordered;
      var j :| 0 <= j < |reordered| && reordered[j] == jobs[i];
      assert Within(reordered[j], bound);
    }
  }

  lemma SameAccess(a: Scopes9, b: Scopes9)
    requires forall s: Scope :: Leq(At(a, s), At(b, s)) && Leq(At(b, s), At(a, s))
    ensures a == b
  {
    assert Leq(At(a, Repository), At(b, Repository)) && Leq(At(a, Contents), At(b, Contents));
    assert Leq(At(a, Issues), At(b, Issues)) && Leq(At(a, PullRequests), At(b, PullRequests));
    assert Leq(At(a, ScmChecks), At(b, ScmChecks)) && Leq(At(a, Statuses), At(b, Statuses));
    assert Leq(At(a, Checks), At(b, Checks)) && Leq(At(a, Artifacts), At(b, Artifacts));
    assert Leq(At(a, Registry), At(b, Registry));
  }

  /** Accesses and destinations do not depend on the order of the jobs, nor does whether a cache field is denied. */
  lemma FoldOrderFree(top: PermissionState, jobs: seq<PermissionState>, reordered: seq<PermissionState>)
    requires forall p :: p in jobs <==> p in reordered
    ensures var f, g := Folded(top, jobs), Folded(top, reordered);
      && f.access == g.access && f.destinations == g.destinations && f.secrets.Keys == g.secrets.Keys
      && (f.cacheRead == CacheReadDeny <==> g.cacheRead == CacheReadDeny)
      && (f.cacheWrite == CacheWriteDeny <==> g.cacheWrite == CacheWriteDeny)
  {
    var f, g := Folded(top, jobs), Folded(top, reordered);
    FoldIsLeastUpperBound(top, jobs, g);
    FoldIsLeastUpperBound(top, reordered, f);
    SameJobsBound(top, jobs, reordered, g);
    SameJobsBound(top, reordered, jobs, f);
    SameAccess(f.access, g.access);
  }

  /** A cache field of the workflow is denied exactly when all are. */
  lemma {:induction false} CacheDeniedExactly(top: PermissionState, jobs: seq<PermissionState>)
    ensures Folded(top, jobs).cacheRead == CacheReadDeny <==>
      top.cacheRead == CacheReadDeny && forall i :: 0 <= i < |jobs| ==> jobs[i].cacheRead == CacheReadDeny
    ensures Folded(top, jobs).cacheWrite == CacheWriteDeny <==>
      top.cacheWrite == CacheWriteDeny && forall i :: 0 <= i < |jobs| ==> jobs[i].cacheWrite == CacheWriteDeny
  {
    if jobs != [] {
      var init := jobs[..|jobs| - 1];
      CacheDeniedExactly(top, init);
      assert forall i :: 0 <= i < |init| ==> init[i] == jobs[i];
    }
  }

  /** The cache merge is left-biased: it commutes exactly where one side denies or both agree. */
  lemma CacheMergeCommutes(a: CacheRead, b: CacheRead, x: CacheWrite, y: CacheWrite)
    ensures MergeCacheRead(a, b) == MergeCacheRead(b, a) <==> a == CacheReadDeny || b == CacheReadDeny || a == b
    ensures MergeCacheWrite(x, y) == MergeCacheWrite(y, x) <==> x == CacheWriteDeny || y == CacheWriteDeny || x == y
  {
  }

  /** On the values the importer uses the whole merged cache permission is order-free. */
  lemma {:induction false} ImporterCacheOrderFree(top: PermissionState, jobs: seq<PermissionState>, reordered: seq<PermissionState>)
    requires ImporterCache(top) && forall p :: p in jobs ==> ImporterCache(p)
    requires forall p :: p in jobs <==> p in reordered
    ensures Folded(top, jobs).cacheRead == Folded(top, reordered).cacheRead
    ensures Folded(top, jobs).cacheWrite == Folded(top, reordered).cacheWrite
  {
    FoldOrderFree(top, jobs, reordered);
    ImporterCacheFolded(top, jobs);
    ImporterCacheFolded(top, reordered);
  }

  lemma {:induction false} ImporterCacheFolded(top: PermissionState, jobs: seq<PermissionState>)
    requires ImporterCache(top) && forall p :: p in jobs ==> ImporterCache(p)
    ensures ImporterCache(Folded(top, jobs))
  {
    if jobs != [] {
      assert jobs[|jobs| - 1] in jobs;
      ImporterCacheFolded(top, jobs[..|jobs| - 1]);
    }
  }
}
