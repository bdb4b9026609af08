/** The identities of the action builder: the bytes hashed for its material policy and for its cache id. */
module Materials {
  import opened Results
  import opened Text
  import opened Ordering
  import opened Validation

  const NUL: char := '\0'
  const MATERIAL_PREFIX: string := "runtrue.repository-action-material-policy.v1\0"
  const CACHE_PREFIX: string := "runtrue.repository-action-cache.v3\0"

  // ---------------------------------------------------------------- the normalized list

  function Insert(image: string, sorted: seq<string>): seq<string> {
    if sorted == [] || LexLess(image, sorted[0]) then [image] + sorted
    else if image == sorted[0] then sorted
    else [sorted[0]] + Insert(image, sorted[1..])
  }

  /** `normalized_allowed_base_images`: sorted, without repetitions. */
  function Normalized(images: seq<string>): seq<string> {
    if images == [] then [] else Insert(images[0], Normalized(images[1..]))
  }

  lemma {:induction false} InsertSorted(image: string, s: seq<string>)
    requires StrictlySorted(s)
    ensures StrictlySorted(Insert(image, s))
    ensures forall x :: x in Insert(image, s) <==> x == image || x in s
  {
    if s == [] || image == s[0] {
    } else if LexLess(image, s[0]) {
      var r := [image] + s;
      forall i, j | 0 <= i < j < |r| ensures LexLess(r[i], r[j]) {
        if i == 0 && j > 1 { LexTransitive(image, s[0], s[j - 1]); }
      }
    } else {
      LexTotal(image, s[0]);
      InsertSorted(image, s[1..]);
      var rest := Insert(image, s[1..]);
      assert s == [s[0]] + s[1..];
      forall j | 0 <= j < |rest| ensures LexLess(s[0], rest[j]) {
        if rest[j] != image { assert rest[j] in rest && rest[j] in s[1..]; }
      }
      assert Insert(image, s) == [s[0]] + rest;
    }
  }

  lemma {:induction false} NormalizedSorted(images: seq<string>)
    ensures StrictlySorted(Normalized(images))
    ensures forall x :: x in Normalized(images) <==> x in images
  {
    if images != [] {
      NormalizedSorted(images[1..]);
      InsertSorted(images[0], Normalized(images[1..]));
      assert images == [images[0]] + images[1..];
    }
  }

  ghost predicate SameSet(a: seq<string>, b: seq<string>) {
    forall x :: x in a <==> x in b
  }

  /** Normalizing forgets order and repetition, and nothing else. */
  lemma NormalizedExact(a: seq<string>, b: seq<string>)
    ensures Normalized(a) == Normalized(b) <==> SameSet(a, b)
  {
    NormalizedSorted(a);
    NormalizedSorted(b);
    if SameSet(a, b) {
      SortedUnique(Normalized(a), Normalized(b));
    }
  }

  // ---------------------------------------------------------------- the material bytes

  function Terminated(images: seq<string>): string {
    if images == [] then "" else Terminated(images[..|images| - 1]) + images[|images| - 1] + [NUL]
  }

  /** `material_policy_digest` up to the hash. */
  method MaterialBytes(images: seq<string>) returns (material: string)
    ensures material == MATERIAL_PREFIX + Terminated(images)
  {
    material := MATERIAL_PREFIX;
    assert images[..0] == [];
    for i := 0 to |images|
      invariant material == MATERIAL_PREFIX + Terminated(images[..i])
    {
      assert images[..i + 1][..i] == images[..i];
      material := material + images[i];
      material := material + [NUL];
    }
    assert images[..|images|] == images;
  }

  /** What `validate_args` demands of the base images: each is pinned by digest. A NUL is not excluded. */
  predicate AllPinned(images: seq<string>) {
    forall i :: 0 <= i < |images| ==> ImmutableImage(images[i])
  }

  /** The list is written from the front to the back. */
  lemma {:induction false} TerminatedFront(images: seq<string>)
    requires images != []
    ensures Terminated(images) == images[0] + [NUL] + Terminated(images[1..])
  {
    var n := |images| - 1;
    if n == 0 {
      assert images[..0] == [] && images[1..] == [];
      assert Terminated(images) == Terminated(images[..0]) + images[0] + [NUL];
    } else {
      TerminatedFront(images[..n]);
      var rest := images[1..];
      assert rest[..|rest| - 1] == images[..n][1..] && rest[|rest| - 1] == images[n];
      calc {
        Terminated(images);
        Terminated(images[..n]) + images[n] + [NUL];
        (images[0] + [NUL] + Terminated(images[..n][1..])) + images[n] + [NUL];
        images[0] + [NUL] + (Terminated(rest[..|rest| - 1]) + rest[|rest| - 1] + [NUL]);
        images[0] + [NUL] + Terminated(rest);
      }
    }
  }

  /** A pinned image has one `@`, and 71 characters after it. */
  lemma MarkOf(image: string) returns (repository: string, rest: string)
    requires ImmutableImage(image)
    ensures image == repository + ['@'] + rest && '@' !in repository && |rest| == 71
  {
    var (head, digest) := RSplitOnce(image, SHA256_MARK).value;
    repository, rest := head, "sha256:" + digest;
    assert SHA256_MARK == ['@'] + "sha256:";
    assert image == head + SHA256_MARK + digest;
  }

  /** Where a pinned image ends is told by its `@`. */
  lemma FirstPinned(x: string, y: string, s: string, t: string)
    requires ImmutableImage(x) && ImmutableImage(y) && x + [NUL] + s == y + [NUL] + t
    ensures x == y && s == t
  {
    var head, rest := MarkOf(x);
    var head', rest' := MarkOf(y);
    var more, more' := rest + [NUL] + s, rest' + [NUL] + t;
    assert x + [NUL] + s == head + ['@'] + more && y + [NUL] + t == head' + ['@'] + more';
    SplitAtFirst('@', head, head', more, more');
    assert rest == more[..71] && rest' == more'[..71];
    assert s == more[72..] && t == more'[72..];
  }

  lemma FirstTerminated(a: seq<string>, b: seq<string>)
    requires a != [] && b != [] && AllPinned(a) && AllPinned(b)
    requires Terminated(a) == Terminated(b)
    ensures a[0] == b[0] && Terminated(a[1..]) == Terminated(b[1..])
  {
    assert ImmutableImage(a[0]) && ImmutableImage(b[0]);
    hide Terminated, ImmutableImage, AllPinned;
    TerminatedFront(a);
    TerminatedFront(b);
    FirstPinned(a[0], b[0], Terminated(a[1..]), Terminated(b[1..]));
  }

  /** Lists of pinned images are uniquely decodable: nothing in them need be free of NUL. */
  lemma {:induction false} TerminatedInjective(a: seq<string>, b: seq<string>)
    requires AllPinned(a) && AllPinned(b)
    requires Terminated(a) == Terminated(b)
    ensures a == b
  {
    if a != [] && b != [] {
      FirstTerminated(a, b);
      TerminatedInjective(a[1..], b[1..]);
      assert a == [a[0]] + a[1..] && b == [b[0]] + b[1..];
    }
  }

  /** For pinned images the hashed bytes are equal exactly when the lists denote the same set. */
  lemma MaterialExact(a: seq<string>, b: seq<string>)
    requires AllPinned(a) && AllPinned(b)
    ensures MATERIAL_PREFIX + Terminated(Normalized(a)) == MATERIAL_PREFIX + Terminated(Normalized(b)) <==> SameSet(a, b)
  {
    NormalizedExact(a, b);
    NormalizedPinned(a);
    NormalizedPinned(b);
    var ta, tb := Terminated(Normalized(a)), Terminated(Normalized(b));
    assert (MATERIAL_PREFIX + ta)[|MATERIAL_PREFIX|..] == ta && (MATERIAL_PREFIX + tb)[|MATERIAL_PREFIX|..] == tb;
    if ta == tb { TerminatedInjective(Normalized(a), Normalized(b)); }
  }

  lemma NormalizedPinned(a: seq<string>)
    requires AllPinned(a)
    ensures AllPinned(Normalized(a))
  {
    NormalizedSorted(a);
    forall i | 0 <= i < |Normalized(a)| ensures ImmutableImage(Normalized(a)[i]) {
      assert Normalized(a)[i] in a;
    }
  }

  // ---------------------------------------------------------------- the cache id

  datatype Network = NoNetwork | DefaultNetwork

  function NetworkValue(n: Network): string {
    match n case NoNetwork => "none" case DefaultNetwork => "default"
  }

  function PolicyOf(n: Network): string {
    match n
    case NoNetwork => NO_NETWORK_POLICY
    case DefaultNetwork => DEFAULT_NETWORK_POLICY
  }

  // The policy ids differ in their middle only, and so do the environment ids.
  const POLICY: string := "runtrue.repository-action-build."
  const PINNED_MATERIALS: string := ".pinned-materials"
  const NO_NETWORK_POLICY: string := POLICY + "v2.network-none" + PINNED_MATERIALS
  const DEFAULT_NETWORK_POLICY: string := POLICY + "v3.network-default" + PINNED_MATERIALS

  const BUILDKIT: string := "runtrue.buildkit.v0.26.2."
  const NO_ENTITLEMENTS: string := ".no-insecure-entitlements"
  const DOCKER_ENVIRONMENT: string := BUILDKIT + "docker-driver" + NO_ENTITLEMENTS
  const CONTAINER_ENVIRONMENT: string := BUILDKIT + "docker-container-driver" + NO_ENTITLEMENTS
  const HOST_NETWORK_ENVIRONMENT: string := BUILDKIT + "docker-container-host-network-driver" + NO_ENTITLEMENTS

  const ENVIRONMENTS: seq<string> := [DOCKER_ENVIRONMENT, CONTAINER_ENVIRONMENT, HOST_NETWORK_ENVIRONMENT]

  datatype Config = Config(policyId: string, environmentId: string, network: Network, baseImages: seq<string>, repository: string)

  /** What `validate_args` demands of the parts of a cache id, so far as they are needed to tell two apart. */
  predicate ValidConfig(c: Config) {
    c.policyId == PolicyOf(c.network) && c.environmentId in ENVIRONMENTS && AllPinned(c.baseImages)
  }

  predicate ValidContextId(id: string) { |id| == 64 && forall i :: 0 <= i < |id| ==> IsLowerHex(id[i]) }

  /** A hash: injective, printed without NUL. */
  ghost predicate Hashes(h: string -> string) {
    (forall x, y :: h(x) == h(y) ==> x == y) && forall x :: NUL !in h(x)
  }

  function MaterialDigest(c: Config, h: string -> string): string {
    h(MATERIAL_PREFIX + Terminated(Normalized(c.baseImages)))
  }

  /** `build_cache_id`: a prefix and six fields joined by NUL. */
  function CacheId(c: Config, contextId: string, h: string -> string): string {
    h(CACHE_PREFIX + SixFields(c.policyId, c.environmentId, NetworkValue(c.network), MaterialDigest(c, h), c.repository, contextId))
  }

  function SixFields(a: string, b: string, c: string, d: string, e: string, f: string): string {
    a + [NUL] + (b + [NUL] + (c + [NUL] + (d + [NUL] + (e + [NUL] + f))))
  }

  /** Only the fifth field may hold the separator: the first four are read from the front, the last from the back. */
  lemma SixFieldsInjective(a: string, b: string, c: string, d: string, e: string, f: string,
                           a': string, b': string, c': string, d': string, e': string, f': string)
    requires NUL !in a && NUL !in b && NUL !in c && NUL !in d && NUL !in f
    requires NUL !in a' && NUL !in b' && NUL !in c' && NUL !in d' && NUL !in f'
    requires SixFields(a, b, c, d, e, f) == SixFields(a', b', c', d', e', f')
    ensures a == a' && b == b' && c == c' && d == d' && e == e' && f == f'
  {
    var x4, y4 := e + [NUL] + f, e' + [NUL] + f';
    var x3, y3 := d + [NUL] + x4, d' + [NUL] + y4;
    var x2, y2 := c + [NUL] + x3, c' + [NUL] + y3;
    SplitAtFirst(NUL, a, a', b + [NUL] + x2, b' + [NUL] + y2);
    SplitAtFirst(NUL, b, b', x2, y2);
    SplitAtFirst(NUL, c, c', x3, y3);
    SplitAtFirst(NUL, d, d', x4, y4);
    SplitAtLast(NUL, e, e', f, f');
  }

  lemma EnvironmentsNulFree(id: string)
    requires id in ENVIRONMENTS
    ensures NUL !in id
  {
    assert NUL !in BUILDKIT;
    assert NUL !in NO_ENTITLEMENTS;
    assert NUL !in "docker-driver";
    assert NUL !in "docker-container-driver";
    assert NUL !in "docker-container-host-network-driver";
  }

  lemma PoliciesNulFree(n: Network)
    ensures NUL !in PolicyOf(n)
  {
    assert NUL !in POLICY;
    assert NUL !in PINNED_MATERIALS;
    assert NUL !in "v2.network-none";
    assert NUL !in "v3.network-default";
  }

  lemma NetworkValues(m: Network, n: Network)
    ensures NUL !in NetworkValue(m)
    ensures NetworkValue(m) == NetworkValue(n) ==> m == n
  {
    assert |NetworkValue(NoNetwork)| == 4 && |NetworkValue(DefaultNetwork)| == 7;
  }

  /**
   Valid configurations and requests share a cache id exactly when policy, environment,
   network, set of base images, repository and context id all agree. The repository may be
   any text at all: it is the only field that could hold the separator.
   */
  lemma CacheIdExact(c: Config, d: Config, idC: string, idD: string, h: string -> string)
    requires ValidConfig(c) && ValidConfig(d) && ValidContextId(idC) && ValidContextId(idD) && Hashes(h)
    ensures CacheId(c, idC, h) == CacheId(d, idD, h) <==>
      && c.policyId == d.policyId && c.environmentId == d.environmentId && c.network == d.network
      && SameSet(c.baseImages, d.baseImages) && c.repository == d.repository && idC == idD
  {
    DigestExact(c, d, h);
    if CacheId(c, idC, h) == CacheId(d, idD, h) {
      PartsNulFree(c, idC, h);
      PartsNulFree(d, idD, h);
      NetworkValues(c.network, d.network);
      HashedSame(h, CACHE_PREFIX,
        SixFields(c.policyId, c.environmentId, NetworkValue(c.network), MaterialDigest(c, h), c.repository, idC),
        SixFields(d.policyId, d.environmentId, NetworkValue(d.network), MaterialDigest(d, h), d.repository, idD));
      SixFieldsInjective(c.policyId, c.environmentId, NetworkValue(c.network), MaterialDigest(c, h), c.repository, idC,
                         d.policyId, d.environmentId, NetworkValue(d.network), MaterialDigest(d, h), d.repository, idD);
    } else if c.policyId == d.policyId && c.environmentId == d.environmentId && c.network == d.network
              && c.repository == d.repository && idC == idD {
      assert MaterialDigest(c, h) != MaterialDigest(d, h);
    }
  }

  /** The digests agree exactly when the sets of base images do. */
  lemma DigestExact(c: Config, d: Config, h: string -> string)
    requires AllPinned(c.baseImages) && AllPinned(d.baseImages) && Hashes(h)
    ensures MaterialDigest(c, h) == MaterialDigest(d, h) <==> SameSet(c.baseImages, d.baseImages)
  {
    MaterialExact(c.baseImages, d.baseImages);
    var x, y := MATERIAL_PREFIX + Terminated(Normalized(c.baseImages)), MATERIAL_PREFIX + Terminated(Normalized(d.baseImages));
    assert h(x) == h(y) <==> x == y;
  }

  lemma PartsNulFree(c: Config, id: string, h: string -> string)
    requires ValidConfig(c) && ValidContextId(id) && Hashes(h)
    ensures NUL !in c.policyId && NUL !in c.environmentId && NUL !in NetworkValue(c.network)
    ensures NUL !in MaterialDigest(c, h) && NUL !in id
  {
    EnvironmentsNulFree(c.environmentId);
    PoliciesNulFree(c.network);
    NetworkValues(c.network, c.network);
    assert !IsLowerHex(NUL);
  }

  lemma HashedSame(h: string -> string, prefix: string, x: string, y: string)
    requires Hashes(h) && h(prefix + x) == h(prefix + y)
    ensures x == y
  {
    assert prefix + x == prefix + y;
    assert (prefix + x)[|prefix|..] == x && (prefix + y)[|prefix|..] == y;
  }
}
