/** What normalizing a repository-relative path keeps. */
module Paths {
  import opened Results
  import opened Text
  import opened Expressions

  predicate NoSlash(parts: seq<string>) { forall i :: 0 <= i < |parts| ==> '/' !in parts[i] }

  lemma FindSlash(a: string, b: string)
    requires '/' !in a
    ensures Find(a + "/" + b, "/") == Some(|a|)
    ensures Find(a, "/").None?
  {
    var s := a + "/" + b;
    assert OccursAt(s, "/", |a|);
    forall i | 0 <= i < |a| ensures !OccursAt(s, "/", i) {
      assert s[i..i + 1][0] == s[i] == a[i];
    }
    forall i | 0 <= i <= |a| ensures !OccursAt(a, "/", i) {
      if i < |a| { assert a[i..i + 1][0] == a[i]; }
    }
  }

  lemma NotBefore(s: string, k: nat)
    requires k <= |s| && forall i :: 0 <= i < k ==> !OccursAt(s, "/", i)
    ensures '/' !in s[..k]
  {
    forall i | 0 <= i < k ensures s[i] != '/' { assert s[i..i + 1] == [s[i]] && !OccursAt(s, "/", i); }
  }

  lemma {:induction false} SegmentsSplit(s: string)
    ensures NoSlash(Segments(s))
    ensures forall i, c :: 0 <= i < |Segments(s)| && c in Segments(s)[i] ==> c in s
  {
    match Find(s, "/")
    case None =>
      NotBefore(s, |s|);
      assert s[..|s|] == s;
    case Some(k) =>
      SegmentsSplit(s[k + 1..]);
      NotBefore(s, k);
      var rest := s[k + 1..];
      forall i, c | 0 <= i < |Segments(s)| && c in Segments(s)[i] ensures c in s {
        if i > 0 {
          assert Segments(s)[i] == Segments(rest)[i - 1];
          assert c in rest;
        }
      }
  }

  /** Joining and splitting are inverse on parts without a slash. */
  lemma {:induction false} JoinedSplits(parts: seq<string>)
    requires parts != [] && NoSlash(parts)
    ensures Segments(JoinedWithSlash(parts)) == parts
  {
    var s := JoinedWithSlash(parts);
    if |parts| == 1 {
      FindSlash(parts[0], "");
    } else {
      var rest := JoinedWithSlash(parts[1..]);
      FindSlash(parts[0], rest);
      JoinedSplits(parts[1..]);
      assert s == parts[0] + "/" + rest;
      assert s[..|parts[0]|] == parts[0] && s[|parts[0]| + 1..] == rest;
    }
  }

  lemma {:induction false} FilteredMeans(parts: seq<string>)
    ensures forall i :: 0 <= i < |Filtered(parts)| ==> Meaningful(Filtered(parts)[i]) && Filtered(parts)[i] in parts
    ensures Filtered(parts) != [] <==> exists i :: 0 <= i < |parts| && Meaningful(parts[i])
    ensures (forall i :: 0 <= i < |parts| ==> Meaningful(parts[i])) ==> Filtered(parts) == parts
  {
    if parts != [] {
      FilteredMeans(parts[1..]);
      assert parts == [parts[0]] + parts[1..];
      if i :| 0 <= i < |parts| && Meaningful(parts[i]) && !Meaningful(parts[0]) { assert parts[1..][i - 1] == parts[i]; }
    }
  }

  lemma {:induction false} JoinedChars(parts: seq<string>, c: char)
    requires c in JoinedWithSlash(parts)
    ensures c == '/' || exists i :: 0 <= i < |parts| && c in parts[i]
  {
    if |parts| > 1 && c !in parts[0] && c != '/' {
      var rest := JoinedWithSlash(parts[1..]);
      assert JoinedWithSlash(parts) == parts[0] + "/" + rest;
      JoinedChars(parts[1..], c);
      var i :| 0 <= i < |parts[1..]| && c in parts[1..][i];
      assert c in parts[i + 1];
    }
  }

  lemma NormalizedParts(s: string)
    requires exists i :: 0 <= i < |Segments(s)| && Meaningful(Segments(s)[i])
    ensures var n, parts := NormalizeRelative(s), Filtered(Segments(s));
      && parts != [] && Segments(n) == parts && NormalizeRelative(n) == n && n != "" && n[0] != '/'
      && forall c :: c in n && c != '/' ==> c in s
  {
    var parts, n := Filtered(Segments(s)), NormalizeRelative(s);
    SegmentsSplit(s);
    FilteredMeans(Segments(s));
    FilteredMeans(parts);
    assert NoSlash(parts);
    JoinedSplits(parts);
    assert Meaningful(parts[0]) && parts[0][0] in parts[0];
    forall c | c in n && c != '/' ensures c in s {
      JoinedChars(parts, c);
      var i :| 0 <= i < |parts| && c in parts[i];
      assert parts[i] in Segments(s);
    }
  }

  predicate FirstMeaningful(segments: seq<string>, i: nat)
    requires i < |segments|
  {
    Meaningful(segments[i]) && forall j :: 0 <= j < i ==> !Meaningful(segments[j])
  }

  /** The first segment that is neither empty nor a dot begins with a tilde. */
  predicate TildeFirst(segments: seq<string>) {
    exists i :: 0 <= i < |segments| && FirstMeaningful(segments, i) && segments[i][0] == '~'
  }

  lemma {:induction false} FilteredFirst(parts: seq<string>) returns (i: nat)
    requires Filtered(parts) != []
    ensures i < |parts| && FirstMeaningful(parts, i) && Filtered(parts)[0] == parts[i]
  {
    if Meaningful(parts[0]) {
      i := 0;
    } else {
      var j := FilteredFirst(parts[1..]);
      i := j + 1;
      assert forall k :: 1 <= k < |parts| ==> parts[k] == parts[1..][k - 1];
    }
  }

  lemma FirstLetter(parts: seq<string>)
    requires parts != [] && parts[0] != ""
    ensures JoinedWithSlash(parts)[0] == parts[0][0]
  {
  }

  /**
   A normalized path has the meaningful segments of the path, is normal, and is again a safe
   relative path exactly when the first of these segments does not begin with a tilde.
   */
  lemma NormalizedSafe(s: string, allowGlob: bool)
    requires SafeRelative(s, allowGlob)
    ensures var n := NormalizeRelative(s);
      && Segments(n) == Filtered(Segments(s)) && NormalizeRelative(n) == n
      && (SafeRelative(n, allowGlob) <==> !TildeFirst(Segments(s)))
  {
    hide SafeRelative;
    var n, parts := NormalizeRelative(s), Filtered(Segments(s));
    SomeMeaningful(s, allowGlob);
    NormalizedParts(s);
    FilteredMeans(Segments(s));
    var i := FilteredFirst(Segments(s));
    FirstLetter(parts);
    assert n[0] == Segments(s)[i][0];
    assert TildeFirst(Segments(s)) <==> n[0] == '~';
    if n[0] == '~' { TildeUnsafe(n, allowGlob); } else { SafeAgain(s, n, allowGlob); }
  }

  lemma SomeMeaningful(s: string, allowGlob: bool)
    requires SafeRelative(s, allowGlob)
    ensures exists i :: 0 <= i < |Segments(s)| && Meaningful(Segments(s)[i])
  {
  }

  lemma TildeUnsafe(n: string, allowGlob: bool)
    requires n != "" && n[0] == '~'
    ensures !SafeRelative(n, allowGlob)
  {
  }

  lemma SafeAgain(s: string, n: string, allowGlob: bool)
    requires SafeRelative(s, allowGlob)
    requires n != "" && n[0] != '/' && n[0] != '~' && forall c :: c in n && c != '/' ==> c in s
    requires forall i :: 0 <= i < |Segments(n)| ==> Segments(n)[i] in Segments(s) && Meaningful(Segments(n)[i])
    ensures SafeRelative(n, allowGlob)
  {
    assert Meaningful(Segments(n)[0]);
  }

  lemma TildeSegments()
    ensures Segments("./~a") == [".", "~a"] && Segments("~a") == ["~a"]
  {
    var s := "./~a";
    assert s == "." + "/" + "~a";
    FindSlash(".", "~a");
    FindSlash("~a", "");
    assert s[..1] == "." && s[2..] == "~a";
  }

  /** The tilde that normalizing uncovers. */
  lemma TildeUncovered()
    ensures SafeRelative("./~a", false) && NormalizeRelative("./~a") == "~a" && !SafeRelative("~a", false)
  {
    hide Segments;
    TildeSegments();
    assert Meaningful([".", "~a"][1]);
    assert [".", "~a"][1..] == ["~a"] && ["~a"][1..] == [];
    assert Filtered(["~a"]) == ["~a"] && Filtered([".", "~a"]) == ["~a"];
  }
}
