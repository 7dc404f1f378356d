// Start-up configuration of the redirector: the two positional arguments
// (the import path and the repository URL) are checked, then trailing
// wildcard elements are counted and stripped from both.
module Configuration {
  import opened GoStrings

  /** The wildcard marker that ends an import path or repository URL. */
  const Wildcard: string := ['/', '*']

  /** What the server runs with once start-up is done. */
  datatype Config = Config(importPath: string, repoPath: string, wildcard: nat)

  /** The reasons start-up refuses its arguments. */
  datatype ConfigError =
    | RepoNotFullURL     // the repository path has no "://"
    | WildcardMismatch   // only one of the two arguments ends in the marker

  datatype Result = Ok(config: Config) | Err(error: ConfigError)

  /** The number of wildcard markers that end `s`. */
  function WildcardDepth(s: string): nat
    decreases |s|
  {
    if HasSuffix(s, Wildcard) then 1 + WildcardDepth(TrimSuffix(s, Wildcard)) else 0
  }

  /** `s` with TrimSuffix(_, suffix) applied n times. */
  function TrimSuffixN(s: string, suffix: string, n: nat): string
  {
    if n == 0 then s else TrimSuffix(TrimSuffixN(s, suffix, n - 1), suffix)
  }

  /** n copies of `s`, one after the other. */
  function Repeat(s: string, n: nat): (r: string)
    ensures |r| == n * |s|
  {
    if n == 0 then [] else s + Repeat(s, n - 1)
  }

  /**
   * Validates the arguments and strips the wildcard markers, as the
   * start-up code of the server does: a repository path that is not a full
   * URL is refused, and so is a pair of which only one ends in the marker.
   */
  method Configure(importArg: string, repoArg: string) returns (r: Result)
    ensures r == Err(RepoNotFullURL) <==> !Contains(repoArg, "://")
    ensures r == Err(WildcardMismatch) <==>
      Contains(repoArg, "://") && HasSuffix(importArg, Wildcard) != HasSuffix(repoArg, Wildcard)
    ensures r.Ok? ==> r.config.wildcard == WildcardDepth(importArg)
    ensures r.Ok? ==> importArg == r.config.importPath + Repeat(Wildcard, r.config.wildcard)
    ensures r.Ok? ==> !HasSuffix(r.config.importPath, Wildcard)
    ensures r.Ok? ==> r.config.repoPath == TrimSuffixN(repoArg, Wildcard, r.config.wildcard)
    ensures r.Ok? ==> (r.config.wildcard > 0 <==> HasSuffix(repoArg, Wildcard))
  {
    if !Contains(repoArg, "://") {
      return Err(RepoNotFullURL);
    }
    if HasSuffix(importArg, Wildcard) != HasSuffix(repoArg, Wildcard) {
      return Err(WildcardMismatch);
    }
    var importPath, repoPath, wildcard := StripWildcards(importArg, repoArg);
    r := Ok(Config(importPath, repoPath, wildcard));
  }

  /**
   * The stripping loop of start-up: while the import path ends in the
   * marker, count it and trim the marker from both paths. The count is the
   * number of markers that end the import path, and the repository path
   * has been trimmed that many times.
   */
  method StripWildcards(importArg: string, repoArg: string)
    returns (importPath: string, repoPath: string, wildcard: nat)
    ensures wildcard == WildcardDepth(importArg)
    ensures importArg == importPath + Repeat(Wildcard, wildcard)
    ensures !HasSuffix(importPath, Wildcard)
    ensures repoPath == TrimSuffixN(repoArg, Wildcard, wildcard)
    ensures wildcard > 0 <==> HasSuffix(importArg, Wildcard)
  {
    importPath, repoPath, wildcard := importArg, repoArg, 0;
    while HasSuffix(importPath, Wildcard)
      invariant importArg == importPath + Repeat(Wildcard, wildcard)
      invariant wildcard + WildcardDepth(importPath) == WildcardDepth(importArg)
      invariant repoPath == TrimSuffixN(repoArg, Wildcard, wildcard)
      decreases |importPath|
    {
      ghost var before := importPath;
      wildcard := wildcard + 1;
      importPath := TrimSuffix(importPath, Wildcard);
      repoPath := TrimSuffix(repoPath, Wildcard);
      assert before == importPath + Wildcard;
      assert importPath + Repeat(Wildcard, wildcard) == importPath + Wildcard + Repeat(Wildcard, wildcard - 1);
    }
  }

  /**
   * The import path has at most one way to be written as a path that does
   * not end in the marker followed by markers: the depth and the stripped
   * path are determined by the argument.
   */
  lemma {:induction false} WildcardSplitUnique(s: string, p: string, n: nat)
    requires s == p + Repeat(Wildcard, n)
    requires !HasSuffix(p, Wildcard)
    ensures n == WildcardDepth(s)
    ensures p == TrimSuffixN(s, Wildcard, n)
  {
    if n > 0 {
      var s' := p + Repeat(Wildcard, n - 1);
      assert Repeat(Wildcard, n) == Repeat(Wildcard, n - 1) + Wildcard by {
        RepeatSnoc(Wildcard, n - 1);
      }
      assert s == s' + Wildcard;
      assert HasSuffix(s, Wildcard) && TrimSuffix(s, Wildcard) == s';
      WildcardSplitUnique(s', p, n - 1);
      TrimSuffixNFirst(s, Wildcard, n - 1);
    } else {
      assert s == p;
    }
  }

  /** Adding a copy at the end is adding one at the front. */
  lemma {:induction false} RepeatSnoc(s: string, n: nat)
    ensures Repeat(s, n + 1) == Repeat(s, n) + s
  {
    if n > 0 {
      RepeatSnoc(s, n - 1);
    }
  }

  /** Trimming n+1 times is trimming once and then n times. */
  lemma {:induction false} TrimSuffixNFirst(s: string, suffix: string, n: nat)
    ensures TrimSuffixN(s, suffix, n + 1) == TrimSuffixN(TrimSuffix(s, suffix), suffix, n)
  {
    if n > 0 {
      TrimSuffixNFirst(s, suffix, n - 1);
    }
  }

  /**
   * Both arguments must end in the marker or neither, but only the last
   * marker is compared: an import path with two markers and a repository
   * URL with one are accepted, with depth two, and the URL loses its one
   * marker.
   */
  lemma UnequalDepthsAccepted()
    ensures WildcardDepth("a/*/*") == 2
    ensures TrimSuffixN("s://r/*", Wildcard, 2) == "s://r"
  {
    assert HasSuffix("a/*/*", Wildcard) && TrimSuffix("a/*/*", Wildcard) == "a/*";
    assert HasSuffix("a/*", Wildcard) && TrimSuffix("a/*", Wildcard) == "a";
    assert !HasSuffix("a", Wildcard);
    assert TrimSuffix("s://r/*", Wildcard) == "s://r";
    assert !HasSuffix("s://r", Wildcard);
  }
}
