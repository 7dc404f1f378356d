// The request-path resolver of the redirect handler: from the request's
// host and path and the configuration, decide whether to answer "not
// found", redirect straight to the repository, or render the go-import
// page for an (import root, repository root) pair.
module Resolver {
  import opened GoStrings
  import opened Configuration

  datatype Outcome =
    | NotFound
    | Redirect(url: string)
    | Page(importRoot: string, repoRoot: string, suffix: string)

  /** The request's host and path with one trailing slash removed. */
  function Normalize(hostPath: string): (path: string)
    ensures HasSuffix(hostPath, "/") ==> path + "/" == hostPath
    ensures !HasSuffix(hostPath, "/") ==> path == hostPath
  {
    TrimSuffix(hostPath, "/")
  }

  /** What follows the import path and its slash in `path`. */
  function Rest(cfg: Config, path: string): string
    requires HasPrefix(path, cfg.importPath + "/")
  {
    path[|cfg.importPath| + 1..]
  }

  /**
   * The wildcard case for a path below the import path, given what follows
   * the import path and its slash.
   */
  function ResolveElements(cfg: Config, rest: string): Outcome
  {
    var parts := Split(rest, '/');
    if |parts| >= cfg.wildcard then
      var elem := Join(parts[..cfg.wildcard], '/');
      var tail := Join(parts[cfg.wildcard..], '/');
      var suffix := if tail != "" then "/" + tail else "";
      Page(cfg.importPath + "/" + elem, cfg.repoPath + "/" + elem, suffix)
    else
      NotFound
  }

  /** The outcome for a normalized host and path. */
  function ResolvePath(cfg: Config, path: string): Outcome
  {
    if cfg.wildcard > 0 then
      if path == cfg.importPath then
        Redirect(cfg.repoPath)
      else if !HasPrefix(path, cfg.importPath + "/") then
        NotFound
      else
        ResolveElements(cfg, Rest(cfg, path))
    else if path != cfg.importPath && !HasPrefix(path, cfg.importPath + "/") then
      NotFound
    else
      assert path[..|cfg.importPath|] == cfg.importPath by {
        if path != cfg.importPath {
          assert (cfg.importPath + "/")[..|cfg.importPath|] == cfg.importPath;
        }
      }
      Page(cfg.importPath, cfg.repoPath, path[|cfg.importPath|..])
  }

  /**
   * A direct redirect happens only in wildcard mode, only for the import
   * path itself, and always goes to the repository URL.
   */
  lemma RedirectOnlyAtRoot(cfg: Config, path: string)
    ensures ResolvePath(cfg, path).Redirect? <==> cfg.wildcard > 0 && path == cfg.importPath
    ensures ResolvePath(cfg, path).Redirect? ==> ResolvePath(cfg, path).url == cfg.repoPath
  {
  }

  /**
   * Without a wildcard, the path gets a page exactly when it is the import
   * path or lies below it, and "not found" otherwise; the page carries the
   * configured roots unchanged and the rest of the path as its suffix.
   */
  lemma NoWildcardOutcome(cfg: Config, path: string)
    requires cfg.wildcard == 0
    ensures var r := ResolvePath(cfg, path);
      && (r.Page? <==> path == cfg.importPath || HasPrefix(path, cfg.importPath + "/"))
      && (r.NotFound? <==> !r.Page?)
    ensures var r := ResolvePath(cfg, path);
      r.Page? ==>
        && r.importRoot == cfg.importPath
        && r.repoRoot == cfg.repoPath
        && r.importRoot + r.suffix == path
        && (r.suffix == "" || r.suffix[0] == '/')
  {
    if path != cfg.importPath && HasPrefix(path, cfg.importPath + "/") {
      assert path[|cfg.importPath|] == (cfg.importPath + "/")[|cfg.importPath|];
    }
  }

  /** The outcome of the redirect handler for a request's host followed by its path. */
  function Resolve(cfg: Config, hostPath: string): Outcome
  {
    ResolvePath(cfg, Normalize(hostPath))
  }

  /** A request with one trailing slash added resolves as the request without it. */
  lemma TrailingSlashIgnored(cfg: Config, hostPath: string)
    requires !HasSuffix(hostPath, "/")
    ensures Resolve(cfg, hostPath + "/") == Resolve(cfg, hostPath)
  {
    assert HasSuffix(hostPath + "/", "/");
    assert Normalize(hostPath + "/") == hostPath;
  }

  /** Only one trailing slash is removed: a request ending in two keeps one. */
  lemma OnlyOneSlashRemoved(cfg: Config, hostPath: string)
    ensures Resolve(cfg, hostPath + "//") == ResolvePath(cfg, hostPath + "/")
  {
    assert HasSuffix(hostPath + "//", "/");
    assert (hostPath + "/") + "/" == hostPath + "//";
  }

  /**
   * In wildcard mode, a request below the import path is answered from the
   * part of it that follows the import path: "not found" when it has fewer
   * than `wildcard` slash-separated elements, otherwise a page whose roots
   * take the first `wildcard` elements (the text before the wildcard-th
   * slash) and whose suffix is what follows, or empty when nothing does.
   */
  lemma {:induction false} WildcardOutcome(cfg: Config, rest: string)
    requires cfg.wildcard > 0
    ensures var elem := BeforeNth(rest, '/', cfg.wildcard - 1);
      var tail := rest[|elem|..];
      ResolveElements(cfg, rest) ==
        if multiset(rest)['/'] < cfg.wildcard - 1 then NotFound
        else Page(cfg.importPath + "/" + elem, cfg.repoPath + "/" + elem,
                  if tail == "/" then "" else tail)
  {
    var n := cfg.wildcard;
    var parts := Split(rest, '/');
    assert |parts| == multiset(rest)['/'] + 1 by {
      SplitPieces(rest, '/');
    }
    if |parts| >= n {
      WildcardElements(cfg, rest);
    }
  }

  /** The page case of WildcardOutcome. */
  lemma {:induction false} WildcardElements(cfg: Config, rest: string)
    requires 0 < cfg.wildcard <= |Split(rest, '/')|
    ensures var elem := BeforeNth(rest, '/', cfg.wildcard - 1);
      var tail := rest[|elem|..];
      ResolveElements(cfg, rest) ==
        Page(cfg.importPath + "/" + elem, cfg.repoPath + "/" + elem,
             if tail == "/" then "" else tail)
  {
    var n := cfg.wildcard;
    var parts := Split(rest, '/');
    var elem := BeforeNth(rest, '/', n - 1);
    var tail := Join(parts[n..], '/');
    assert Join(parts[..n], '/') == elem by {
      JoinFirstPieces(rest, '/', n - 1);
    }
    assert (if tail != "" then "/" + tail else "") ==
      if rest[|elem|..] == "/" then "" else rest[|elem|..] by {
      SplitAtPiece(rest, '/', n - 1);
      if n == |parts| {
        assert parts[n..] == [];
      }
    }
  }

  /**
   * In wildcard mode the outcome is "not found" exactly when the path is
   * neither the import path nor below it, or when what follows the import
   * path holds fewer than wildcard-1 slashes, that is, fewer than
   * `wildcard` elements.
   */
  lemma WildcardNotFound(cfg: Config, path: string)
    requires cfg.wildcard > 0
    ensures ResolvePath(cfg, path) == NotFound <==>
      path != cfg.importPath &&
      (!HasPrefix(path, cfg.importPath + "/") ||
       multiset(Rest(cfg, path))['/'] < cfg.wildcard - 1)
  {
    if path != cfg.importPath && HasPrefix(path, cfg.importPath + "/") {
      SplitPieces(Rest(cfg, path), '/');
    }
  }

  /**
   * What follows the first n elements of `rest` is empty or starts with a
   * slash, and is empty when `rest` has exactly n elements.
   */
  lemma ElementsTail(rest: string, n: nat)
    requires 0 < n <= |Split(rest, '/')|
    ensures var elem := BeforeNth(rest, '/', n - 1);
      && rest == elem + rest[|elem|..]
      && (rest[|elem|..] == "" || rest[|elem|..][0] == '/')
      && (|Split(rest, '/')| == n ==> elem == rest)
  {
    BeforeNthTail(rest, '/', n - 1);
    if |Split(rest, '/')| == n {
      SplitAtPiece(rest, '/', n - 1);
    }
  }

  /**
   * Every page in wildcard mode substitutes the same element text into both
   * roots, and that text holds wildcard-1 slashes: it is `wildcard`
   * elements of the path.
   */
  lemma WildcardPageRoots(cfg: Config, path: string)
    requires cfg.wildcard > 0
    requires ResolvePath(cfg, path).Page?
    ensures var r := ResolvePath(cfg, path);
      exists elem ::
        && r.importRoot == cfg.importPath + "/" + elem
        && r.repoRoot == cfg.repoPath + "/" + elem
        && multiset(elem)['/'] == cfg.wildcard - 1
  {
    var n := cfg.wildcard;
    var rest := Rest(cfg, path);
    var elem := BeforeNth(rest, '/', n - 1);
    assert ResolvePath(cfg, path) == ResolveElements(cfg, rest);
    assert |Split(rest, '/')| >= n;
    assert ResolveElements(cfg, rest).importRoot == cfg.importPath + "/" + elem
        && ResolveElements(cfg, rest).repoRoot == cfg.repoPath + "/" + elem by {
      WildcardElements(cfg, rest);
    }
    assert multiset(elem)['/'] == n - 1 by {
      SplitPieces(rest, '/');
      BeforeNthCount(rest, '/', n - 1);
    }
    var r := ResolvePath(cfg, path);
    assert r.importRoot == cfg.importPath + "/" + elem
        && r.repoRoot == cfg.repoPath + "/" + elem
        && multiset(elem)['/'] == cfg.wildcard - 1;
  }

  /**
   * In wildcard mode a remainder of exactly `wildcard` elements gives an
   * empty suffix; a non-empty suffix starts with a slash and completes the
   * import root to the path; an empty one leaves at most a final slash of
   * the path uncovered.
   */
  lemma WildcardPageSuffix(cfg: Config, path: string)
    requires cfg.wildcard > 0
    requires ResolvePath(cfg, path).Page?
    ensures var r := ResolvePath(cfg, path);
      |Split(Rest(cfg, path), '/')| == cfg.wildcard ==> r.suffix == "" && r.importRoot == path
    ensures var r := ResolvePath(cfg, path);
      r.suffix != "" ==> r.suffix[0] == '/' && r.importRoot + r.suffix == path
    ensures var r := ResolvePath(cfg, path);
      r.suffix == "" ==> path == r.importRoot || path == r.importRoot + "/"
  {
    var r := ResolvePath(cfg, path);
    var rest := Rest(cfg, path);
    var elem := BeforeNth(rest, '/', cfg.wildcard - 1);
    var root := cfg.importPath + "/";
    var tail := rest[|elem|..];
    assert r == ResolveElements(cfg, rest);
    assert r.importRoot == root + elem && r.suffix == if tail == "/" then "" else tail by {
      WildcardElements(cfg, rest);
    }
    assert && rest == elem + tail
           && (tail == "" || tail[0] == '/')
           && (|Split(rest, '/')| == cfg.wildcard ==> tail == "") by {
      ElementsTail(rest, cfg.wildcard);
    }
    assert path == root + rest by {
      assert root[..|cfg.importPath| + 1] == root;
      assert path[..|root|] == root;
    }
    SuffixShape(path, root, elem, tail, r.suffix);
  }

  /**
   * The suffix rule of the wildcard branch on plain strings: a path made of
   * a root, an element and a tail that is empty or starts with a slash,
   * where a lone slash tail gives an empty suffix.
   */
  lemma SuffixShape(path: string, root: string, elem: string, tail: string, suffix: string)
    requires path == root + (elem + tail)
    requires tail == "" || tail[0] == '/'
    requires suffix == if tail == "/" then "" else tail
    ensures tail == "" ==> suffix == "" && root + elem == path
    ensures suffix != "" ==> suffix[0] == '/' && (root + elem) + suffix == path
    ensures suffix == "" ==> path == root + elem || path == root + elem + "/"
  {
    assert path == (root + elem) + tail;
  }

  /** The text before the first slash of an element followed by a slash-led rest is the element. */
  lemma {:induction false} BeforeFirstSlash(elem: string, suffix: string)
    requires '/' !in elem
    requires suffix == "" || suffix[0] == '/'
    ensures BeforeNth(elem + suffix, '/', 0) == elem
  {
    if elem == [] {
      assert elem + suffix == suffix;
    } else {
      BeforeFirstSlash(elem[1..], suffix);
      assert (elem + suffix)[1..] == elem[1..] + suffix;
      assert [elem[0]] + elem[1..] == elem;
    }
  }

  /**
   * With one wildcard element, the import path followed by a slash, an
   * element without slashes and a suffix that is empty or a slash and more
   * resolves to the page for that element with that suffix.
   */
  lemma OneWildcardElement(cfg: Config, elem: string, suffix: string)
    requires cfg.wildcard == 1
    requires '/' !in elem
    requires suffix == "" || (suffix[0] == '/' && suffix != "/")
    ensures ResolvePath(cfg, cfg.importPath + "/" + elem + suffix) ==
      Page(cfg.importPath + "/" + elem, cfg.repoPath + "/" + elem, suffix)
  {
    var root := cfg.importPath + "/";
    var rest := elem + suffix;
    var path := root + rest;
    assert cfg.importPath + "/" + elem + suffix == path;
    assert path[..|root|] == root;
    assert path[|cfg.importPath| + 1..] == rest;
    assert ResolvePath(cfg, path) == ResolveElements(cfg, rest);
    BeforeFirstSlash(elem, suffix);
    WildcardElements(cfg, rest);
    assert rest[|elem|..] == suffix;
  }

  /** Every page's import root lies within the request path and starts with the configured import path. */
  lemma PageWithinNamespace(cfg: Config, path: string)
    requires ResolvePath(cfg, path).Page?
    ensures HasPrefix(path, ResolvePath(cfg, path).importRoot)
    ensures HasPrefix(ResolvePath(cfg, path).importRoot, cfg.importPath)
    ensures HasPrefix(ResolvePath(cfg, path).repoRoot, cfg.repoPath)
  {
    var r := ResolvePath(cfg, path);
    if cfg.wildcard > 0 {
      WildcardPageSuffix(cfg, path);
      assert path == r.importRoot || path == r.importRoot + "/" || path == r.importRoot + r.suffix;
      if path != r.importRoot {
        assert path[..|r.importRoot|] == r.importRoot;
      }
      assert r.importRoot[..|cfg.importPath|] == cfg.importPath;
      assert r.repoRoot[..|cfg.repoPath|] == cfg.repoPath;
    } else {
      assert path[..|r.importRoot|] == r.importRoot;
    }
  }
}
