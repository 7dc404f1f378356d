// The redirect handler as a whole: resolve the request's host and path,
// then answer "not found", a redirect, or the rendered page.
module Handler {
  import opened GoStrings
  import opened Configuration
  import opened Resolver
  import opened Render

  /** The three answers the handler gives. */
  datatype Response =
    | NotFoundResponse
    | FoundResponse(location: string)
    | PageResponse(body: string)

  /** The response to a request with the given host and URL path. */
  function Serve(cfg: Config, vcs: string, host: string, urlPath: string, esc: Escaper): Response
  {
    match Resolve(cfg, host + urlPath)
    case NotFound => NotFoundResponse
    case Redirect(url) => FoundResponse(url)
    case Page(importRoot, repoRoot, suffix) =>
      PageResponse(RenderPage(Data(importRoot, vcs, repoRoot, suffix), esc))
  }

  /**
   * Every page the handler writes carries the go-import tag for the
   * resolved import root, the VCS and the resolved repository root, and
   * sends the reader to the resolved repository root.
   */
  lemma ServedPage(cfg: Config, vcs: string, host: string, urlPath: string, esc: Escaper)
    requires Resolve(cfg, host + urlPath).Page?
    ensures var r := Resolve(cfg, host + urlPath);
      var resp := Serve(cfg, vcs, host, urlPath, esc);
      && resp.PageResponse?
      && Contains(resp.body, GoImportTag(esc(GoImportContent, r.importRoot),
                                         esc(GoImportContent, vcs),
                                         esc(GoImportContent, r.repoRoot)))
      && Contains(resp.body, RefreshTag(esc(RefreshContent, r.repoRoot)))
      && Contains(resp.body, LinkTag(esc(LinkHref, r.repoRoot), esc(LinkText, r.repoRoot)))
  {
    var r := Resolve(cfg, host + urlPath);
    PageContainsTags(Data(r.importRoot, vcs, r.repoRoot, r.suffix), esc);
  }

  /** In wildcard mode the import path itself, with or without a final slash, is redirected to the repository URL. */
  lemma WildcardRootServed(cfg: Config, vcs: string, host: string, urlPath: string, esc: Escaper)
    requires cfg.wildcard > 0
    requires host + urlPath == cfg.importPath || host + urlPath == cfg.importPath + "/"
    requires !HasSuffix(cfg.importPath, "/")
    ensures Serve(cfg, vcs, host, urlPath, esc) == FoundResponse(cfg.repoPath)
  {
    if host + urlPath == cfg.importPath {
      assert Normalize(host + urlPath) == cfg.importPath;
    } else {
      assert Normalize(host + urlPath) == cfg.importPath by {
        assert HasSuffix(cfg.importPath + "/", "/");
      }
    }
    RedirectOnlyAtRoot(cfg, cfg.importPath);
  }

  /**
   * The first example of the server's documentation: without a wildcard,
   * a request for a package below the import path gets the page for the
   * configured roots.
   */
  lemma PlainExample(cfg: Config, host: string, urlPath: string, esc: Escaper)
    requires cfg == Config("9fans.net/go", "https://github.com/9fans/go", 0)
    requires host == "9fans.net" && urlPath == "/go/acme/editinacme"
    ensures var resp := Serve(cfg, "git", host, urlPath, esc);
      && resp.PageResponse?
      && Contains(resp.body, GoImportTag(esc(GoImportContent, "9fans.net/go"),
                                         esc(GoImportContent, "git"),
                                         esc(GoImportContent, "https://github.com/9fans/go")))
      && Contains(resp.body, RefreshTag(esc(RefreshContent, "https://github.com/9fans/go")))
  {
    var path := host + urlPath;
    assert Resolve(cfg, path).Page? && Resolve(cfg, path).importRoot == cfg.importPath
        && Resolve(cfg, path).repoRoot == cfg.repoPath by {
      assert path == cfg.importPath + "/acme/editinacme";
      assert Normalize(path) == path by {
        assert path[|path| - 1] == 'e';
      }
      assert HasPrefix(path, cfg.importPath + "/");
      NoWildcardOutcome(cfg, path);
    }
    ServedPage(cfg, "git", host, urlPath, esc);
  }

  /**
   * The wildcard example of the server's documentation. Started with
   * `rsc.io` and `https://github.com/rsc`, each followed by the wildcard
   * marker (the configuration is any result of stripping the markers from
   * those arguments), the server
   * answers `rsc.io/x86/x86asm` with a page whose go-import tag names
   * `rsc.io/x86`, the VCS and `https://github.com/rsc/x86`, and whose
   * refresh tag goes to `https://github.com/rsc/x86`; the rest of the path
   * is the suffix.
   */
  lemma WildcardExample(cfg: Config, host: string, urlPath: string, esc: Escaper)
    requires "rsc.io/*" == cfg.importPath + Repeat(Wildcard, cfg.wildcard)
    requires !HasSuffix(cfg.importPath, Wildcard)
    requires cfg.repoPath == TrimSuffixN("https://github.com/rsc/*", Wildcard, cfg.wildcard)
    requires host == "rsc.io" && urlPath == "/x86/x86asm"
    ensures Resolve(cfg, host + urlPath) == Page("rsc.io/x86", "https://github.com/rsc/x86", "/x86asm")
    ensures var resp := Serve(cfg, "git", host, urlPath, esc);
      && resp.PageResponse?
      && Contains(resp.body, GoImportTag(esc(GoImportContent, "rsc.io/x86"),
                                         esc(GoImportContent, "git"),
                                         esc(GoImportContent, "https://github.com/rsc/x86")))
      && Contains(resp.body, RefreshTag(esc(RefreshContent, "https://github.com/rsc/x86")))
  {
    StrippedWildcardConfig(cfg);
    WildcardExampleResolves(cfg, host + urlPath);
    ServedPage(cfg, "git", host, urlPath, esc);
  }

  /** The only configuration that stripping the markers from the wildcard example's arguments yields. */
  lemma StrippedWildcardConfig(cfg: Config)
    requires "rsc.io/*" == cfg.importPath + Repeat(Wildcard, cfg.wildcard)
    requires !HasSuffix(cfg.importPath, Wildcard)
    requires cfg.repoPath == TrimSuffixN("https://github.com/rsc/*", Wildcard, cfg.wildcard)
    ensures cfg == Config("rsc.io", "https://github.com/rsc", 1)
  {
    WildcardSplitUnique("rsc.io/*", cfg.importPath, cfg.wildcard);
    assert "rsc.io/*" == "rsc.io" + Repeat(Wildcard, 1);
    assert !HasSuffix("rsc.io", Wildcard);
    WildcardSplitUnique("rsc.io/*", "rsc.io", 1);
    assert TrimSuffixN("https://github.com/rsc/*", Wildcard, 1) == "https://github.com/rsc" by {
      assert HasSuffix("https://github.com/rsc/*", Wildcard);
    }
  }

  /** The wildcard example's request, resolved with the stripped configuration. */
  lemma WildcardExampleResolves(cfg: Config, path: string)
    requires cfg == Config("rsc.io", "https://github.com/rsc", 1)
    requires path == "rsc.io/x86/x86asm"
    ensures Resolve(cfg, path) == Page("rsc.io/x86", "https://github.com/rsc/x86", "/x86asm")
  {
    var elem, suffix := "x86", "/x86asm";
    assert path == cfg.importPath + "/" + elem + suffix;
    assert Normalize(path) == path by {
      assert path[|path| - 1] == 'm';
    }
    OneWildcardElement(cfg, elem, suffix);
  }
}
