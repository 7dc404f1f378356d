# go-import-redirector, modelled in Dafny

go-import-redirector is a small HTTP server for a custom Go import domain. It is
started with an import path and a repository URL, for example
`9fans.net/go https://github.com/9fans/go`. For every request below the import
path it answers with an HTML page. The page carries a `go-import` meta tag that
tells `go get` where the source lives, and a refresh tag that sends a browser to
the repository. When both arguments end in `/*` (wildcard mode), the path
elements that follow the import path are substituted into the repository URL on
each request. So `rsc.io/*` with `https://github.com/rsc/*` answers
`rsc.io/x86/x86asm` with the roots `rsc.io/x86` and `https://github.com/rsc/x86`.

The model has five modules:

- `GoStrings` (`go_strings.dfy`): the Go `strings` functions the server calls,
  over `seq<char>`. These are `HasPrefix`, `HasSuffix`, `TrimSuffix`,
  `Contains`, `Split` and `Join` with a one-character separator. `Split`
  follows Go: it always returns at least one piece, and `Split("")` is `[""]`.
  `BeforeNth` is the text before the (n+1)-th separator; it is an independent
  description of "the first n+1 pieces joined again". Lemmas show that `Join`
  and `Split` undo each other, and relate the pieces of a split to `BeforeNth`.
- `Configuration` (`configuration.dfy`): the start-up checks and the loop that
  strips the trailing `/*` markers. `Configure` is a method that returns either
  the configuration (import path, repository URL, wildcard count) or the reason
  the arguments are refused. The stripping loop is the method `StripWildcards`.
- `Resolver` (`resolver.dfy`): the decision taken by the request handler. It is
  a pure function from the configuration and the request's host and path to
  `NotFound`, `Redirect(url)` or `Page(importRoot, repoRoot, suffix)`. It uses
  the same string operations, in the same order, as the handler.
- `Render` (`render.dfy`): the page template, as the sequence of literal texts
  and field actions it consists of. Executing it concatenates the texts with
  the escaped field values. The HTML escaper is a parameter about which nothing
  is assumed, except that it is a function of the place in the page and the
  value.
- `Handler` (`handler.dfy`): the whole handler. It resolves the request, then
  answers "not found", redirects, or writes the rendered page. The module also
  works through the two examples of the server's documentation.

The configuration is a value that the handler reads. The server keeps it in
package variables that `main` writes once, before serving starts.

Both arguments must end in `/*`, or neither. Only the last marker of each is
compared, so the number of markers need not be the same. With the import path
`a/*/*` and the repository URL `s://r/*`, the loop runs twice and trims the one
marker of the URL, leaving a wildcard count of 2. The model follows the code
here; `Configuration.UnequalDepthsAccepted` states this case.

## Model

| member | source | states |
|---|---|---|
| Configuration.Configure | main.go:99-109 | The arguments are refused as "not a full URL" exactly when the repository path has no `://`. They are refused as a mismatch exactly when it has one and only one of the two arguments ends in `/*`. Otherwise the result holds the import path without its trailing markers, which no longer ends in `/*`. The wildcard count equals the number of markers removed, and the argument is that path followed by that many markers. The repository path has had `/*` trimmed that many times, and the count is positive exactly when the repository argument ended in `/*`. |
| Configuration.StripWildcards | main.go:105-109 | The loop ends with the count equal to the number of `/*` that end the import argument. The argument equals the stripped path followed by that many markers, and the stripped path does not end in `/*`. The repository path has been trimmed the same number of times. |
| Configuration.WildcardSplitUnique | main.go:105-109 | There is only one way to write a string as a path that does not end in `/*` followed by markers. The count and the stripped path that the loop produces are therefore determined by the argument. |
| Configuration.UnequalDepthsAccepted | main.go:102-109 | Only the last marker is compared. `a/*/*` has depth 2, and trimming `s://r/*` twice gives `s://r`. |
| GoStrings.SplitPieces | main.go:152 | Splitting gives one piece more than there are separators, and no piece contains the separator. |
| GoStrings.JoinSplit | main.go:152-154 | Joining the pieces of a split gives back the string. |
| GoStrings.SplitJoin | main.go:152-154 | Splitting a join of separator-free pieces gives back the pieces. |
| GoStrings.BeforeNthSpec | main.go:153 | The text before the (n+1)-th separator is a prefix of the string with at most n separators. It is either the whole string, or it is followed by a separator and holds exactly n of them. |
| GoStrings.BeforeNthCount | main.go:153 | When the string has at least n separators, the text before the (n+1)-th one holds exactly n. |
| GoStrings.JoinFirstPieces | main.go:153 | The first n+1 pieces of a split, joined, are the text before the (n+1)-th separator. |
| GoStrings.SplitAtPiece | main.go:153-154 | After the first n+1 pieces comes either nothing, when there are no more pieces, or a separator followed by the remaining pieces joined. |
| Resolver.Resolve | main.go:140-172 | The resolver run on a request's host followed by its path: one trailing `/` is removed (`Normalize`), then `ResolvePath` decides. It has no contract of its own. `TrailingSlashIgnored` and `OnlyOneSlashRemoved` state its behaviour. |
| Resolver.ResolvePath | main.go:141-172 | The branches of `redirect` on the normalised path: in wildcard mode, a redirect at the import path, "not found" outside it, otherwise `ResolveElements`; without a wildcard, "not found" outside the import path and otherwise the page for the configured roots. It has no contract of its own. `RedirectOnlyAtRoot`, `NoWildcardOutcome`, `WildcardNotFound`, `WildcardPageRoots`, `WildcardPageSuffix` and `PageWithinNamespace` state its behaviour. |
| Resolver.ResolveElements | main.go:151-163 | The wildcard branch below the import path, with `Split` and `Join` as the code uses them. It has no contract of its own. `WildcardOutcome` and `WildcardElements` state its behaviour against `BeforeNth`. |
| Resolver.Normalize | main.go:140 | One trailing slash is removed if there is one; otherwise the path is unchanged. |
| Resolver.TrailingSlashIgnored | main.go:140 | For a host and path not ending in `/`, adding one `/` does not change the outcome. |
| Resolver.OnlyOneSlashRemoved | main.go:140 | A request ending in `//` keeps one slash: it resolves like the path with a single trailing `/`. |
| Resolver.RedirectOnlyAtRoot | main.go:142-146 | The outcome is a redirect exactly when wildcard mode is on and the path is the import path. The redirect always goes to the repository path. |
| Resolver.NoWildcardOutcome | main.go:164-171 | Without a wildcard, the outcome is a page exactly when the path is the import path or starts with the import path and `/`; otherwise it is "not found". The page has the configured import and repository paths as its roots, unchanged. The import root followed by the suffix is the path, and the suffix is empty or starts with `/`. |
| Resolver.WildcardNotFound | main.go:147-161 | In wildcard mode the outcome is "not found" exactly when two things hold. First, the path is not the import path. Second, either it does not start with the import path and `/`, or what follows holds fewer than wildcard-1 slashes, that is, fewer than `wildcard` elements. |
| Resolver.WildcardOutcome | main.go:151-163 | For what follows the import path and `/`, gives the wildcard outcome without Split and Join. It is "not found" when there are fewer than wildcard-1 slashes. Otherwise it is a page whose roots append `/` and the text before the wildcard-th slash. The suffix is the rest of the path, except that a lone `/` becomes empty. |
| Resolver.WildcardElements | main.go:151-163 | The page case of `WildcardOutcome`: when the split has at least `wildcard` pieces, the page's roots and suffix are as described there. |
| Resolver.ElementsTail | main.go:152-157 | What follows the first `wildcard` elements is empty or starts with `/`, and it is empty when there are exactly `wildcard` elements. |
| Resolver.WildcardPageRoots | main.go:151-163 | Every page in wildcard mode substitutes one and the same element text into both roots. That text holds wildcard-1 slashes. |
| Resolver.WildcardPageSuffix | main.go:151-163 | A path with exactly `wildcard` elements gets an empty suffix and an import root equal to the path. A non-empty suffix starts with `/`, and the import root followed by it is the path. An empty suffix means the path is the import root, possibly with one `/` added. |
| Resolver.OneWildcardElement | main.go:151-163 | With one wildcard, the import path followed by `/`, a slash-free element and a suffix (empty, or `/` and more) resolves to the page for that element with that suffix. |
| Resolver.PageWithinNamespace | main.go:140-172 | Every page's import root is a prefix of the path and starts with the configured import path. Its repository root starts with the configured repository path. |
| Render.RenderPage | main.go:119-130 | Executes the parsed template (`PageTemplate`, the texts and actions of the template at main.go:119-130) on the page data, as `tmpl.Execute` at main.go:180 does. It has no contract of its own. `PageOutput`, `PageLayout`, `PageContainsTags`, `PagePrints` and `SuffixNeverRendered` state its behaviour. |
| Render.PageOutput | main.go:119-130 | The page is the template's texts with the escaped field values in between, piece by piece. |
| Render.PageLayout | main.go:119-130 | The page is, in this order: the head, the go-import tag, the refresh tag, the body text, the link, and the tail. The go-import tag carries the import root, the VCS and the repository root. The refresh tag and the link both use the repository root. |
| Render.PageContainsTags | main.go:123-127 | The page contains the go-import tag for the import root, the VCS and the repository root. It also contains the refresh tag and the link to the repository root. |
| Render.PagePrints | main.go:123-127 | The template prints exactly the import root, the VCS and the repository root. |
| Render.ExecuteReadsOnlyUsedFields | main.go:132-137 | Executing a template on two values that agree on every field the template prints gives the same output. |
| Render.SuffixNeverRendered | main.go:173-180 | Changing the suffix never changes the page. |
| Handler.Serve | main.go:139-185 | The `redirect` handler: "not found", a redirect to the resolved URL, or the page rendered from the resolved roots, the VCS and the suffix. It has no contract of its own. `ServedPage` and `WildcardRootServed` state its behaviour. |
| Handler.ServedPage | main.go:173-185 | When the request resolves to a page, the handler writes one. It contains the go-import tag for the resolved roots and the VCS, plus the refresh tag and the link to the resolved repository root. |
| Handler.WildcardRootServed | main.go:140-146 | In wildcard mode, for an import path that does not end in `/`, a request for the import path, with or without a trailing `/`, is redirected to the repository path. (For an import path that ends in `/`, which an argument such as `a//*` produces, the request for the import path itself normalizes to a shorter path and is not redirected.) |
| Handler.PlainExample | main.go:20-27 | Served by `9fans.net/go` and `https://github.com/9fans/go`, a request for `9fans.net/go/acme/editinacme` gets a page. The page has the go-import tag naming `9fans.net/go`, `git` and the repository, and the refresh tag to the repository. |
| Handler.WildcardExample | main.go:29-40 | Take any configuration that stripping the markers from the arguments `rsc.io/*` and `https://github.com/rsc/*` can produce. With it, the request `rsc.io/x86/x86asm` resolves to the roots `rsc.io/x86` and `https://github.com/rsc/x86` with the suffix `/x86asm`. The handler writes a page whose go-import tag names `rsc.io/x86`, `git` and `https://github.com/rsc/x86`, and whose refresh tag goes to `https://github.com/rsc/x86`. |
| Handler.StrippedWildcardConfig | main.go:105-109 | Stripping the markers from `rsc.io/*` and `https://github.com/rsc/*` can only give the import path `rsc.io`, the repository path `https://github.com/rsc` and a wildcard count of 1. |

## Left out

- Flag parsing, the argument-count check and `usage` (main.go:80-96): command-line plumbing. The two arguments and the VCS name are parameters.
- Process termination by `log.Fatal` and `os.Exit` (main.go:87, 100, 103, 115): a refused configuration is an error result instead.
- `http.HandleFunc` and `http.ListenAndServe` (main.go:111-116): routing and serving are done by the `net/http` library, which is not part of this model. So is the way the `/.ping` route takes precedence. The resolver is defined for every host and path, not only for those the route sends it. In particular, the `net/http` router cleans a request path that holds `//` and answers with a redirect of its own before `redirect` is called. So the corners with a path ending in `//` (`OnlyOneSlashRemoved`, and the empty suffix of `WildcardPageSuffix` for a path equal to the import root plus `/`) arise only when the handler is called directly.
- Serving over TLS: only the documentation comment describes it (main.go:44-49). The code at these lines has no `-tls` flag and no TLS call, so there is nothing to model.
- The `pong` handler (main.go:188-190): it writes a constant.
- The escaping done by `html/template`: the escaper is an uninterpreted parameter, one per place in the page. The model says which value goes where, not what the escaped text looks like.
- The error path of template execution (main.go:181-184): with an abstract escaper, execution always succeeds, so the 500 response is not modelled.
- The status codes, headers and writing of `http.Redirect`, `http.NotFound` and `w.Write`: a response is one of three constructors.
- Byte-level strings: strings are sequences of characters. Every separator the code uses is ASCII, so no outcome differs.
