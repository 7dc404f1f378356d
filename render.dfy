// The page the redirect handler writes: the fixed HTML template with its
// actions filled in from the page data. The template is kept as the list
// of literal texts and actions that parsing it yields, and executing it
// concatenates the texts with the escaped field values. The HTML escaper
// is a parameter: it may treat each place in the page differently, and
// nothing is assumed about what it does.
module Render {
  import opened GoStrings

  /** The value the template is executed on. */
  datatype Data = Data(importRoot: string, vcs: string, vcsRoot: string, suffix: string)

  /** The fields of Data that an action can print. */
  datatype Field = ImportRoot | VCS | VCSRoot | Suffix

  /** Where in the page an action's output lands. */
  datatype Context = GoImportContent | RefreshContent | LinkHref | LinkText

  /** A piece of a parsed template: literal text, or an action printing a field. */
  datatype Piece = Text(text: string) | Action(field: Field, context: Context)

  /** The contextual escaper applied to every action's output. */
  type Escaper = (Context, string) -> string

  function Lookup(d: Data, f: Field): string
  {
    match f
    case ImportRoot => d.importRoot
    case VCS => d.vcs
    case VCSRoot => d.vcsRoot
    case Suffix => d.suffix
  }

  // The literal texts of the page template, in the order they appear.
  const Head: string :=
    "<!DOCTYPE html>\n<html>\n<head>\n"
    + "<meta http-equiv=\"Content-Type\" content=\"text/html; charset=utf-8\"/>\n"
  const GoImportOpen: string := "<meta name=\"go-import\" content=\""
  const Space: string := " "
  const TagClose: string := "\">"
  const Newline: string := "\n"
  const RefreshOpen: string := "<meta http-equiv=\"refresh\" content=\"0; url="
  const BodyOpen: string := "\n</head>\n<body>\nRedirecting to "
  const LinkOpen: string := "<a href=\""
  const LinkClose: string := "</a>"
  const Tail: string := "...\n</body>\n</html>\n"

  /** The parsed page template. */
  const PageTemplate: seq<Piece> := [
    Text(Head + GoImportOpen),
    Action(ImportRoot, GoImportContent),
    Text(Space),
    Action(VCS, GoImportContent),
    Text(Space),
    Action(VCSRoot, GoImportContent),
    Text(TagClose + Newline + RefreshOpen),
    Action(VCSRoot, RefreshContent),
    Text(TagClose + BodyOpen + LinkOpen),
    Action(VCSRoot, LinkHref),
    Text(TagClose),
    Action(VCSRoot, LinkText),
    Text(LinkClose + Tail)
  ]

  /** What one piece contributes to the output. */
  function Output(p: Piece, d: Data, esc: Escaper): string
  {
    match p
    case Text(s) => s
    case Action(f, ctx) => esc(ctx, Lookup(d, f))
  }

  /** Template execution: the pieces' outputs, in order. */
  function Execute(t: seq<Piece>, d: Data, esc: Escaper): string
  {
    if t == [] then [] else Output(t[0], d, esc) + Execute(t[1..], d, esc)
  }

  /** Whether some action of `t` prints field `f`. */
  predicate Prints(t: seq<Piece>, f: Field)
  {
    t != [] && (PrintsAt(t[0], f) || Prints(t[1..], f))
  }

  /** Whether piece `p` is an action printing field `f`. */
  predicate PrintsAt(p: Piece, f: Field)
  {
    p.Action? && p.field == f
  }

  /** The output depends only on the fields the template prints. */
  lemma {:induction false} ExecuteReadsOnlyUsedFields(t: seq<Piece>, d: Data, d': Data, esc: Escaper)
    requires forall f :: Prints(t, f) ==> Lookup(d, f) == Lookup(d', f)
    ensures Execute(t, d, esc) == Execute(t, d', esc)
  {
    if t != [] {
      ExecuteReadsOnlyUsedFields(t[1..], d, d', esc);
    }
  }

  /** The go-import meta tag for the given (already escaped) field texts. */
  function GoImportTag(importRoot: string, vcs: string, vcsRoot: string): string
  {
    GoImportOpen + importRoot + Space + vcs + Space + vcsRoot + TagClose
  }

  /** The meta tag that makes a browser go to `url` at once. */
  function RefreshTag(url: string): string
  {
    RefreshOpen + url + TagClose
  }

  /** The link shown to a reader. */
  function LinkTag(href: string, text: string): string
  {
    LinkOpen + href + TagClose + text + LinkClose
  }

  /** The page for `d`: the go-import tag, then the refresh tag, then the link. */
  function RenderPage(d: Data, esc: Escaper): (body: string)
  {
    Execute(PageTemplate, d, esc)
  }

  /** The page's output, piece by piece. */
  lemma PageOutput(d: Data, esc: Escaper)
    ensures RenderPage(d, esc) ==
      (Head + GoImportOpen) + (esc(GoImportContent, d.importRoot) + (Space
      + (esc(GoImportContent, d.vcs) + (Space + (esc(GoImportContent, d.vcsRoot)
      + ((TagClose + Newline + RefreshOpen) + (esc(RefreshContent, d.vcsRoot)
      + ((TagClose + BodyOpen + LinkOpen) + (esc(LinkHref, d.vcsRoot)
      + (TagClose + (esc(LinkText, d.vcsRoot) + (LinkClose + Tail))))))))))))
  {
    ExecuteOfThirteen(PageTemplate, d, esc);
  }

  /** A template of thirteen pieces outputs its pieces' outputs in order. */
  lemma ExecuteOfThirteen(t: seq<Piece>, d: Data, esc: Escaper)
    requires |t| == 13
    ensures Execute(t, d, esc) ==
      Output(t[0], d, esc) + (Output(t[1], d, esc) + (Output(t[2], d, esc)
      + (Output(t[3], d, esc) + (Output(t[4], d, esc) + (Output(t[5], d, esc)
      + (Output(t[6], d, esc) + (Output(t[7], d, esc) + (Output(t[8], d, esc)
      + (Output(t[9], d, esc) + (Output(t[10], d, esc) + (Output(t[11], d, esc)
      + Output(t[12], d, esc))))))))))))
  {
    assert Execute(t[13..], d, esc) == [];
    assert Execute(t[12..], d, esc) == Output(t[12], d, esc) + Execute(t[13..], d, esc);
    assert Execute(t[11..], d, esc) == Output(t[11], d, esc) + Execute(t[12..], d, esc);
    assert Execute(t[10..], d, esc) == Output(t[10], d, esc) + Execute(t[11..], d, esc);
    assert Execute(t[9..], d, esc) == Output(t[9], d, esc) + Execute(t[10..], d, esc);
    assert Execute(t[8..], d, esc) == Output(t[8], d, esc) + Execute(t[9..], d, esc);
    assert Execute(t[7..], d, esc) == Output(t[7], d, esc) + Execute(t[8..], d, esc);
    assert Execute(t[6..], d, esc) == Output(t[6], d, esc) + Execute(t[7..], d, esc);
    assert Execute(t[5..], d, esc) == Output(t[5], d, esc) + Execute(t[6..], d, esc);
    assert Execute(t[4..], d, esc) == Output(t[4], d, esc) + Execute(t[5..], d, esc);
    assert Execute(t[3..], d, esc) == Output(t[3], d, esc) + Execute(t[4..], d, esc);
    assert Execute(t[2..], d, esc) == Output(t[2], d, esc) + Execute(t[3..], d, esc);
    assert Execute(t[1..], d, esc) == Output(t[1], d, esc) + Execute(t[2..], d, esc);
    assert Execute(t[0..], d, esc) == Output(t[0], d, esc) + Execute(t[1..], d, esc);
    assert t[0..] == t;
  }

  /**
   * The page holds, in this order, the go-import tag naming the import
   * root, the VCS and the repository root, the refresh tag to the
   * repository root, and a link to the repository root.
   */
  lemma PageLayout(d: Data, esc: Escaper)
    ensures RenderPage(d, esc) ==
      Head
      + GoImportTag(esc(GoImportContent, d.importRoot), esc(GoImportContent, d.vcs),
                    esc(GoImportContent, d.vcsRoot))
      + Newline + RefreshTag(esc(RefreshContent, d.vcsRoot))
      + BodyOpen + LinkTag(esc(LinkHref, d.vcsRoot), esc(LinkText, d.vcsRoot))
      + Tail
  {
    PageOutput(d, esc);
    Regroup(Head, GoImportOpen, esc(GoImportContent, d.importRoot), Space,
            esc(GoImportContent, d.vcs), esc(GoImportContent, d.vcsRoot), TagClose, Newline,
            RefreshOpen, esc(RefreshContent, d.vcsRoot), BodyOpen, LinkOpen,
            esc(LinkHref, d.vcsRoot), esc(LinkText, d.vcsRoot), LinkClose, Tail);
  }

  /** Regrouping the page's pieces into its tags. */
  lemma Regroup(head: string, gi: string, ir: string, sp: string, vcs: string, r1: string,
                tc: string, nl: string, ro: string, r2: string, bo: string, lo: string,
                r3: string, r4: string, lc: string, tail: string)
    ensures (head + gi) + (ir + (sp + (vcs + (sp + (r1 + ((tc + nl + ro) + (r2
      + ((tc + bo + lo) + (r3 + (tc + (r4 + (lc + tail))))))))))))
      == head + (gi + ir + sp + vcs + sp + r1 + tc) + nl + (ro + r2 + tc)
      + bo + (lo + r3 + tc + r4 + lc) + tail
  {
  }

  /** The suffix is never printed: changing it leaves the page as it is. */
  lemma SuffixNeverRendered(d: Data, suffix: string, esc: Escaper)
    ensures RenderPage(d.(suffix := suffix), esc) == RenderPage(d, esc)
  {
    assert !Prints(PageTemplate, Suffix) by {
      PagePrints();
    }
    ExecuteReadsOnlyUsedFields(PageTemplate, d.(suffix := suffix), d, esc);
  }

  /** The page template prints the import root, the VCS and the repository root, and nothing else. */
  lemma PagePrints()
    ensures forall f :: Prints(PageTemplate, f) <==> f in {ImportRoot, VCS, VCSRoot}
  {
    forall f
      ensures Prints(PageTemplate, f) <==> f in {ImportRoot, VCS, VCSRoot}
    {
      PrintsOfThirteen(PageTemplate, f);
    }
  }

  /** Whether a template of thirteen pieces prints a field, piece by piece. */
  lemma PrintsOfThirteen(t: seq<Piece>, f: Field)
    requires |t| == 13
    ensures Prints(t, f) <==>
      PrintsAt(t[0], f) || PrintsAt(t[1], f) || PrintsAt(t[2], f) || PrintsAt(t[3], f)
      || PrintsAt(t[4], f) || PrintsAt(t[5], f) || PrintsAt(t[6], f) || PrintsAt(t[7], f)
      || PrintsAt(t[8], f) || PrintsAt(t[9], f) || PrintsAt(t[10], f) || PrintsAt(t[11], f)
      || PrintsAt(t[12], f)
  {
    assert !Prints(t[13..], f);
    assert Prints(t[12..], f) == (PrintsAt(t[12], f) || Prints(t[13..], f));
    assert Prints(t[11..], f) == (PrintsAt(t[11], f) || Prints(t[12..], f));
    assert Prints(t[10..], f) == (PrintsAt(t[10], f) || Prints(t[11..], f));
    assert Prints(t[9..], f) == (PrintsAt(t[9], f) || Prints(t[10..], f));
    assert Prints(t[8..], f) == (PrintsAt(t[8], f) || Prints(t[9..], f));
    assert Prints(t[7..], f) == (PrintsAt(t[7], f) || Prints(t[8..], f));
    assert Prints(t[6..], f) == (PrintsAt(t[6], f) || Prints(t[7..], f));
    assert Prints(t[5..], f) == (PrintsAt(t[5], f) || Prints(t[6..], f));
    assert Prints(t[4..], f) == (PrintsAt(t[4], f) || Prints(t[5..], f));
    assert Prints(t[3..], f) == (PrintsAt(t[3], f) || Prints(t[4..], f));
    assert Prints(t[2..], f) == (PrintsAt(t[2], f) || Prints(t[3..], f));
    assert Prints(t[1..], f) == (PrintsAt(t[1], f) || Prints(t[2..], f));
    assert Prints(t[0..], f) == (PrintsAt(t[0], f) || Prints(t[1..], f));
    assert t[0..] == t;
  }

  /**
   * The page contains the go-import tag for its three fields, the refresh
   * tag to the repository root, and the link to it.
   */
  lemma PageContainsTags(d: Data, esc: Escaper)
    ensures Contains(RenderPage(d, esc),
      GoImportTag(esc(GoImportContent, d.importRoot), esc(GoImportContent, d.vcs),
                  esc(GoImportContent, d.vcsRoot)))
    ensures Contains(RenderPage(d, esc), RefreshTag(esc(RefreshContent, d.vcsRoot)))
    ensures Contains(RenderPage(d, esc), LinkTag(esc(LinkHref, d.vcsRoot), esc(LinkText, d.vcsRoot)))
  {
    PageLayout(d, esc);
    ContainsEach(Head,
      GoImportTag(esc(GoImportContent, d.importRoot), esc(GoImportContent, d.vcs),
                  esc(GoImportContent, d.vcsRoot)),
      Newline, RefreshTag(esc(RefreshContent, d.vcsRoot)),
      BodyOpen, LinkTag(esc(LinkHref, d.vcsRoot), esc(LinkText, d.vcsRoot)), Tail);
  }

  /** Each of three strings occurs in a string that has them with others between. */
  lemma ContainsEach(a: string, x: string, b: string, y: string, c: string, z: string, e: string)
    ensures Contains(a + x + b + y + c + z + e, x)
    ensures Contains(a + x + b + y + c + z + e, y)
    ensures Contains(a + x + b + y + c + z + e, z)
  {
    var s := a + x + b + y + c + z + e;
    assert s == a + x + (b + y + c + z + e);
    ContainsMiddle(a, x, b + y + c + z + e);
    assert s == (a + x + b) + y + (c + z + e);
    ContainsMiddle(a + x + b, y, c + z + e);
    assert s == (a + x + b + y + c) + z + e;
    ContainsMiddle(a + x + b + y + c, z, e);
  }
}
