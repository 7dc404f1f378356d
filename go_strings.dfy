// The functions of Go's `strings` package that the redirector calls,
// over strings modelled as sequences of characters. Every separator the
// redirector uses is ASCII, so working on characters rather than on
// UTF-8 bytes changes no result.
module GoStrings {

  /** strings.HasPrefix */
  predicate HasPrefix(s: string, prefix: string) {
    |prefix| <= |s| && s[..|prefix|] == prefix
  }

  /** strings.HasSuffix */
  predicate HasSuffix(s: string, suffix: string) {
    |suffix| <= |s| && s[|s| - |suffix|..] == suffix
  }

  /** strings.TrimSuffix: drops `suffix` once if `s` ends with it. */
  function TrimSuffix(s: string, suffix: string): (r: string)
    ensures HasSuffix(s, suffix) ==> r + suffix == s
    ensures !HasSuffix(s, suffix) ==> r == s
  {
    if HasSuffix(s, suffix) then s[..|s| - |suffix|] else s
  }

  /** strings.Contains */
  predicate Contains(s: string, substr: string)
    decreases |s|
  {
    HasPrefix(s, substr) || (|s| > 0 && Contains(s[1..], substr))
  }

  /** A string occurs inside any string that has it between two others. */
  lemma {:induction false} ContainsMiddle(a: string, t: string, b: string)
    ensures Contains(a + t + b, t)
  {
    if a == [] {
      assert (a + t + b)[..|t|] == t;
    } else {
      ContainsMiddle(a[1..], t, b);
      assert (a + t + b)[1..] == a[1..] + t + b;
    }
  }

  /**
   * strings.Split with a one-character separator: the pieces between the
   * occurrences of `sep`. As in Go, the result is never empty, and
   * splitting the empty string gives one empty piece.
   */
  function Split(s: string, sep: char): (parts: seq<string>)
    ensures |parts| >= 1
  {
    if s == [] then [[]]
    else
      var rest := Split(s[1..], sep);
      if s[0] == sep then [[]] + rest
      else [[s[0]] + rest[0]] + rest[1..]
  }

  /** Split gives one piece more than there are separators, and no piece holds one. */
  lemma {:induction false} SplitPieces(s: string, sep: char)
    ensures |Split(s, sep)| == multiset(s)[sep] + 1
    ensures forall i :: 0 <= i < |Split(s, sep)| ==> sep !in Split(s, sep)[i]
  {
    if s != [] {
      var t := s[1..];
      var rest := Split(t, sep);
      SplitPieces(t, sep);
      assert s == [s[0]] + t;
      assert multiset(s) == multiset([s[0]]) + multiset(t);
      if s[0] != sep {
        assert sep !in [s[0]] + rest[0];
      }
    }
  }

  /** strings.Join with a one-character separator; joining nothing gives "". */
  function Join(parts: seq<string>, sep: char): (s: string)
  {
    if |parts| == 0 then []
    else if |parts| == 1 then parts[0]
    else parts[0] + [sep] + Join(parts[1..], sep)
  }

  /** Joining what Split produced gives back the original string. */
  lemma {:induction false} JoinSplit(s: string, sep: char)
    ensures Join(Split(s, sep), sep) == s
  {
    if s != [] {
      var t := s[1..];
      var rest := Split(t, sep);
      JoinSplit(t, sep);
      assert s == [s[0]] + t;
      if s[0] == sep {
        var parts := [[]] + rest;
        assert Split(s, sep) == parts;
        assert parts[1..] == rest;
        assert Join(parts, sep) == [] + [sep] + Join(rest, sep);
      } else {
        var parts := [[s[0]] + rest[0]] + rest[1..];
        assert Split(s, sep) == parts;
        if |rest| > 1 {
          assert parts[1..] == rest[1..];
          assert Join(parts, sep) == [s[0]] + rest[0] + [sep] + Join(rest[1..], sep);
          assert Join(rest, sep) == rest[0] + [sep] + Join(rest[1..], sep);
        }
      }
    }
  }

  /** Splitting a string that starts with a piece free of `sep` extends the first piece. */
  lemma {:induction false} SplitPrepend(w: string, s: string, sep: char)
    requires sep !in w
    ensures Split(w + s, sep) == [w + Split(s, sep)[0]] + Split(s, sep)[1..]
  {
    if w != [] {
      var tail := Split(s, sep);
      SplitPrepend(w[1..], s, sep);
      var rest := Split(w[1..] + s, sep);
      assert rest == [w[1..] + tail[0]] + tail[1..];
      assert (w + s)[1..] == w[1..] + s;
      assert (w + s)[0] == w[0] && w[0] != sep;
      assert Split(w + s, sep) == [[w[0]] + rest[0]] + rest[1..];
      assert rest[1..] == tail[1..];
      assert [w[0]] + (w[1..] + tail[0]) == w + tail[0];
    } else {
      var tail := Split(s, sep);
      assert w + s == s && w + tail[0] == tail[0];
      assert tail == [tail[0]] + tail[1..];
    }
  }

  /** Splitting a join of separator-free pieces gives back the pieces. */
  lemma {:induction false} SplitJoin(parts: seq<string>, sep: char)
    requires |parts| >= 1
    requires forall i :: 0 <= i < |parts| ==> sep !in parts[i]
    ensures Split(Join(parts, sep), sep) == parts
  {
    if |parts| == 1 {
      SplitPrepend(parts[0], [], sep);
      assert parts[0] + [] == parts[0];
    } else {
      var tail := Join(parts[1..], sep);
      SplitJoin(parts[1..], sep);
      assert Split([sep] + tail, sep) == [[]] + parts[1..] by {
        assert ([sep] + tail)[1..] == tail;
      }
      SplitPrepend(parts[0], [sep] + tail, sep);
      assert parts[0] + [sep] + tail == parts[0] + ([sep] + tail);
      assert ([[]] + parts[1..])[1..] == parts[1..];
      assert parts[0] + [] == parts[0];
    }
  }

  /**
   * The part of `s` before its (n+1)-th occurrence of `sep`, or all of `s`
   * when `sep` occurs at most n times: the first n+1 pieces of `s`, found
   * without splitting it.
   */
  function BeforeNth(s: string, sep: char, n: nat): (r: string)
    ensures |r| <= |s|
  {
    if s == [] then []
    else if s[0] == sep then
      if n == 0 then [] else [s[0]] + BeforeNth(s[1..], sep, n - 1)
    else
      [s[0]] + BeforeNth(s[1..], sep, n)
  }

  /**
   * BeforeNth is a prefix of `s` holding at most n separators, and either
   * all of `s` or followed by a separator after exactly n of them.
   */
  lemma {:induction false} BeforeNthSpec(s: string, sep: char, n: nat)
    ensures HasPrefix(s, BeforeNth(s, sep, n))
    ensures multiset(BeforeNth(s, sep, n))[sep] <= n
    ensures BeforeNth(s, sep, n) == s ||
      (s[|BeforeNth(s, sep, n)|] == sep && multiset(BeforeNth(s, sep, n))[sep] == n)
  {
    if s != [] {
      var t := s[1..];
      assert s == [s[0]] + t;
      if s[0] != sep || n > 0 {
        var m := if s[0] == sep then n - 1 else n;
        var r' := BeforeNth(t, sep, m);
        BeforeNthSpec(t, sep, m);
        assert BeforeNth(s, sep, n) == [s[0]] + r';
        assert multiset([s[0]] + r') == multiset([s[0]]) + multiset(r');
        assert ([s[0]] + t)[..|r'| + 1] == [s[0]] + t[..|r'|];
      }
    }
  }

  /** `s` is BeforeNth followed by the rest of `s`, which is empty or starts with the separator. */
  lemma BeforeNthTail(s: string, sep: char, n: nat)
    ensures var b := BeforeNth(s, sep, n);
      s == b + s[|b|..] && (s[|b|..] == [] || s[|b|..][0] == sep)
  {
    var b := BeforeNth(s, sep, n);
    BeforeNthSpec(s, sep, n);
    assert s[..|b|] == b;
  }

  /** When `s` holds at least n separators, the part before the (n+1)-th holds exactly n. */
  lemma BeforeNthCount(s: string, sep: char, n: nat)
    requires multiset(s)[sep] >= n
    ensures multiset(BeforeNth(s, sep, n))[sep] == n
  {
    var b := BeforeNth(s, sep, n);
    BeforeNthSpec(s, sep, n);
    if b == s {
      assert multiset(b)[sep] == multiset(s)[sep];
    }
  }

  /** Joining pieces in two runs and then joining the runs gives the same string. */
  lemma {:induction false} JoinAt(parts: seq<string>, sep: char, k: nat)
    requires 0 < k < |parts|
    ensures Join(parts, sep) == Join(parts[..k], sep) + [sep] + Join(parts[k..], sep)
  {
    if k > 1 {
      JoinAt(parts[1..], sep, k - 1);
      assert parts[1..][..k - 1] == parts[..k][1..];
      assert parts[1..][k - 1..] == parts[k..];
    } else {
      assert parts[..1] == [parts[0]];
      assert parts[1..] == parts[k..];
    }
  }

  /** The first n+1 pieces of a split, joined again, are the part of `s` before its (n+1)-th separator. */
  lemma {:induction false} JoinFirstPieces(s: string, sep: char, n: nat)
    requires n < |Split(s, sep)|
    ensures Join(Split(s, sep)[..n + 1], sep) == BeforeNth(s, sep, n)
    decreases |s|, 1
  {
    if s != [] {
      if s[0] == sep {
        JoinFirstPiecesAtSep(s, sep, n);
      } else {
        JoinFirstPiecesAtOther(s, sep, n);
      }
    }
  }

  /** JoinFirstPieces for a string that starts with the separator. */
  lemma {:induction false} JoinFirstPiecesAtSep(s: string, sep: char, n: nat)
    requires s != [] && s[0] == sep
    requires n < |Split(s, sep)|
    ensures Join(Split(s, sep)[..n + 1], sep) == BeforeNth(s, sep, n)
    decreases |s|, 0
  {
    var t := s[1..];
    var rest := Split(t, sep);
    assert Split(s, sep) == [[]] + rest;
    if n == 0 {
      assert Split(s, sep)[..1] == [[]];
    } else {
      var ps := rest[..n];
      assert Split(s, sep)[..n + 1] == [[]] + ps;
      assert Join([[]] + ps, sep) == [sep] + Join(ps, sep) by {
        JoinAfterEmpty(ps, sep);
      }
      assert Join(ps, sep) == BeforeNth(t, sep, n - 1) by {
        JoinFirstPieces(t, sep, n - 1);
      }
      assert BeforeNth(s, sep, n) == [sep] + BeforeNth(t, sep, n - 1);
    }
  }

  /** Joining an empty piece before others puts a separator before their join. */
  lemma JoinAfterEmpty(ps: seq<string>, sep: char)
    requires |ps| >= 1
    ensures Join([[]] + ps, sep) == [sep] + Join(ps, sep)
  {
    assert ([[]] + ps)[1..] == ps;
  }

  /** JoinFirstPieces for a string that starts with another character. */
  lemma {:induction false} JoinFirstPiecesAtOther(s: string, sep: char, n: nat)
    requires s != [] && s[0] != sep
    requires n < |Split(s, sep)|
    ensures Join(Split(s, sep)[..n + 1], sep) == BeforeNth(s, sep, n)
    decreases |s|, 0
  {
    var t := s[1..];
    var rest := Split(t, sep);
    var ps := rest[..n + 1];
    assert Split(s, sep)[..n + 1] == [[s[0]] + ps[0]] + ps[1..] by {
      assert Split(s, sep) == [[s[0]] + rest[0]] + rest[1..];
    }
    JoinExtendFirst([s[0]], ps, sep);
    JoinFirstPieces(t, sep, n);
  }

  /** Joining pieces whose first one is extended at the front extends the join at the front. */
  lemma JoinExtendFirst(w: string, ps: seq<string>, sep: char)
    requires |ps| >= 1
    ensures Join([w + ps[0]] + ps[1..], sep) == w + Join(ps, sep)
  {
    var qs := [w + ps[0]] + ps[1..];
    if |ps| > 1 {
      assert qs[1..] == ps[1..];
      assert Join(qs, sep) == (w + ps[0]) + [sep] + Join(ps[1..], sep);
    }
  }

  /**
   * What follows the first n+1 pieces of a string is nothing when there
   * are no more pieces, and otherwise a separator and the remaining pieces
   * joined.
   */
  lemma SplitAtPiece(s: string, sep: char, n: nat)
    requires n < |Split(s, sep)|
    ensures n + 1 < |Split(s, sep)| ==>
      s[|BeforeNth(s, sep, n)|..] == [sep] + Join(Split(s, sep)[n + 1..], sep)
    ensures n + 1 == |Split(s, sep)| ==> s == BeforeNth(s, sep, n)
  {
    var parts := Split(s, sep);
    var b := BeforeNth(s, sep, n);
    assert Join(parts, sep) == s by {
      JoinSplit(s, sep);
    }
    assert Join(parts[..n + 1], sep) == b by {
      JoinFirstPieces(s, sep, n);
    }
    if n + 1 < |parts| {
      var j := Join(parts[n + 1..], sep);
      assert s == b + ([sep] + j) by {
        JoinAt(parts, sep, n + 1);
      }
    } else {
      assert parts[..n + 1] == parts;
    }
  }
}
