/** The string operations the sign-in handler applies to its header. */
module Text {

  /** `s.startsWith(p)` */
  predicate StartsWith(s: string, p: string)
  {
    |p| <= |s| && s[..|p|] == p
  }

  /** A string starts with `p` exactly when it is `p` followed by something. */
  lemma StartsWithConcat(s: string, p: string)
    ensures StartsWith(p + s, p)
    ensures StartsWith(s, p) ==> s == p + s[|p|..]
  {
    assert (p + s)[..|p|] == p;
  }

  /**
   * `s.split(sep)` for a one-character separator: the pieces between
   * consecutive separators, in order; there is always at least one piece,
   * and no piece contains the separator.
   */
  function Split(s: string, sep: char): (pieces: seq<string>)
    ensures |pieces| >= 1
    ensures forall i :: 0 <= i < |pieces| ==> sep !in pieces[i]
    decreases |s|
  {
    if |s| == 0 then [""]
    else
      var rest := Split(s[1..], sep);
      if s[0] == sep then [""] + rest
      else [[s[0]] + rest[0]] + rest[1..]
  }

  /** `pieces.join(sep)`, the reference the pieces of `Split` are measured against. */
  function Join(pieces: seq<string>, sep: char): string
    requires |pieces| >= 1
    decreases |pieces|
  {
    if |pieces| == 1 then pieces[0] else pieces[0] + [sep] + Join(pieces[1..], sep)
  }

  /** Joining the pieces back gives the original string. */
  lemma {:induction false} JoinSplit(s: string, sep: char)
    ensures Join(Split(s, sep), sep) == s
    decreases |s|
  {
    if |s| > 0 {
      var rest := Split(s[1..], sep);
      JoinSplit(s[1..], sep);
      if s[0] == sep {
        assert Split(s, sep)[1..] == rest;
        assert s == [sep] + s[1..];
      } else {
        var pieces := Split(s, sep);
        if |rest| == 1 {
          assert pieces == [[s[0]] + rest[0]];
          assert s == [s[0]] + s[1..];
        } else {
          assert pieces[1..] == rest[1..];
          assert Join(pieces, sep) == [s[0]] + (rest[0] + [sep] + Join(rest[1..], sep));
          assert s == [s[0]] + s[1..];
        }
      }
    }
  }

  /** A string without the separator is a single piece. */
  lemma {:induction false} SplitWithoutSeparator(s: string, sep: char)
    requires sep !in s
    ensures Split(s, sep) == [s]
    decreases |s|
  {
    if |s| > 0 {
      assert sep !in s[1..];
      SplitWithoutSeparator(s[1..], sep);
      assert [s[0]] + s[1..] == s;
    }
  }

  /** The first piece ends at the first separator; the rest is split on its own. */
  lemma {:induction false} SplitAtFirst(p: string, sep: char, rest: string)
    requires sep !in p
    ensures Split(p + [sep] + rest, sep) == [p] + Split(rest, sep)
    decreases |p|
  {
    var s := p + [sep] + rest;
    if |p| == 0 {
      assert s[1..] == rest;
    } else {
      assert s[1..] == p[1..] + [sep] + rest;
      assert sep !in p[1..];
      SplitAtFirst(p[1..], sep, rest);
      assert [p[0]] + p[1..] == p;
    }
  }

  /** Splitting separator-free pieces joined by the separator gives them back. */
  lemma {:induction false} SplitJoin(pieces: seq<string>, sep: char)
    requires |pieces| >= 1
    requires forall i :: 0 <= i < |pieces| ==> sep !in pieces[i]
    ensures Split(Join(pieces, sep), sep) == pieces
    decreases |pieces|
  {
    if |pieces| == 1 {
      SplitWithoutSeparator(pieces[0], sep);
    } else {
      assert forall i :: 0 <= i < |pieces| - 1 ==> pieces[1..][i] == pieces[i + 1];
      SplitJoin(pieces[1..], sep);
      SplitAtFirst(pieces[0], sep, Join(pieces[1..], sep));
      assert [pieces[0]] + pieces[1..] == pieces;
    }
  }

  /**
   * The first piece is the longest separator-free prefix: either it is the
   * whole string, or a separator follows it and the remaining pieces are
   * the pieces of what comes after that separator.
   */
  lemma {:induction false} SplitHead(s: string, sep: char)
    ensures var pieces := Split(s, sep); var n := |pieces[0]|;
            && n <= |s| && s[..n] == pieces[0]
            && (n == |s| ==> |pieces| == 1)
            && (n < |s| ==> s[n] == sep && pieces[1..] == Split(s[n + 1..], sep))
    decreases |s|
  {
    if |s| > 0 && s[0] != sep {
      var rest := Split(s[1..], sep);
      SplitHead(s[1..], sep);
      var m := |rest[0]|;
      assert s[..m + 1] == [s[0]] + s[1..][..m];
      if m < |s| - 1 {
        assert s[1..][m + 1..] == s[m + 2..];
      }
    }
  }
}
