/** What trimming, normalizing and glob matching mean for any text. */
module TextBasics {
  import opened Paths
  import opened GlobOverlap

  lemma {:induction false} TrimLeftDrops(s: string, drop: char -> bool)
    ensures var t := TrimLeft(s, drop);
            && |t| <= |s| && t == s[|s| - |t|..] && (t == "" || !drop(t[0]))
            && forall i :: 0 <= i < |s| - |t| ==> drop(s[i])
  {
    if s != "" && drop(s[0]) {
      TrimLeftDrops(s[1..], drop);
      assert forall i :: 0 < i < |s| ==> s[i] == s[1..][i - 1];
    }
  }

  lemma {:induction false} TrimRightDrops(s: string, drop: char -> bool)
    ensures var t := TrimRight(s, drop);
            && |t| <= |s| && t == s[..|t|] && (t == "" || !drop(t[|t| - 1]))
            && forall i :: |t| <= i < |s| ==> drop(s[i])
  {
    if s != "" && drop(s[|s| - 1]) {
      TrimRightDrops(s[..|s| - 1], drop);
    }
  }

  /** `middle` is `s` without the spaces at its two ends. */
  ghost predicate StrippedAt(s: string, middle: string, from: nat, to: nat) {
    && from <= to <= |s| && middle == s[from..to]
    && (forall i :: 0 <= i < from || to <= i < |s| ==> IsSpace(s[i]))
    && (middle != "" ==> !IsSpace(middle[0]) && !IsSpace(middle[|middle| - 1]))
  }

  lemma StripMeans(s: string) returns (from: nat, to: nat)
    ensures StrippedAt(s, Strip(s), from, to)
  {
    hide IsSpace, TrimLeft, TrimRight;
    var t := TrimLeft(s, IsSpace);
    TrimLeftDrops(s, IsSpace);
    TrimRightDrops(t, IsSpace);
    from := |s| - |t|;
    to := from + |Strip(s)|;
    forall i | from <= i < |s| ensures s[i] == t[i - from] {
    }
    StripEnds(s, t);
  }

  lemma StripEnds(s: string, t: string)
    requires t == TrimLeft(s, IsSpace)
    ensures Strip(s) != "" ==> !IsSpace(Strip(s)[0])
  {
    hide IsSpace, TrimLeft, TrimRight;
    TrimLeftDrops(s, IsSpace);
    TrimRightDrops(t, IsSpace);
    assert Strip(s) != "" ==> Strip(s)[0] == t[0];
  }

  /** A specification loses its surrounding spaces and then its leading dots and
      slashes, and nothing else. */
  lemma NormalizeMeans(s: string) returns (n: nat)
    ensures n <= |Strip(s)| && Normalize(s) == Strip(s)[n..]
    ensures forall i :: 0 <= i < n ==> Strip(s)[i] == '.' || Strip(s)[i] == '/'
    ensures Normalize(s) != "" ==> Normalize(s)[0] != '.' && Normalize(s)[0] != '/'
  {
    TrimLeftDrops(Strip(s), DotOrSlash);
    n := |Strip(s)| - |Normalize(s)|;
  }

  /** A star matches any text between what the parts around it match; a pattern
      without stars matches itself only. */
  lemma StarMeans(x: string, a: string, b: string)
    ensures Glob(x, a + "*" + b) <==> exists i, j :: 0 <= i <= j <= |x| && Glob(x[..i], a) && Glob(x[j..], b)
    ensures '*' !in a ==> (Glob(x, a) <==> x == a)
  {
    GlobLiteralIf(x, a);
    if Glob(x, a + "*" + b) {
      var i, j := StarSplits(x, a, b);
    }
    if i, j :| 0 <= i <= j <= |x| && Glob(x[..i], a) && Glob(x[j..], b) {
      StarJoins(x, a, b, i, j);
    }
  }

  lemma GlobLiteralIf(x: string, a: string)
    ensures '*' !in a ==> (Glob(x, a) <==> x == a)
  {
    if '*' !in a {
      GlobLiteral(x, a);
    }
  }

  lemma StarJoins(x: string, a: string, b: string, i: nat, j: nat)
    requires i <= j <= |x| && Glob(x[..i], a) && Glob(x[j..], b)
    ensures Glob(x, a + "*" + b)
  {
    StarsTake(x[i..j], "*");
    hide Glob;
    GlobJoin(x[..i], a, x[i..j], "*");
    GlobJoin(x[..i] + x[i..j], a + "*", x[j..], b);
    assert x[..i] + x[i..j] + x[j..] == x;
  }

  lemma {:induction false} StarSplits(x: string, a: string, b: string) returns (i: nat, j: nat)
    requires Glob(x, a + "*" + b)
    ensures i <= j <= |x| && Glob(x[..i], a) && Glob(x[j..], b)
    decreases |x| + |a|
  {
    var p := a + "*" + b;
    if a == "" {
      assert p[1..] == b;
      if Glob(x, b) {
        i, j := 0, 0;
        assert x[0..] == x && x[..0] == "";
      } else {
        assert p == "" + "*" + b;
        i, j := StarSplits(x[1..], a, b);
        i, j := 0, j + 1;
        assert x[1..][j - 1..] == x[j..] && x[..0] == "";
      }
    } else {
      assert p[1..] == a[1..] + "*" + b && p[0] == a[0];
      if a[0] == '*' && Glob(x, p[1..]) {
        i, j := StarSplits(x, a[1..], b);
      } else if a[0] == '*' {
        i, j := StarSplits(x[1..], a, b);
        assert x[..i + 1][1..] == x[1..][..i] && x[1..][j..] == x[j + 1..];
        i, j := i + 1, j + 1;
      } else {
        i, j := StarSplits(x[1..], a[1..], b);
        assert x[..i + 1][1..] == x[1..][..i] && x[1..][j..] == x[j + 1..];
        i, j := i + 1, j + 1;
      }
    }
  }
}
