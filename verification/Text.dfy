/** The string operations of the Go standard library that the gateway relies on: splitting and joining
    at a separator, trimming, prefix and suffix tests, and the order of `<` on strings. */
module Text {

  // ---------- order ----------

  /** Strict lexicographic order: Go's `a < b`. */
  predicate Before(a: string, b: string)
  {
    b != [] && (a == [] || a[0] < b[0] || (a[0] == b[0] && Before(a[1..], b[1..])))
  }

  lemma {:induction false} BeforeIrreflexive(a: string)
    ensures !Before(a, a)
  {
    if a == [] {
    } else {
      BeforeIrreflexive(a[1..]);
    }
  }

  lemma {:induction false} BeforeTransitive(a: string, b: string, c: string)
    requires Before(a, b) && Before(b, c)
    ensures Before(a, c)
  {
    if a != [] && a[0] == b[0] == c[0] {
      BeforeTransitive(a[1..], b[1..], c[1..]);
    }
  }

  lemma {:induction false} BeforeTotal(a: string, b: string)
    ensures a == b || Before(a, b) || Before(b, a)
  {
    if a != [] && b != [] && a[0] == b[0] {
      BeforeTotal(a[1..], b[1..]);
      assert a == [a[0]] + a[1..] && b == [b[0]] + b[1..];
    }
  }

  lemma BeforeAsymmetric(a: string, b: string)
    ensures !(Before(a, b) && Before(b, a))
  {
  }

  /** Where two strings part: they agree up to `k`, and there the first ends before the second, or has the smaller
      character. */
  predicate PartsAt(a: string, b: string, k: nat)
  {
    && k <= |a| && k < |b| && a[..k] == b[..k]
    && (k == |a| || a[k] < b[k])
  }

  /** The order is lexicographic: the first difference decides, or being a proper prefix. */
  lemma {:induction false} BeforeIsLexicographic(a: string, b: string)
    ensures Before(a, b) <==> exists k: nat :: PartsAt(a, b, k)
  {
    if a == [] || b == [] {
      assert b != [] ==> PartsAt(a, b, 0);
    } else {
      BeforeIsLexicographic(a[1..], b[1..]);
      if a[0] < b[0] {
        assert PartsAt(a, b, 0);
      } else if a[0] == b[0] {
        TailsPart(a, b);
      }
    }
  }

  lemma TailsPart(a: string, b: string)
    requires a != [] && b != [] && a[0] == b[0]
    ensures (exists k: nat :: PartsAt(a, b, k)) <==> exists k: nat :: PartsAt(a[1..], b[1..], k)
  {
    assert a == [a[0]] + a[1..] && b == [b[0]] + b[1..];
    if k: nat :| PartsAt(a, b, k) {
      assert k > 0;
      assert a[1..][..k - 1] == a[..k][1..] && b[1..][..k - 1] == b[..k][1..];
      assert PartsAt(a[1..], b[1..], k - 1);
    }
    if k: nat :| PartsAt(a[1..], b[1..], k) {
      assert a[..k + 1] == [a[0]] + a[1..][..k] && b[..k + 1] == [b[0]] + b[1..][..k];
      assert PartsAt(a, b, k + 1);
    }
  }

  // ---------- prefixes and suffixes ----------

  predicate HasPrefix(s: string, prefix: string)
  {
    |prefix| <= |s| && s[..|prefix|] == prefix
  }

  predicate HasSuffix(s: string, suffix: string)
  {
    |suffix| <= |s| && s[|s| - |suffix|..] == suffix
  }

  function TrimSuffix(s: string, suffix: string): string
  {
    if HasSuffix(s, suffix) then s[..|s| - |suffix|] else s
  }

  lemma TrimSuffixOfSum(s: string, suffix: string)
    ensures HasSuffix(s + suffix, suffix)
    ensures TrimSuffix(s + suffix, suffix) == s
  {
  }

  // ---------- trimming a separator from both ends ----------

  function TrimLeft(s: string, c: char): (r: string)
    ensures r == [] || r[0] != c
  {
    if s != [] && s[0] == c then TrimLeft(s[1..], c) else s
  }

  function TrimRight(s: string, c: char): (r: string)
    ensures r <= s
    ensures r == [] || r[|r| - 1] != c
  {
    if s != [] && s[|s| - 1] == c then TrimRight(s[..|s| - 1], c) else s
  }

  function Trim(s: string, c: char): string
  {
    TrimRight(TrimLeft(s, c), c)
  }

  /** Nothing is cut from a string that neither starts nor ends with the separator. */
  lemma TrimFixed(s: string, c: char)
    requires s != [] && s[0] != c && s[|s| - 1] != c
    ensures Trim(s, c) == s
    ensures Trim([c] + s, c) == s
  {
  }

  lemma TrimEnds(s: string, c: char)
    ensures var t := Trim(s, c); t == [] || (t[0] != c && t[|t| - 1] != c)
  {
  }

  function Repeat(c: char, n: nat): string
  {
    seq(n, _ => c)
  }

  lemma {:induction false} LeftCut(s: string, c: char) returns (n: nat)
    ensures s == Repeat(c, n) + TrimLeft(s, c)
  {
    if s == [] || s[0] != c {
      n := 0;
    } else {
      var m := LeftCut(s[1..], c);
      n := m + 1;
      assert s == [c] + s[1..] && Repeat(c, n) == [c] + Repeat(c, m);
    }
  }

  lemma {:induction false} RightCut(s: string, c: char) returns (n: nat)
    ensures s == TrimRight(s, c) + Repeat(c, n)
  {
    if s == [] || s[|s| - 1] != c {
      n := 0;
    } else {
      var m := RightCut(s[..|s| - 1], c);
      n := m + 1;
      assert s == s[..|s| - 1] + [c] && Repeat(c, n) == Repeat(c, m) + [c];
    }
  }

  /** Nothing but separators is cut, and only at the two ends. */
  lemma TrimCuts(s: string, c: char) returns (m: nat, n: nat)
    ensures s == Repeat(c, m) + Trim(s, c) + Repeat(c, n)
  {
    m := LeftCut(s, c);
    n := RightCut(TrimLeft(s, c), c);
  }

  // ---------- splitting and joining ----------

  /** What one more leading character does to the parts of the rest. */
  function Prepend(x: char, c: char, rest: seq<string>): seq<string>
    requires |rest| >= 1
  {
    if x == c then [""] + rest else [[x] + rest[0]] + rest[1..]
  }

  /** `strings.Split(s, sep)` for a one-character separator: one more part than there are separators. */
  function Split(s: string, c: char): (parts: seq<string>)
    ensures |parts| >= 1
  {
    if s == [] then [""]
    else Prepend(s[0], c, Split(s[1..], c))
  }

  /** `strings.Join(parts, sep)`. */
  function Join(parts: seq<string>, c: char): string
  {
    if parts == [] then "" else if |parts| == 1 then parts[0] else parts[0] + [c] + Join(parts[1..], c)
  }

  ghost predicate Free(parts: seq<string>, c: char)
  {
    forall i :: 0 <= i < |parts| ==> c !in parts[i]
  }

  lemma JoinPrepend(x: char, c: char, rest: seq<string>)
    requires |rest| >= 1
    ensures Join(Prepend(x, c, rest), c) == [x] + Join(rest, c)
  {
    if x == c {
      assert ([""] + rest)[1..] == rest;
    } else {
      assert ([[x] + rest[0]] + rest[1..])[1..] == rest[1..];
    }
  }

  /** Joining undoes splitting, and no part keeps a separator. */
  lemma {:induction false} JoinSplit(s: string, c: char)
    ensures Join(Split(s, c), c) == s
    ensures Free(Split(s, c), c)
  {
    if s == [] {
    } else {
      JoinSplit(s[1..], c);
      JoinPrepend(s[0], c, Split(s[1..], c));
      assert s == [s[0]] + s[1..];
    }
  }

  lemma {:induction false} SplitFree(s: string, c: char)
    requires c !in s
    ensures Split(s, c) == [s]
  {
    if s == [] {
    } else {
      SplitFree(s[1..], c);
      assert s == [s[0]] + s[1..];
    }
  }

  /** Splitting distributes over a separator. */
  lemma {:induction false} SplitSum(a: string, b: string, c: char)
    ensures Split(a + [c] + b, c) == Split(a, c) + Split(b, c)
  {
    var s := a + [c] + b;
    if a == [] {
      assert s[1..] == b && s[0] == c;
    } else {
      var tail := a[1..] + [c] + b;
      assert s[1..] == tail && s[0] == a[0];
      SplitSum(a[1..], b, c);
      PrependSum(a[0], c, Split(a[1..], c), Split(b, c));
    }
  }

  lemma PrependSum(x: char, c: char, a: seq<string>, b: seq<string>)
    requires |a| >= 1
    ensures Prepend(x, c, a + b) == Prepend(x, c, a) + b
  {
  }

  /** Splitting undoes joining when no part holds the separator. */
  lemma {:induction false} SplitJoin(parts: seq<string>, c: char)
    requires parts != [] && Free(parts, c)
    ensures Split(Join(parts, c), c) == parts
  {
    if |parts| == 1 {
      SplitFree(parts[0], c);
      assert parts == [parts[0]];
    } else {
      SplitJoin(parts[1..], c);
      SplitSum(parts[0], Join(parts[1..], c), c);
      SplitFree(parts[0], c);
      assert parts == [parts[0]] + parts[1..];
    }
  }

  lemma {:induction false} JoinSum(a: seq<string>, b: seq<string>, c: char)
    requires a != [] && b != []
    ensures Join(a + b, c) == Join(a, c) + [c] + Join(b, c)
  {
    if |a| == 1 {
      assert (a + b)[1..] == b && a == [a[0]];
    } else {
      JoinSum(a[1..], b, c);
      assert (a + b)[1..] == a[1..] + b;
    }
  }
}
