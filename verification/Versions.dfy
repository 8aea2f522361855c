/** Newest-first version lists, and what "the `keep` most recent versions" means without any list. */
module Versions {
  import opened Text

  /** Newest first, no version twice. */
  ghost predicate Descending(vs: seq<string>)
  {
    forall i, j :: 0 <= i < j < |vs| ==> Before(vs[j], vs[i])
  }

  ghost predicate Distinct(vs: seq<string>)
  {
    forall i, j :: 0 <= i < j < |vs| ==> vs[i] != vs[j]
  }

  ghost function Elements(vs: seq<string>): set<string>
  {
    set v | v in vs
  }

  /** The versions of `all` with fewer than `keep` versions above them. */
  ghost function Kept(all: set<string>, keep: nat): set<string>
  {
    set v | v in all && |Newer(all, v)| < keep
  }

  ghost function Newer(all: set<string>, v: string): set<string>
  {
    set u | u in all && Before(v, u)
  }

  // ---------- sorting ----------

  function Insert(v: string, vs: seq<string>): (r: seq<string>)
    ensures multiset(r) == multiset{v} + multiset(vs)
  {
    if vs == [] || Before(vs[0], v) then [v] + vs
    else
      assert vs == [vs[0]] + vs[1..];
      [vs[0]] + Insert(v, vs[1..])
  }

  /** `sort.Slice` with the source's "newest first" comparison. */
  function SortDescending(vs: seq<string>): (r: seq<string>)
    ensures multiset(r) == multiset(vs)
  {
    if vs == [] then []
    else
      assert vs == [vs[0]] + vs[1..];
      Insert(vs[0], SortDescending(vs[1..]))
  }

  lemma InMultiset(a: seq<string>, b: seq<string>)
    requires multiset(a) == multiset(b)
    ensures |a| == |b| && Elements(a) == Elements(b)
  {
    assert |multiset(a)| == |a| && |multiset(b)| == |b|;
    forall v ensures v in a <==> v in b {
      assert v in a <==> v in multiset(a);
      assert v in b <==> v in multiset(b);
    }
  }

  lemma {:induction false} InsertDescending(v: string, vs: seq<string>)
    requires Descending(vs) && v !in vs
    ensures Descending(Insert(v, vs))
  {
    if vs != [] && !Before(vs[0], v) {
      var rest := Insert(v, vs[1..]);
      InsertDescending(v, vs[1..]);
      BeforeTotal(vs[0], v);
      InMultiset(rest, [v] + vs[1..]);
      forall u | u in rest ensures Before(u, vs[0]) {
        assert u in Elements([v] + vs[1..]);
      }
    } else if vs != [] {
      forall u | u in vs ensures Before(u, v) {
        if u != vs[0] {
          BeforeTransitive(u, vs[0], v);
        }
      }
    }
  }

  lemma {:induction false} SortDescends(vs: seq<string>)
    requires Distinct(vs)
    ensures Descending(SortDescending(vs))
    ensures Elements(SortDescending(vs)) == Elements(vs) && |SortDescending(vs)| == |vs|
  {
    InMultiset(SortDescending(vs), vs);
    if vs == [] {
    } else {
      var rest := SortDescending(vs[1..]);
      SortDescends(vs[1..]);
      assert vs[0] !in Elements(rest);
      InsertDescending(vs[0], rest);
    }
  }

  // ---------- a newest-first list is determined by its elements ----------

  lemma DescendingDistinct(vs: seq<string>)
    requires Descending(vs)
    ensures Distinct(vs)
  {
    forall i, j | 0 <= i < j < |vs| ensures vs[i] != vs[j] {
      BeforeIrreflexive(vs[i]);
    }
  }

  lemma {:induction false} ElementCount(vs: seq<string>)
    requires Distinct(vs)
    ensures |Elements(vs)| == |vs|
  {
    if vs == [] {
    } else {
      ElementCount(vs[1..]);
      assert Elements(vs) == {vs[0]} + Elements(vs[1..]);
    }
  }

  /** Above the `i`-th entry of a newest-first list are exactly the entries before it. */
  lemma NewerAt(vs: seq<string>, i: nat)
    requires Descending(vs) && i < |vs|
    ensures Newer(Elements(vs), vs[i]) == Elements(vs[..i])
    ensures |Newer(Elements(vs), vs[i])| == i
  {
    forall j | 0 <= j < |vs| ensures Before(vs[i], vs[j]) <==> j < i {
      BeforeIrreflexive(vs[i]);
      if i < j {
        BeforeAsymmetric(vs[i], vs[j]);
      }
    }
    DescendingDistinct(vs);
    ElementCount(vs[..i]);
  }

  /** Two newest-first lists of the same versions are the same list. */
  lemma DescendingUnique(a: seq<string>, b: seq<string>)
    requires Descending(a) && Descending(b) && Elements(a) == Elements(b)
    ensures a == b
  {
    DescendingDistinct(a);
    DescendingDistinct(b);
    ElementCount(a);
    ElementCount(b);
    forall i | 0 <= i < |a| ensures a[i] == b[i] {
      assert a[i] in Elements(b);
      var j :| 0 <= j < |b| && b[j] == a[i];
      NewerAt(a, i);
      NewerAt(b, j);
    }
  }

  // ---------- the kept versions ----------

  /** In a newest-first list, the kept versions are the first `keep` entries. */
  lemma KeptIsPrefix(vs: seq<string>, keep: nat)
    requires Descending(vs)
    ensures Kept(Elements(vs), keep) == Elements(if keep < |vs| then vs[..keep] else vs)
  {
    forall i | 0 <= i < |vs| ensures |Newer(Elements(vs), vs[i])| == i {
      NewerAt(vs, i);
    }
  }

  /** Every finite set of versions has a newest-first list. */
  lemma {:induction false} Listing(all: set<string>) returns (vs: seq<string>)
    ensures Descending(vs) && Elements(vs) == all
  {
    if all == {} {
      vs := [];
    } else {
      var v :| v in all;
      var rest := Listing(all - {v});
      vs := Insert(v, rest);
      InMultiset(vs, [v] + rest);
      assert v !in Elements(rest);
      InsertDescending(v, rest);
      assert Elements([v] + rest) == {v} + Elements(rest);
    }
  }

  /** Retention keeps `keep` versions, or all of them if there are fewer; each kept version is above each
      removed one; and retaining the retained changes nothing. */
  lemma KeptProperties(all: set<string>, keep: nat)
    ensures |Kept(all, keep)| == if keep < |all| then keep else |all|
    ensures forall k, r :: k in Kept(all, keep) && r in all - Kept(all, keep) ==> Before(r, k)
    ensures Kept(Kept(all, keep), keep) == Kept(all, keep)
  {
    var vs := Listing(all);
    DescendingDistinct(vs);
    ElementCount(vs);
    KeptIsPrefix(vs, keep);
    var top := if keep < |vs| then vs[..keep] else vs;
    ElementCount(top);
    KeptIsPrefix(top, keep);
    forall k, r | k in Kept(all, keep) && r in all - Kept(all, keep) ensures Before(r, k) {
      assert k in Elements(top) && r in Elements(vs) && r !in top;
      var i :| 0 <= i < |top| && top[i] == k;
      var j :| 0 <= j < |vs| && vs[j] == r;
    }
  }

  /** The newest version survives every retention that keeps something. */
  lemma NewestKept(all: set<string>, keep: nat, v: string)
    requires keep >= 1 && v in all && forall u :: u in all && u != v ==> Before(u, v)
    ensures v in Kept(all, keep)
  {
    forall u | u in Newer(all, v) ensures false {
      BeforeIrreflexive(v);
      BeforeAsymmetric(u, v);
    }
    assert Newer(all, v) == {};
  }
}
