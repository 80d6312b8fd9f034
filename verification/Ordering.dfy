/**
 Strict total orders, the ascending listing of a finite set, and the order of strings.
 The services list their maps in key order (BTreeMap), sort rows (ORDER BY) and sort nonces by
 time; each of those is the one ascending listing of a finite set under some strict total order.
 */
module Ordering {

  ghost predicate StrictTotal<T(!new)>(lt: (T, T) -> bool) {
    && (forall a :: !lt(a, a))
    && (forall a, b :: a != b ==> lt(a, b) || lt(b, a))
    && (forall a, b, c :: lt(a, b) && lt(b, c) ==> lt(a, c))
  }

  ghost predicate Ascending<T>(lt: (T, T) -> bool, s: seq<T>) {
    forall i, j :: 0 <= i < j < |s| ==> lt(s[i], s[j])
  }

  ghost predicate IsLeast<T>(lt: (T, T) -> bool, least: T, ks: set<T>) {
    least in ks && forall k :: k in ks && k != least ==> lt(least, k)
  }

  lemma {:induction false} LeastExists<T(!new)>(lt: (T, T) -> bool, ks: set<T>) returns (least: T)
    requires StrictTotal(lt)
    requires ks != {}
    ensures IsLeast(lt, least, ks)
    decreases |ks|
  {
    var first :| first in ks;
    var others := ks - {first};
    least := first;
    if others != {} {
      var other := LeastExists(lt, others);
      if lt(other, first) {
        least := other;
      }
      forall k | k in ks && k != least
        ensures lt(least, k)
      {
        assert k == first || k in others;
        assert k in others && k != other ==> lt(other, k);
        assert lt(first, other) && lt(other, k) ==> lt(first, k);
      }
    }
  }

  /** The members of `ks`, each once, in ascending order. */
  ghost predicate IsListing<T(!new)>(lt: (T, T) -> bool, ks: set<T>, s: seq<T>) {
    Ascending(lt, s) && |s| == |ks| && forall x :: x in s <==> x in ks
  }

  lemma {:induction false} ListingExists<T(!new)>(lt: (T, T) -> bool, ks: set<T>)
    requires StrictTotal(lt)
    ensures exists s :: IsListing(lt, ks, s)
    decreases |ks|
  {
    if ks == {} {
      assert IsListing(lt, ks, []);
    } else {
      var least := LeastExists(lt, ks);
      ListingExists(lt, ks - {least});
      var rest :| IsListing(lt, ks - {least}, rest);
      assert forall j :: 0 <= j < |rest| ==> rest[j] in rest && lt(least, rest[j]);
      assert IsListing(lt, ks, [least] + rest);
    }
  }

  /** The one listing of a set under a strict total order. */
  ghost function Listing<T(!new)>(lt: (T, T) -> bool, ks: set<T>): seq<T> {
    if s :| IsListing(lt, ks, s) then s else []
  }

  lemma ListingIs<T(!new)>(lt: (T, T) -> bool, ks: set<T>)
    requires StrictTotal(lt)
    ensures IsListing(lt, ks, Listing(lt, ks))
  {
    ListingExists(lt, ks);
  }

  /** There is only one ascending sequence with given members. */
  lemma {:induction false} AscendingUnique<T(!new)>(lt: (T, T) -> bool, a: seq<T>, b: seq<T>)
    requires StrictTotal(lt)
    requires Ascending(lt, a) && Ascending(lt, b)
    requires forall x :: x in a <==> x in b
    ensures a == b
    decreases |a|
  {
    if a == [] {
      assert forall i :: 0 <= i < |b| ==> b[i] in b;
    } else {
      assert a[0] in b && b[0] in a;
      var i, j :| 0 <= i < |b| && b[i] == a[0] && 0 <= j < |a| && a[j] == b[0];
      assert i == 0;
      TailMembers(lt, a);
      TailMembers(lt, b);
      AscendingUnique(lt, a[1..], b[1..]);
      assert a == [a[0]] + a[1..] && b == [b[0]] + b[1..];
    }
  }

  lemma TailMembers<T(!new)>(lt: (T, T) -> bool, a: seq<T>)
    requires StrictTotal(lt) && Ascending(lt, a) && a != []
    ensures forall x :: x in a[1..] <==> x in a && x != a[0]
  {
    forall x | x in a && x != a[0]
      ensures x in a[1..]
    {
      var i :| 0 <= i < |a| && a[i] == x;
      assert a[1..][i - 1] == x;
    }
  }

  /** Two orders that agree list every set alike. */
  lemma SameOrderSameListing<T(!new)>(lt: (T, T) -> bool, lt': (T, T) -> bool, ks: set<T>)
    requires StrictTotal(lt) && StrictTotal(lt')
    requires forall a, b :: lt(a, b) == lt'(a, b)
    ensures Listing(lt, ks) == Listing(lt', ks)
  {
    ListingIs(lt, ks);
    ListingIs(lt', ks);
    AscendingUnique(lt, Listing(lt, ks), Listing(lt', ks));
  }

  /** Selection sort of a set, standing for the sorts of the Rust and SQLite libraries. */
  method Sort<T(!new,==)>(lt: (T, T) -> bool, ks: set<T>) returns (s: seq<T>)
    requires StrictTotal(lt)
    ensures s == Listing(lt, ks)
  {
    s := [];
    var rest := ks;
    while rest != {}
      invariant rest <= ks
      invariant forall x :: x in s <==> x in ks && x !in rest
      invariant Ascending(lt, s)
      invariant forall x, y :: x in s && y in rest ==> lt(x, y)
      decreases |rest|
    {
      var least := FindLeast(lt, rest);
      s := s + [least];
      rest := rest - {least};
    }
    ListingIs(lt, ks);
    AscendingUnique(lt, s, Listing(lt, ks));
  }

  method FindLeast<T(!new,==)>(lt: (T, T) -> bool, ks: set<T>) returns (least: T)
    requires StrictTotal(lt)
    requires ks != {}
    ensures IsLeast(lt, least, ks)
  {
    least :| least in ks;
    var seen := {least};
    while seen != ks
      invariant seen <= ks
      invariant IsLeast(lt, least, seen)
      decreases |ks - seen|
    {
      var k :| k in ks - seen;
      if lt(k, least) {
        forall other | other in seen ensures lt(k, other) {
          assert other != least ==> lt(least, other);
        }
        least := k;
      }
      seen := seen + {k};
    }
  }

  // ----- lexicographic order -----

  predicate LexLess(a: seq<int>, b: seq<int>) {
    if b == [] then false
    else if a == [] then true
    else if a[0] == b[0] then LexLess(a[1..], b[1..])
    else a[0] < b[0]
  }

  lemma {:induction false} LexTotal(a: seq<int>, b: seq<int>)
    ensures !LexLess(a, a)
    ensures a != b ==> LexLess(a, b) || LexLess(b, a)
  {
    if a != [] {
      LexTotal(a[1..], if b == [] then [] else b[1..]);
      if b != [] && a[0] == b[0] && a[1..] == b[1..] {
        assert a == [a[0]] + a[1..] == b;
      }
    }
  }

  lemma {:induction false} LexTransitive(a: seq<int>, b: seq<int>, c: seq<int>)
    requires LexLess(a, b) && LexLess(b, c)
    ensures LexLess(a, c)
  {
    if a != [] && a[0] == b[0] == c[0] {
      LexTransitive(a[1..], b[1..], c[1..]);
    }
  }

  function CodePoints(s: string): (r: seq<int>)
    ensures |r| == |s|
  {
    seq(|s|, i requires 0 <= i < |s| => s[i] as int)
  }

  lemma CodePointsInjective(s: string, t: string)
    requires CodePoints(s) == CodePoints(t)
    ensures s == t
  {
    forall i | 0 <= i < |s|
      ensures s[i] == t[i]
    {
      assert CodePoints(s)[i] == CodePoints(t)[i];
    }
  }

  /** The order Python's `sort_keys` uses on `str`. */
  predicate StringLess(s: string, t: string) {
    LexLess(CodePoints(s), CodePoints(t))
  }

  lemma StringLessTotal()
    ensures StrictTotal(StringLess)
  {
    forall a: string ensures !StringLess(a, a) { LexTotal(CodePoints(a), []); }
    forall a: string, b: string | a != b ensures StringLess(a, b) || StringLess(b, a) {
      if CodePoints(a) == CodePoints(b) { CodePointsInjective(a, b); }
      LexTotal(CodePoints(a), CodePoints(b));
    }
    forall a: string, b: string, c: string | StringLess(a, b) && StringLess(b, c) ensures StringLess(a, c) {
      LexTransitive(CodePoints(a), CodePoints(b), CodePoints(c));
    }
  }
}
