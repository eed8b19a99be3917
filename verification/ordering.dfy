/**
 Sorting a finite set by a strict total order: what sort.Slice gives the retention code.
 */
module Ordering {
  import opened Sets

  ghost predicate StrictOrder<T(!new)>(before: (T, T) -> bool) {
    && (forall x :: !before(x, x))
    && (forall x, y, z :: before(x, y) && before(y, z) ==> before(x, z))
    && (forall x, y :: x == y || before(x, y) || before(y, x))
  }

  ghost predicate Sorted<T(!new)>(s: seq<T>, before: (T, T) -> bool) {
    forall i, j | 0 <= i < j < |s| :: before(s[i], s[j])
  }

  // The elements of `items`, each once, in order.
  ghost predicate Lists<T(!new)>(s: seq<T>, items: set<T>, before: (T, T) -> bool) {
    Sorted(s, before) && forall x :: x in s <==> x in items
  }

  method Sort<T(!new, ==)>(items: set<T>, before: (T, T) -> bool) returns (s: seq<T>)
    requires StrictOrder(before)
    ensures Lists(s, items, before)
  {
    s := [];
    var rest := items;
    while rest != {}
      invariant rest <= items && (forall x :: x in s <==> x in items && x !in rest)
      invariant Sorted(s, before) && forall x <- s, y <- rest :: before(x, y)
      decreases |rest|
    {
      var least := First(rest, before);
      s := s + [least];
      rest := rest - {least};
    }
  }

  method First<T(!new, ==)>(items: set<T>, before: (T, T) -> bool) returns (least: T)
    requires StrictOrder(before) && items != {}
    ensures least in items && forall x <- items :: x == least || before(least, x)
  {
    least :| least in items;
    var rest := items - {least};
    while rest != {}
      invariant least in items && rest <= items
      invariant forall x <- items :: x in rest || x == least || before(least, x)
      decreases |rest|
    {
      var x :| x in rest;
      if before(x, least) {
        least := x;
      }
      rest := rest - {x};
    }
  }

  // A set has only one listing.
  lemma {:induction false} ListingIsUnique<T(!new)>(a: seq<T>, b: seq<T>, items: set<T>, before: (T, T) -> bool)
    requires StrictOrder(before) && Lists(a, items, before) && Lists(b, items, before)
    ensures a == b
    decreases |a|
  {
    assert forall x :: x in a <==> x in b;
    assert (b != [] ==> b[0] in b) && (a != [] ==> a[0] in a);
    if a != [] {
      assert a[0] == b[0];
      TailLists(a, items, before);
      TailLists(b, items, before);
      ListingIsUnique(a[1..], b[1..], items - {a[0]}, before);
      assert a == [a[0]] + a[1..] && b == [b[0]] + b[1..];
    }
  }

  lemma TailLists<T(!new)>(s: seq<T>, items: set<T>, before: (T, T) -> bool)
    requires StrictOrder(before) && Lists(s, items, before) && s != []
    ensures Lists(s[1..], items - {s[0]}, before)
  {
    forall x ensures x in s[1..] <==> x in items - {s[0]} {
      if x in s && x != s[0] {
        var i :| 0 <= i < |s| && s[i] == x;
        assert s[1..][i - 1] == x;
      }
      if x in s[1..] {
        assert before(s[0], x);
      }
    }
  }

  ghost function Ahead<T(!new)>(items: set<T>, before: (T, T) -> bool, y: T): set<T> {
    set x | x in items && before(x, y)
  }

  lemma AheadNext<T(!new)>(s: seq<T>, items: set<T>, before: (T, T) -> bool, i: nat)
    requires StrictOrder(before) && Lists(s, items, before) && 0 < i < |s|
    ensures Ahead(items, before, s[i]) == Ahead(items, before, s[i - 1]) + {s[i - 1]}
    ensures s[i - 1] !in Ahead(items, before, s[i - 1])
  {
    assert s[i - 1] in s && before(s[i - 1], s[i]);
    forall x | x in items && before(x, s[i]) && x != s[i - 1] ensures before(x, s[i - 1]) {
      var j :| 0 <= j < |s| && s[j] == x;
      assert !before(s[i], s[j]);
    }
  }

  // The position of an element is the number of elements before it.
  lemma {:induction false} RankIsIndex<T(!new)>(s: seq<T>, items: set<T>, before: (T, T) -> bool, i: nat)
    requires StrictOrder(before) && Lists(s, items, before) && i < |s|
    ensures |Ahead(items, before, s[i])| == i
    decreases i
  {
    if i == 0 {
      assert forall x <- s :: x == s[0] || before(s[0], x);
      assert Ahead(items, before, s[0]) == {};
    } else {
      RankIsIndex(s, items, before, i - 1);
      AheadNext(s, items, before, i);
    }
  }

  // A low rank is before a higher one.
  lemma LowRankIsBefore<T(!new)>(items: set<T>, before: (T, T) -> bool, n: nat, x: T, y: T)
    requires StrictOrder(before) && x in items && y in items
    requires |Ahead(items, before, x)| < n <= |Ahead(items, before, y)|
    ensures before(x, y)
  {
    if before(y, x) {
      RankGrows(items, before, y, x);
    }
  }

  // Every finite set has a last element.
  lemma {:induction false} LastExists<T(!new)>(items: set<T>, before: (T, T) -> bool) returns (last: T)
    requires StrictOrder(before) && items != {}
    ensures last in items && forall x <- items :: x == last || before(x, last)
  {
    var one: T :| one in items;
    var rest := items - {one};
    last := one;
    if rest != {} {
      var other := LastExists(rest, before);
      last := if before(one, other) then other else one;
      forall x | x in items && x != last ensures before(x, last) {
        assert x == one || x in rest;
      }
    } else {
      forall x <- items ensures x == one {
        assert x !in rest;
      }
    }
  }

  // As many elements have fewer than `n` before them as there are, up to `n`.
  lemma {:induction false} LowRankCount<T(!new)>(items: set<T>, before: (T, T) -> bool, n: nat)
    requires StrictOrder(before)
    ensures |set x | x in items && |Ahead(items, before, x)| < n| == if |items| <= n then |items| else n
    decreases |items|
  {
    var low := set x | x in items && |Ahead(items, before, x)| < n;
    if items == {} {
      assert low == {};
    } else {
      var last := LastExists(items, before);
      var rest := items - {last};
      LowRankCount(rest, before, n);
      assert Ahead(items, before, last) == rest;
      forall x | x in rest ensures Ahead(items, before, x) == Ahead(rest, before, x) {
        assert !before(last, x);
      }
      var lower := set x | x in rest && |Ahead(rest, before, x)| < n;
      assert low == lower + if |rest| < n then {last} else {};
      assert last !in lower;
    }
  }

  lemma RankGrows<T(!new)>(items: set<T>, before: (T, T) -> bool, x: T, y: T)
    requires StrictOrder(before) && x in items && before(x, y)
    ensures |Ahead(items, before, x)| < |Ahead(items, before, y)|
  {
    var a, b := Ahead(items, before, x), Ahead(items, before, y);
    assert a <= b && x in b && x !in a;
    SubsetBySize(a, b - {x});
  }

  // ----- Strings, byte by byte ----------------------------------------------------------------

  predicate Less(a: string, b: string) {
    b != "" && (a == "" || a[0] < b[0] || (a[0] == b[0] && Less(a[1..], b[1..])))
  }

  lemma {:induction false} LessTransitive(a: string, b: string, c: string)
    requires Less(a, b) && Less(b, c)
    ensures Less(a, c)
  {
    if a != "" && a[0] == b[0] == c[0] {
      LessTransitive(a[1..], b[1..], c[1..]);
    }
  }

  lemma {:induction false} LessTotal(a: string, b: string)
    ensures !Less(a, a) && (a == b || Less(a, b) || Less(b, a))
  {
    if a != "" {
      LessTotal(a[1..], if b == "" then "" else b[1..]);
      if b != "" && a[0] == b[0] {
        assert a == [a[0]] + a[1..] && b == [b[0]] + b[1..];
      }
    }
  }

  // The first difference decides, and a text comes after its own beginnings.
  lemma {:induction false} LessIsLexicographic(a: string, b: string)
    ensures Less(a, b) <==> exists i | 0 <= i <= |a| && i < |b| :: a[..i] == b[..i] && (i == |a| || a[i] < b[i])
  {
    if b == "" || a == "" {
      assert b != "" ==> a[..0] == b[..0];
    } else if a[0] == b[0] {
      LessIsLexicographic(a[1..], b[1..]);
      if Less(a, b) {
        var i :| 0 <= i <= |a[1..]| && i < |b[1..]| && a[1..][..i] == b[1..][..i] && (i == |a[1..]| || a[1..][i] < b[1..][i]);
        assert a[..i + 1] == [a[0]] + a[1..][..i] && b[..i + 1] == [b[0]] + b[1..][..i];
        assert i + 1 == |a| || a[i + 1] < b[i + 1];
      }
      if i :| 0 <= i <= |a| && i < |b| && a[..i] == b[..i] && (i == |a| || a[i] < b[i]) {
        assert i > 0;
        assert a[1..][..i - 1] == a[..i][1..] && b[1..][..i - 1] == b[..i][1..];
        assert i - 1 == |a[1..]| || a[1..][i - 1] < b[1..][i - 1];
      }
    } else {
      assert a[..0] == b[..0];
      if i :| 0 <= i <= |a| && i < |b| && a[..i] == b[..i] && (i == |a| || a[i] < b[i]) {
        assert i > 0 ==> a[..i][0] == b[..i][0];
      }
    }
  }
}
