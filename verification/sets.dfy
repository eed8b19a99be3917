/**
 Finite sets: an element to go on with, and comparing by size.
 */
module Sets {

  // The next element of a loop over a Go or Python map, which has no fixed order.
  method AnyOf<T>(s: set<T>) returns (x: T)
    requires s != {}
    ensures x in s
  {
    x :| x in s;
  }

  lemma {:induction false} SubsetBySize<T>(a: set<T>, b: set<T>)
    requires a <= b
    ensures |a| <= |b| && (|a| == |b| <==> a == b)
  {
    if a != {} {
      var x :| x in a;
      SubsetBySize(a - {x}, b - {x});
      assert a == a - {x} + {x} && b == b - {x} + {x};
    } else if b != {} {
      assert |b| > 0;
    }
  }
}
