/** Small vocabulary shared by the other modules. */
module Basics {
  datatype Option<+T> = None | Some(value: T)

  /** Removing a member makes a finite set one smaller. */
  lemma CardRemove<T>(a: set<T>, b: set<T>, x: T)
    requires x in a && b == a - {x}
    ensures |b| == |a| - 1
  {
  }

  lemma CardSubset<T>(a: set<T>, b: set<T>)
    requires a <= b
    ensures |a| <= |b|
  {
    if a != {} {
      var x :| x in a;
      CardSubset(a - {x}, b - {x});
    }
  }

  /** Two sets that agree away from `x` differ in size by what `x` contributes. */
  lemma CardOneApart<T>(a: set<T>, b: set<T>, x: T)
    requires a - {x} == b - {x}
    ensures |b| == |a| + (if x in b then 1 else 0) - (if x in a then 1 else 0)
  {
    var rest := a - {x};
    if x in a {
      assert a == rest + {x};
    } else {
      assert a == rest;
    }
    if x in b {
      assert b == rest + {x};
    } else {
      assert b == rest;
    }
  }
}
