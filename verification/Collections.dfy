/** Sizes of sets and lists. */
module Collections {
  predicate Distinct<T(==)>(s: seq<T>) {
    forall i, j :: 0 <= i < j < |s| ==> s[i] != s[j]
  }

  /** A list and the set of its members have one size exactly when nothing repeats. */
  lemma {:induction false} SizeMeansDistinct<T>(s: seq<T>)
    ensures |set x | x in s| <= |s|
    ensures |set x | x in s| == |s| <==> Distinct(s)
  {
    if s != [] {
      var last := |s| - 1;
      var init := s[..last];
      SizeMeansDistinct(init);
      assert s == init + [s[last]];
      assert (set x | x in s) == (set x | x in init) + {s[last]};
      if s[last] in init {
        var i :| 0 <= i < last && init[i] == s[last];
        assert s[i] == s[last];
        assert (set x | x in s) == (set x | x in init);
      } else {
        assert Distinct(s) <==> Distinct(init) by {
          assert forall i :: 0 <= i < last ==> init[i] == s[i] && init[i] in init;
        }
      }
    }
  }

  /** The members of a list, as a set. */
  lemma MemberSet<T>(s: seq<T>) returns (all: set<T>)
    ensures forall x :: x in all <==> x in s
    ensures |all| == |s| <==> Distinct(s)
  {
    all := set x | x in s;
    SizeMeansDistinct(s);
  }

  lemma {:induction false} SubsetSize<T>(a: set<T>, b: set<T>)
    requires a <= b
    ensures |a| <= |b|
    ensures |a| == |b| ==> a == b
    decreases a
  {
    if a != {} {
      var x :| x in a;
      SubsetSize(a - {x}, b - {x});
      assert a == (a - {x}) + {x} && b == (b - {x}) + {x};
    }
  }

  lemma SizeOne<T>(s: set<T>, x: T, y: T)
    requires |s| <= 1 && x in s && y in s
    ensures x == y
  {
    assert |s - {x}| == |s| - 1;
  }
}
