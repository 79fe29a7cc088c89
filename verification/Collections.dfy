/** What the other modules share. */
module Collections {

  datatype Option<T> = None | Some(value: T)

  function Range<T>(s: seq<T>): set<T> {
    set x | x in s
  }

  ghost predicate NoDup<T>(s: seq<T>) {
    forall i, j :: 0 <= i < j < |s| ==> s[i] != s[j]
  }

  lemma RangeSize<T>(s: seq<T>)
    requires NoDup(s)
    ensures |Range(s)| == |s|
  {
    if s != [] {
      var front, last := s[..|s| - 1], s[|s| - 1];
      RangeSize(front);
      assert Range(s) == Range(front) + {last};
    }
  }

  lemma RangeAppend<T>(s: seq<T>, x: T)
    ensures Range(s + [x]) == Range(s) + {x}
  {
  }

  lemma NoDupConcat<T>(s: seq<T>, r: seq<T>)
    requires NoDup(s) && NoDup(r) && forall x :: x in r ==> x !in s
    ensures NoDup(s + r)
  {
    forall i, j | 0 <= i < j < |s + r| ensures (s + r)[i] != (s + r)[j] {
      assert j >= |s| ==> (s + r)[j] == r[j - |s|] && r[j - |s|] in r;
      assert i < |s| ==> s[i] in s;
    }
  }

  lemma SubsetSize<T>(a: set<T>, b: set<T>)
    requires a <= b
    ensures |a| <= |b|
    ensures |a| == |b| ==> a == b
  {
    assert b == a + (b - a);
  }

  /** The elements of a finite set, in some order. */
  lemma ListSet<T>(a: set<T>) returns (q: seq<T>)
    ensures NoDup(q) && Range(q) == a
  {
    if a == {} {
      q := [];
    } else {
      var x :| x in a;
      var r := ListSet(a - {x});
      RangeAppend(r, x);
      assert x !in Range(r);
      q := r + [x];
    }
  }
}
