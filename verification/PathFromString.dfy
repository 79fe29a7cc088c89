/** Holder/PathFromString: a path string cut up in place. Components are places in the
    buffer where a C string begins. */
module PathFromString {

  const NUL: char := '\0'

  /** The C string that begins at off. */
  function CString(buffer: seq<char>, off: nat): string
    decreases |buffer| - off
  {
    if off >= |buffer| || buffer[off] == NUL then [] else [buffer[off]] + CString(buffer, off + 1)
  }

  lemma {:induction false} CStringIs(buffer: seq<char>, off: nat, c: string)
    requires off + |c| < |buffer| && buffer[off..off + |c|] == c && buffer[off + |c|] == NUL && NUL !in c
    ensures CString(buffer, off) == c
    decreases |c|
  {
    if c != [] {
      assert buffer[off] == buffer[off..off + |c|][0] == c[0];
      assert buffer[off + 1..off + 1 + |c[1..]|] == buffer[off..off + |c|][1..] == c[1..];
      CStringIs(buffer, off + 1, c[1..]);
    }
  }

  // ----- what cutting up means -----

  function Split(path: string, sep: char): (cs: seq<string>)
    ensures cs != []
  {
    if path == [] then [[]]
    else
      var last := |path| - 1;
      var cs := Split(path[..last], sep);
      if path[last] == sep then cs + [[]] else cs[..|cs| - 1] + [cs[|cs| - 1] + [path[last]]]
  }

  function Join(cs: seq<string>, sep: char): string
    requires cs != []
  {
    if |cs| == 1 then cs[0] else Join(cs[..|cs| - 1], sep) + [sep] + cs[|cs| - 1]
  }

  predicate Clean(cs: seq<string>, sep: char) { forall c <- cs :: sep !in c }

  lemma {:induction false} SplitThenJoin(path: string, sep: char)
    ensures Join(Split(path, sep), sep) == path
    decreases |path|
  {
    if path != [] {
      var last := |path| - 1;
      SplitThenJoin(path[..last], sep);
      var cs := Split(path[..last], sep);
      assert path == path[..last] + [path[last]];
      if path[last] == sep {
        assert (cs + [[]])[..|cs|] == cs;
      } else {
        JoinExtend(cs, path[last], sep);
      }
    }
  }

  /** No component holds the separator, nor a character the path does not have. */
  lemma {:induction false} SplitIsClean(path: string, sep: char, x: char)
    requires x == sep || x !in path
    ensures Clean(Split(path, sep), x)
    decreases |path|
  {
    if path != [] {
      var last := |path| - 1;
      SplitIsClean(path[..last], sep, x);
      var cs := Split(path[..last], sep);
      assert path[last] in path && cs[|cs| - 1] in cs;
    }
  }

  lemma {:induction false} SplitLength(path: string, sep: char)
    ensures |Split(path, sep)| <= |path| + 1
    decreases |path|
  {
    if path != [] { SplitLength(path[..|path| - 1], sep); }
  }

  lemma JoinExtend(cs: seq<string>, c: char, sep: char)
    requires cs != []
    ensures Join(cs[..|cs| - 1] + [cs[|cs| - 1] + [c]], sep) == Join(cs, sep) + [c]
  {
    var front := cs[..|cs| - 1];
    assert (front + [cs[|cs| - 1] + [c]])[..|front|] == front;
  }

  lemma {:induction false} JoinThenSplit(cs: seq<string>, sep: char)
    requires cs != [] && Clean(cs, sep)
    ensures Split(Join(cs, sep), sep) == cs
    decreases |cs|
  {
    var last := cs[|cs| - 1];
    if |cs| == 1 {
      SplitAppend([], last, sep);
      assert [] + last == last && cs == [last];
    } else {
      var front := cs[..|cs| - 1];
      JoinThenSplit(front, sep);
      var begun := Join(front, sep) + [sep];
      assert begun != [] && begun[|begun| - 1] == sep && begun[..|begun| - 1] == Join(front, sep);
      SplitAppend(begun, last, sep);
      assert Split(begun, sep) == front + [[]];
      assert [] + last == last && cs == front + [last];
      assert (front + [[]])[..|front|] == front;
    }
  }

  /** Characters that are no separator go to the last component. */
  lemma {:induction false} SplitAppend(path: string, c: string, sep: char)
    requires sep !in c
    ensures var cs := Split(path, sep);
            Split(path + c, sep) == cs[..|cs| - 1] + [cs[|cs| - 1] + c]
    decreases |c|
  {
    var cs := Split(path, sep);
    if c == [] {
      assert path + c == path && cs[|cs| - 1] + c == cs[|cs| - 1];
    } else {
      var last := |c| - 1;
      SplitAppend(path, c[..last], sep);
      assert (path + c)[..|path + c| - 1] == path + c[..last];
      assert cs[|cs| - 1] + c[..last] + [c[last]] == cs[|cs| - 1] + c;
    }
  }

  class PathFromString {
    var analyzedPath: seq<nat>
    const pathBuffer: array<char>
    const sep: char

    function Components(): seq<string> reads this, pathBuffer {
      var buffer, offsets := pathBuffer[..], analyzedPath;
      seq(|offsets|, k requires 0 <= k < |offsets| => CString(buffer, offsets[k]))
    }

    predicate Rooted() reads this, pathBuffer { pathBuffer.Length > 0 && pathBuffer[0] == sep }

    /** A path is a C string. */
    constructor (path: string, sep: char)
      requires NUL !in path
      ensures fresh(pathBuffer) && this.sep == sep
      ensures Components() == Split(path, sep)
      ensures Rooted() <==> sep == NUL && path == []   // a leading separator is overwritten
    {
      this.sep := sep;
      pathBuffer := new char[|path| + 1](i => if 0 <= i < |path| then path[i] else NUL);
      analyzedPath := [];
      new;
      Analyze(path);
    }

    method Analyze(path: string)
      requires NUL !in path && pathBuffer[..] == path + [NUL] && analyzedPath == []
      modifies this, pathBuffer
      ensures Components() == Split(path, sep)
      ensures Rooted() <==> sep == NUL && path == []
    {
      var i, start := 0, 0;
      assert path[..0] == [];
      while pathBuffer[i] != NUL
        invariant i <= |path| && Done(pathBuffer[..], analyzedPath, path, i, start)
        invariant i > 0 ==> pathBuffer[0] == if path[0] == sep then NUL else path[0]
        decreases |path| - i
      {
        CutNext(pathBuffer[..], analyzedPath, path, i, start);
        ghost var buffer := pathBuffer[..];
        if pathBuffer[i] == sep {
          pathBuffer[i] := NUL;
          assert pathBuffer[..] == buffer[i := NUL];
          analyzedPath := analyzedPath + [start];
          start := i + 1;
        }
        i := i + 1;
      }
      AllDone(pathBuffer[..], analyzedPath, path, i, start);
      analyzedPath := analyzedPath + [start];
      assert Components() == Split(path, sep);
    }

    /** The first i characters are cut up, and the last component so far begins at start. */
    ghost predicate Done(buffer: seq<char>, offsets: seq<nat>, path: string, i: nat, start: nat) {
      && start <= i <= |path| && |buffer| == |path| + 1
      && var cs := Split(path[..i], sep);
         && |offsets| == |cs| - 1
         && (forall k {:trigger offsets[k]} :: 0 <= k < |offsets| ==> Holds(buffer, offsets[k], cs[k]))
         && (forall k {:trigger offsets[k]} :: 0 <= k < |offsets| ==> offsets[k] + |cs[k]| < i)
         && buffer[start..i] == cs[|cs| - 1]
         && buffer[i..] == path[i..] + [NUL]
    }

    static ghost predicate Holds(buffer: seq<char>, off: nat, c: string) {
      off + |c| < |buffer| && buffer[off..off + |c|] == c && buffer[off + |c|] == NUL
    }

    lemma CutNext(buffer: seq<char>, offsets: seq<nat>, path: string, i: nat, start: nat)
      requires Done(buffer, offsets, path, i, start) && i < |path|
      ensures buffer[i] == path[i]
      ensures path[i] == sep ==> Done(buffer[i := NUL], offsets + [start], path, i + 1, i + 1)
      ensures path[i] != sep ==> Done(buffer, offsets, path, i + 1, start)
    {
      assert buffer[i] == buffer[i..][0];
      assert path[..i + 1][..i] == path[..i];
      assert buffer[i + 1..] == buffer[i..][1..] == path[i + 1..] + [NUL];
      if path[i] == sep {
        var cut := buffer[i := NUL];
        var cs := Split(path[..i], sep);
        forall k | 0 <= k < |offsets| ensures Holds(cut, offsets[k], cs[k]) {
          assert cut[offsets[k]..offsets[k] + |cs[k]|] == buffer[offsets[k]..offsets[k] + |cs[k]|];
        }
        assert cut[start..i] == buffer[start..i];
        assert cut[i + 1..] == buffer[i + 1..];
      } else {
        assert buffer[start..i + 1] == buffer[start..i] + [path[i]];
      }
    }

    lemma AllDone(buffer: seq<char>, offsets: seq<nat>, path: string, i: nat, start: nat)
      requires Done(buffer, offsets, path, i, start) && buffer[i] == NUL && NUL !in path
      ensures var all, cs := offsets + [start], Split(path, sep);
              |all| == |cs| && forall k :: 0 <= k < |all| ==> CString(buffer, all[k]) == cs[k]
    {
      assert forall k :: 0 <= k < |path| ==> path[k] != NUL;
      assert buffer[i] == buffer[i..][0] == (path[i..] + [NUL])[0];
      assert path[..i] == path;
      var all, cs := offsets + [start], Split(path, sep);
      SplitIsClean(path, sep, NUL);
      forall k | 0 <= k < |all| ensures CString(buffer, all[k]) == cs[k] {
        assert cs[k] in cs;
        CStringIs(buffer, all[k], cs[k]);
      }
    }
  }
}
