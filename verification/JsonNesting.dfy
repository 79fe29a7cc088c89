/** The annotations the token generator of Holder/DTJsonSerializer leaves on the tokens:
    complements pair up the brackets, and hasCompounds tells what lies between them. */
module JsonNesting {
  import opened DataTree
  import opened JsonTokens
  import opened JsonReading

  /** Openers less closers from lo up to hi. */
  ghost function Depth(ts: seq<JsonToken>, lo: nat, hi: nat): int
    requires hi <= |ts|
    decreases hi - lo
  {
    if hi <= lo then 0
    else Depth(ts, lo, hi - 1) + (if IsOpener(ts[hi - 1]) then 1 else if ts[hi - 1].tokenType == Closer then -1 else 0)
  }

  lemma {:induction false} DepthSplit(ts: seq<JsonToken>, lo: nat, mid: nat, hi: nat)
    requires lo <= mid <= hi <= |ts|
    ensures Depth(ts, lo, hi) == Depth(ts, lo, mid) + Depth(ts, mid, hi)
    decreases hi - mid
  {
    if mid < hi { DepthSplit(ts, lo, mid, hi - 1); }
  }

  /** c is the first position after i where the bracket opened at i is closed. */
  ghost predicate Closes(ts: seq<JsonToken>, i: nat, c: nat)
    requires i < c < |ts|
  {
    Depth(ts, i, c + 1) == 0 && forall n {:trigger Depth(ts, i, n)} :: i < n <= c ==> Depth(ts, i, n) > 0
  }

  /** The token at i names its partner, and the partner names i. */
  ghost predicate Paired(ts: seq<JsonToken>, lo: nat, hi: nat, i: nat)
    requires lo <= i < hi <= |ts|
  {
    var c := ts[i].idxComplement;
    && (IsOpener(ts[i]) ==> i < c < hi && Closes(ts, i, c) && ts[c] == CloserFor(ts[i], i))
    && (ts[i].tokenType == Closer ==> lo <= c < i && IsOpener(ts[c]) && ts[c].idxComplement == i)
    && (IsOpener(ts[i]) && i < c < hi ==> (ts[i].hasCompounds <==> NonEmptyWithin(ts, i + 1, c)))
  }

  /** Some bracket with something in it opens in this range. */
  ghost predicate NonEmptyWithin(ts: seq<JsonToken>, lo: nat, hi: nat)
    requires hi <= |ts|
  {
    exists j :: lo <= j < hi && NonEmptyAt(ts[j], j)
  }

  ghost predicate NonEmptyAt(t: JsonToken, j: nat) { IsOpener(t) && t.idxComplement > j + 1 }

  ghost predicate Nested(ts: seq<JsonToken>, lo: nat, hi: nat)
    requires hi <= |ts|
  {
    && (forall i :: lo <= i < hi ==> Paired(ts, lo, hi, i))
    && Depth(ts, lo, hi) == 0 && forall n {:trigger Depth(ts, lo, n)} :: lo <= n <= hi ==> Depth(ts, lo, n) >= 0
  }

  lemma NestedJoin(ts: seq<JsonToken>, lo: nat, mid: nat, hi: nat)
    requires lo <= mid <= hi <= |ts| && Nested(ts, lo, mid) && Nested(ts, mid, hi)
    ensures Nested(ts, lo, hi)
  {
    DepthSplit(ts, lo, mid, hi);
    forall n | lo <= n <= hi ensures Depth(ts, lo, n) >= 0 {
      if n > mid { DepthSplit(ts, lo, mid, n); }
    }
    forall i | lo <= i < hi ensures Paired(ts, lo, hi, i) {
      assert if i < mid then Paired(ts, lo, mid, i) else Paired(ts, mid, hi, i);
    }
  }

  lemma NestedPlain(ts: seq<JsonToken>, i: nat)
    requires i < |ts| && !IsOpener(ts[i]) && ts[i].tokenType != Closer
    ensures Nested(ts, i, i + 1)
  {
    var hi := i + 1;
    assert Depth(ts, i, i) == 0 && Depth(ts, i, hi) == 0;
    assert Paired(ts, i, hi, i);
  }

  lemma NestedWrap(ts: seq<JsonToken>, lo: nat, c: nat)
    requires lo < c < |ts| && Nested(ts, lo + 1, c)
    requires IsOpener(ts[lo]) && ts[lo].idxComplement == c && ts[c] == CloserFor(ts[lo], lo)
    requires ts[lo].hasCompounds <==> NonEmptyWithin(ts, lo + 1, c)
    ensures Nested(ts, lo, c + 1)
  {
    forall n | lo < n <= c ensures Depth(ts, lo, n) > 0 {
      DepthSplit(ts, lo, lo + 1, n);
      assert Depth(ts, lo + 1, n) >= 0;
    }
    DepthSplit(ts, lo, lo + 1, c);
    var hi := c + 1;
    forall i | lo <= i < hi ensures Paired(ts, lo, hi, i) {
      assert lo < i < c ==> Paired(ts, lo + 1, c, i);
    }
  }

  lemma {:induction false} NodeNested(ts: seq<JsonToken>, d: Datum, base: nat)
    requires Holds(ts, base, Render(d, base))
    ensures var end := base + |Render(d, base)|;
            Nested(ts, base, end) && (NonEmptyWithin(ts, base, end) <==> NonEmptyCompound(d))
    decreases d, 1, 0
  {
    if d.Dict? || d.List? {
      CompoundHeld(ts, base, d);
      FromNested(ts, d, 0, base + 1);
      EmptyIffNoTokens(d, base + 1);
      CompoundNested(ts, d, base, base + |Render(d, base)| - 1);
    } else {
      LeafNested(ts, d, base);
    }
  }

  lemma LeafNested(ts: seq<JsonToken>, d: Datum, base: nat)
    requires (d.Element? || d.Object?) && Holds(ts, base, Render(d, base))
    ensures |Render(d, base)| == 1 && Nested(ts, base, base + 1) && !NonEmptyWithin(ts, base, base + 1)
  {
    HoldsOne(ts, base, Render(d, base)[0]);
    NestedPlain(ts, base);
    assert !NonEmptyAt(ts[base], base);
  }

  lemma CompoundNested(ts: seq<JsonToken>, d: Datum, base: nat, c: nat)
    requires (d.Dict? || d.List?) && base < c < |ts| && Nested(ts, base + 1, c)
    requires ts[base] == FinalOpener(d).(idxComplement := c) && ts[c] == CloserFor(OpenerOf(d), base)
    requires (NonEmptyWithin(ts, base + 1, c) <==> CompoundFrom(d, 0)) && (c == base + 1 <==> ChildCount(d) == 0)
    ensures Nested(ts, base, c + 1) && (NonEmptyWithin(ts, base, c + 1) <==> NonEmptyCompound(d))
  {
    assert CompoundFrom(d, 0) <==> CompoundBefore(d, ChildCount(d));
    NestedWrap(ts, base, c);
    if NonEmptyCompound(d) {
      assert NonEmptyAt(ts[base], base);
    } else {
      assert !CompoundFrom(d, 0);
      assert !NonEmptyAt(ts[base], base) && !NonEmptyAt(ts[c], c);
    }
  }

  lemma EmptyIffNoTokens(d: Datum, base: nat)
    requires d.Dict? || d.List?
    ensures RenderFrom(d, 0, base) == [] <==> ChildCount(d) == 0
  {
    if ChildCount(d) > 0 {
      assert |Render(ChildValue(d, 0), base + |LeadIn(d, 0)|)| > 0;
    }
  }

  /** Some child from the k-th on is a non-empty compound. */
  ghost predicate CompoundFrom(d: Datum, k: nat) {
    exists i :: k <= i < ChildCount(d) && NonEmptyCompound(ChildValue(d, i))
  }

  lemma {:induction false} FromNested(ts: seq<JsonToken>, d: Datum, k: nat, base: nat)
    requires k <= ChildCount(d) && Holds(ts, base, RenderFrom(d, k, base))
    ensures var end := base + |RenderFrom(d, k, base)|;
            Nested(ts, base, end) && (NonEmptyWithin(ts, base, end) <==> CompoundFrom(d, k))
    decreases d, 0, ChildCount(d) - k, 1
  {
    if k < ChildCount(d) {
      var next := base + |Piece(d, k, base)|;
      var end := base + |RenderFrom(d, k, base)|;
      PieceNested(ts, d, k, base);
      FromNested(ts, d, k + 1, next);
      NestedJoin(ts, base, next, end);
      WithinJoin(ts, base, next, end);
      CompoundFromNext(d, k);
    }
  }

  lemma CompoundFromNext(d: Datum, k: nat)
    requires k < ChildCount(d)
    ensures CompoundFrom(d, k) <==> NonEmptyCompound(ChildValue(d, k)) || CompoundFrom(d, k + 1)
  {
  }

  lemma {:induction false} PieceNested(ts: seq<JsonToken>, d: Datum, k: nat, base: nat)
    requires k < ChildCount(d) && Holds(ts, base, RenderFrom(d, k, base))
    ensures var next := base + |Piece(d, k, base)|;
            && Nested(ts, base, next) && (NonEmptyWithin(ts, base, next) <==> NonEmptyCompound(ChildValue(d, k)))
            && Holds(ts, next, RenderFrom(d, k + 1, next))
            && |RenderFrom(d, k, base)| == |Piece(d, k, base)| + |RenderFrom(d, k + 1, next)|
    decreases d, 0, ChildCount(d) - k, 0
  {
    var node := base + |LeadIn(d, k)|;
    var next := base + |Piece(d, k, base)|;
    PieceHeld(ts, base, d, k, base);
    LeadInNested(ts, d, k, base);
    NodeNested(ts, ChildValue(d, k), node);
    NestedJoin(ts, base, node, next);
    WithinJoin(ts, base, node, next);
  }

  lemma WithinJoin(ts: seq<JsonToken>, lo: nat, mid: nat, hi: nat)
    requires lo <= mid <= hi <= |ts|
    ensures NonEmptyWithin(ts, lo, hi) <==> NonEmptyWithin(ts, lo, mid) || NonEmptyWithin(ts, mid, hi)
  {
  }

  lemma LeadInNested(ts: seq<JsonToken>, d: Datum, k: nat, base: nat)
    requires k < ChildCount(d) && Holds(ts, base, LeadIn(d, k))
    ensures Nested(ts, base, base + |LeadIn(d, k)|) && !NonEmptyWithin(ts, base, base + |LeadIn(d, k)|)
  {
    var lead := LeadIn(d, k);
    PlainNested(ts, base, lead, 0);
  }

  lemma {:induction false} PlainNested(ts: seq<JsonToken>, base: nat, part: seq<JsonToken>, n: nat)
    requires n <= |part| && Holds(ts, base, part) && forall t <- part :: !IsOpener(t) && t.tokenType != Closer
    ensures Nested(ts, base + n, base + |part|) && !NonEmptyWithin(ts, base + n, base + |part|)
    decreases |part| - n
  {
    if n < |part| {
      assert ts[base + n] == part[n];
      NestedPlain(ts, base + n);
      PlainNested(ts, base, part, n + 1);
      NestedJoin(ts, base + n, base + n + 1, base + |part|);
    }
  }

  /** In every generated list the brackets are paired by their complements, each closer is
      where its bracket closes, and hasCompounds says whether a non-empty bracket opens between. */
  lemma TokensNested(d: Datum)
    ensures Nested(Tokens(d), 0, |Tokens(d)|)
  {
    NodeNested(Tokens(d), d, 0);
  }

  /** Brackets never cross. */
  lemma BracketsDoNotCross(d: Datum, i: nat, j: nat)
    requires i < j < |Tokens(d)| && IsOpener(Tokens(d)[i]) && IsOpener(Tokens(d)[j])
    ensures Tokens(d)[i].idxComplement < j || Tokens(d)[j].idxComplement < Tokens(d)[i].idxComplement
  {
    var ts := Tokens(d);
    TokensNested(d);
    assert Paired(ts, 0, |ts|, i) && Paired(ts, 0, |ts|, j);
    if j < ts[i].idxComplement { InnerClosesFirst(ts, i, j, ts[i].idxComplement, ts[j].idxComplement); }
  }

  lemma InnerClosesFirst(ts: seq<JsonToken>, i: nat, j: nat, c: nat, e: nat)
    requires i < j < c < |ts| && j < e < |ts| && Closes(ts, i, c) && Closes(ts, j, e)
    ensures e <= c
  {
    assert c < e ==> Depth(ts, j, c + 1) > 0;
    assert Depth(ts, i, j) > 0;
    DepthSplit(ts, i, j, c + 1);
  }
}
