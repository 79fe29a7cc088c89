/** Holder/DTJsonSerializer: PrintJsonIndented, which lays a token list out in lines, and the
    layout of a tree it amounts to. */
module JsonPrinter {
  import opened Collections
  import opened DataTree
  import opened JsonTokens
  import opened JsonReading

  datatype Options = Options(levelIndent: nat, sepSpaces: nat, sameLineElements: bool)

  const UINT_RANGE := 0x1_0000_0000

  function Spaces(n: nat): (r: string)
    ensures |r| == n
  {
    seq(n, i => ' ')
  }

  /** The product is an unsigned int; indent may be taken modulo its range or not. */
  function Blanks(levelIndent: nat, indent: int): nat {
    if levelIndent == 0 then 0 else (Blanks(levelIndent - 1, indent) + indent) % UINT_RANGE
  }

  lemma {:induction false} BlanksIs(levelIndent: nat, indent: int)
    ensures Blanks(levelIndent, indent) == (levelIndent * indent) % UINT_RANGE
  {
    if levelIndent > 0 {
      BlanksIs(levelIndent - 1, indent);
      OneMore(levelIndent - 1, indent);
      AddModulo((levelIndent - 1) * indent, indent);
    }
  }

  lemma OneMore(n: nat, indent: int)
    ensures (n + 1) * indent == n * indent + indent
  {
  }

  lemma AddModulo(x: int, y: int)
    ensures (x % UINT_RANGE + y) % UINT_RANGE == (x + y) % UINT_RANGE
  {
    var r := x % UINT_RANGE + y;
    assert x + y == UINT_RANGE * (x / UINT_RANGE + r / UINT_RANGE) + r % UINT_RANGE;
  }

  function NewLine(o: Options, indent: int): string { "\n" + Spaces(Blanks(o.levelIndent, indent)) }

  datatype PrintState = PrintState(indent: int, compounds: seq<nat>, out: string)

  /** What follows a token: white space, and a change of indentation. */
  datatype Gap = Throws | Nothing | Separated | Line(delta: int)

  predicate ClosesNext(ts: seq<JsonToken>, i: nat) { i + 1 < |ts| && ts[i + 1].tokenType == Closer }

  /** Do the elements of the compound started at k go on lines of their own? */
  predicate OwnLines(o: Options, ts: seq<JsonToken>, k: nat) { !o.sameLineElements || (k < |ts| && ts[k].hasCompounds) }

  /** compounds: the openers still open, the token's own included. */
  function GapAfter(o: Options, ts: seq<JsonToken>, i: nat, compounds: seq<nat>): Gap
    requires i < |ts|
  {
    var depth := |compounds|;
    match ts[i].tokenType
    case DictSeparator => Separated
    case DictOpener => if OwnLines(o, ts, i) then Line(1) else Nothing
    case ListOpener => if OwnLines(o, ts, i) then Line(1) else Nothing
    case ListSeparator =>
      if depth == 0 then Throws else if OwnLines(o, ts, compounds[depth - 1]) then Line(0) else Separated
    case Closer =>
      if !ClosesNext(ts, i) then (if depth == 0 then Throws else Nothing)
      else if depth < 2 then Throws
      else if OwnLines(o, ts, compounds[depth - 2]) then Line(-1) else Nothing
    case Value =>
      if depth == 0 then Nothing
      else if i == |ts| - 1 then Throws
      else if ClosesNext(ts, i) && OwnLines(o, ts, compounds[depth - 1]) then Line(-1) else Nothing
  }

  function Spaced(o: Options, gap: Gap, indent: int, out: string): string {
    match gap
    case Line(_) => out + NewLine(o, indent)
    case Separated => out + Spaces(o.sepSpaces)
    case _ => out
  }

  /** One round of the printer's loop; None where it throws. */
  function PrintStep(o: Options, ts: seq<JsonToken>, i: nat, st: PrintState): Option<PrintState>
    requires i < |ts|
  {
    var compounds := if IsOpener(ts[i]) then st.compounds + [i] else st.compounds;
    var gap := GapAfter(o, ts, i, compounds);
    if gap == Throws then None
    else
      var indent := st.indent + (if gap.Line? then gap.delta else 0);
      var left := if ts[i].tokenType == Closer && compounds != [] then compounds[..|compounds| - 1] else compounds;
      Some(PrintState(indent, left, Spaced(o, gap, indent, st.out + ts[i].sToken)))
  }

  /** The rounds from i up to j. */
  function PrintRun(o: Options, ts: seq<JsonToken>, i: nat, j: nat, st: PrintState): Option<PrintState>
    requires i <= j <= |ts|
    decreases j - i
  {
    if i == j then Some(st)
    else
      var next := PrintStep(o, ts, i, st);
      if next.Some? then PrintRun(o, ts, i + 1, j, next.value) else None
  }

  const Start := PrintState(0, [], "")

  function PrintAll(o: Options, ts: seq<JsonToken>): Option<PrintState> { PrintRun(o, ts, 0, |ts|, Start) }

  /** ok is false where the source throws. */
  method PrintJsonIndented(tokens: seq<JsonToken>, o: Options) returns (ok: bool, out: string)
    ensures ok <==> PrintAll(o, tokens).Some?
    ensures ok ==> out == PrintAll(o, tokens).value.out
  {
    var indentLevel := 0;
    var compoundStack: seq<nat> := [];
    out := "";
    var i := 0;
    while i < |tokens|
      invariant i <= |tokens|
      invariant PrintAll(o, tokens) == PrintRun(o, tokens, i, |tokens|, PrintState(indentLevel, compoundStack, out))
    {
      ok, indentLevel, compoundStack, out := PrintToken(o, tokens, i, indentLevel, compoundStack, out);
      if !ok {
        return;
      }
      i := i + 1;
    }
    ok := true;
  }

  /** The loop body. */
  method PrintToken(o: Options, tokens: seq<JsonToken>, i: nat, level: int, stack: seq<nat>, printed: string)
    returns (ok: bool, indentLevel: int, compoundStack: seq<nat>, out: string)
    requires i < |tokens|
    ensures PrintStep(o, tokens, i, PrintState(level, stack, printed)) ==
            if ok then Some(PrintState(indentLevel, compoundStack, out)) else None
    ensures ok ==>
              var text := printed + tokens[i].sToken;
              || out == text || out == text + Spaces(o.sepSpaces)
              || out == text + ("\n" + Spaces((o.levelIndent * indentLevel) % 0x1_0000_0000))
  {
    indentLevel, compoundStack, out := level, stack, printed;
    var curToken := tokens[i];
    if IsOpener(curToken) {
      compoundStack := compoundStack + [i];
    }
    var addNewline, addSpaces, indentDelta;
    ok, addNewline, addSpaces, indentDelta := Decide(o, tokens, i, compoundStack);
    if !ok {
      return;
    }
    out := out + curToken.sToken;
    indentLevel := indentLevel + indentDelta;
    if addNewline {
      BlanksIs(o.levelIndent, indentLevel);
      var blanks := PrintSpaces((o.levelIndent * indentLevel) % UINT_RANGE);
      out := out + ("\n" + blanks);
    } else if addSpaces {
      var blanks := PrintSpaces(o.sepSpaces);
      out := out + blanks;
    }
    assert out == Spaced(o, GapAfter(o, tokens, i, compoundStack), indentLevel, printed + curToken.sToken);
    if curToken.tokenType == Closer {
      compoundStack := compoundStack[..|compoundStack| - 1];
    }
  }

  /** What follows the token. */
  method Decide(o: Options, tokens: seq<JsonToken>, i: nat, compoundStack: seq<nat>)
    returns (ok: bool, addNewline: bool, addSpaces: bool, indentDelta: int)
    requires i < |tokens|
    ensures GapAfter(o, tokens, i, compoundStack) ==
            if !ok then Throws else if addNewline then Line(indentDelta) else if addSpaces then Separated else Nothing
    ensures ok && !addNewline ==> indentDelta == 0
    ensures ok && tokens[i].tokenType == Closer ==> compoundStack != []
    ensures var depth := |compoundStack|;
            var closes := i + 1 < |tokens| && tokens[i + 1].tokenType == Closer;
            match tokens[i].tokenType
            case DictSeparator => ok && addSpaces && !addNewline
            case DictOpener => ok && !addSpaces && (addNewline <==> !o.sameLineElements || tokens[i].hasCompounds) && (addNewline ==> indentDelta == 1)
            case ListOpener => ok && !addSpaces && (addNewline <==> !o.sameLineElements || tokens[i].hasCompounds) && (addNewline ==> indentDelta == 1)
            case ListSeparator =>
              && (ok <==> depth > 0)
              && (ok ==> indentDelta == 0 && (addSpaces <==> !addNewline) && (addNewline <==> OwnLines(o, tokens, compoundStack[depth - 1])))
            case Closer =>
              && (ok <==> depth > (if closes then 1 else 0))
              && (ok ==> !addSpaces && (addNewline <==> closes && OwnLines(o, tokens, compoundStack[depth - 2])) && (addNewline ==> indentDelta == -1))
            case Value =>
              && (ok <==> depth == 0 || i < |tokens| - 1)
              && (ok ==> !addSpaces && (addNewline <==> depth > 0 && closes && OwnLines(o, tokens, compoundStack[depth - 1])) && (addNewline ==> indentDelta == -1))
  {
    var curToken := tokens[i];
    var depth := |compoundStack|;
    ok, addNewline, addSpaces, indentDelta := true, false, false, 0;
    if curToken.tokenType == DictSeparator {
      addSpaces := true;
    } else if IsOpener(curToken) {
      addNewline := !o.sameLineElements || curToken.hasCompounds;
      indentDelta := if addNewline then 1 else 0;
    } else if curToken.tokenType == ListSeparator {
      if depth == 0 {
        ok := false;
        return;
      }
      addNewline := OwnLines(o, tokens, compoundStack[depth - 1]);
      addSpaces := !addNewline;
    } else if curToken.tokenType == Closer {
      ok := depth > 0;
      if ClosesNext(tokens, i) {
        if depth < 2 {
          ok := false;
          return;
        }
        addNewline := OwnLines(o, tokens, compoundStack[depth - 2]);
        indentDelta := if addNewline then -1 else 0;
      }
    } else if depth > 0 {
      if i == |tokens| - 1 {
        ok := false;
        return;
      }
      addNewline := ClosesNext(tokens, i) && OwnLines(o, tokens, compoundStack[depth - 1]);
      indentDelta := if addNewline then -1 else 0;
    }
  }

  method PrintSpaces(n: nat) returns (r: string)
    ensures r == Spaces(n) && |r| == n && forall k :: 0 <= k < n ==> r[k] == ' '
  {
    r := "";
    var spc := 0;
    while spc < n
      invariant spc <= n && |r| == spc && forall k :: 0 <= k < spc ==> r[k] == ' '
    {
      r := r + " ";
      spc := spc + 1;
    }
  }

  // ----- printing adds nothing but white space -----

  predicate Blank(s: string) { forall k :: 0 <= k < |s| ==> s[k] == ' ' || s[k] == '\n' }

  /** The texts of the tokens from i on, each with its gap behind it. */
  function Woven(ts: seq<JsonToken>, i: nat, gaps: seq<string>): string
    requires i + |gaps| <= |ts|
    decreases |gaps|
  {
    if gaps == [] then "" else ts[i].sToken + gaps[0] + Woven(ts, i + 1, gaps[1..])
  }

  lemma {:induction false} PrintsTextsAndBlanks(o: Options, ts: seq<JsonToken>, i: nat, j: nat, st: PrintState) returns (gaps: seq<string>)
    requires i <= j <= |ts| && PrintRun(o, ts, i, j, st).Some?
    ensures |gaps| == j - i && forall k :: 0 <= k < |gaps| ==> Blank(gaps[k])
    ensures PrintRun(o, ts, i, j, st).value.out == st.out + Woven(ts, i, gaps)
    decreases j - i
  {
    if i == j {
      gaps := [];
    } else {
      var next := PrintStep(o, ts, i, st).value;
      var gap := next.out[|st.out| + |ts[i].sToken|..];
      var others := PrintsTextsAndBlanks(o, ts, i + 1, j, next);
      gaps := [gap] + others;
      assert gaps[1..] == others;
      assert next.out == st.out + ts[i].sToken + gap;
      WovenNext(st.out, ts[i].sToken, gap, Woven(ts, i + 1, others));
    }
  }

  lemma WovenNext(out: string, text: string, gap: string, rest: string)
    ensures out + text + gap + rest == out + (text + gap + rest)
  {
  }

  // ----- the layout of a tree -----

  datatype Page = Page(indent: int, out: string) {
    function Put(text: string): Page { Page(indent, out + text) }

    function StartLine(o: Options, delta: int): Page { Page(indent + delta, out + NewLine(o, indent + delta)) }
  }

  predicate Own(o: Options, d: Datum) { !o.sameLineElements || CompoundBefore(d, ChildCount(d)) }

  /** Children go on lines of their own, one level deeper, if Own. Nothing takes the level
      back of a compound that has no children. */
  function LaidOut(o: Options, d: Datum, page: Page): Page
    decreases d, 1, 0
  {
    match d
    case Element(text) => page.Put(text)
    case Object(repr) => page.Put(ObjectText(repr))
    case _ => Filled(o, d, page).Put(ClosingBracket(d.Dict?))
  }

  /** After the opening bracket. */
  function Started(o: Options, d: Datum, page: Page): Page {
    var started := page.Put(Bracket(d.Dict?));
    if Own(o, d) then started.StartLine(o, 1) else started
  }

  /** After the last child. */
  function Filled(o: Options, d: Datum, page: Page): Page
    decreases d, 0, ChildCount(d) + 1
  {
    if ChildCount(d) == 0 then Started(o, d, page) else LaidOutFrom(o, d, 0, Started(o, d, page))
  }

  /** What leads in the k-th child. */
  function Keyed(o: Options, d: Datum, k: nat, page: Page): Page
    requires k < ChildCount(d)
  {
    var next := if k == 0 then page else if Own(o, d) then page.Put(",").StartLine(o, 0) else page.Put(",").Put(Spaces(o.sepSpaces));
    if d.Dict? then next.Put(Quoted(d.entries[k].key)).Put(":").Put(Spaces(o.sepSpaces)) else next
  }

  function LaidOutFrom(o: Options, d: Datum, k: nat, page: Page): Page
    requires k < ChildCount(d)
    decreases d, 0, ChildCount(d) - k
  {
    var child := LaidOut(o, ChildValue(d, k), Keyed(o, d, k, page));
    if k + 1 < ChildCount(d) then LaidOutFrom(o, d, k + 1, child)
    else if Own(o, d) then child.StartLine(o, -1) else child
  }

  /** The compounds in d that have no children, d included. */
  function Empties(d: Datum): nat
    decreases d, 1, 0
  {
    if (d.Dict? || d.List?) && ChildCount(d) == 0 then 1 else EmptiesFrom(d, 0)
  }

  function EmptiesFrom(d: Datum, k: nat): nat
    requires k <= ChildCount(d)
    decreases d, 0, ChildCount(d) - k
  {
    if k == ChildCount(d) then 0 else Empties(ChildValue(d, k)) + EmptiesFrom(d, k + 1)
  }

  lemma {:induction false} LayoutIndent(o: Options, d: Datum, page: Page)
    ensures LaidOut(o, d, page).indent == page.indent + (if o.sameLineElements then 0 else Empties(d))
    decreases d, 1, 0
  {
    if ChildCount(d) > 0 {
      LayoutFromIndent(o, d, 0, Started(o, d, page));
    }
  }

  lemma {:induction false} LayoutFromIndent(o: Options, d: Datum, k: nat, page: Page)
    requires k < ChildCount(d)
    ensures LaidOutFrom(o, d, k, page).indent ==
            page.indent + (if o.sameLineElements then 0 else EmptiesFrom(d, k)) - (if Own(o, d) then 1 else 0)
    decreases d, 0, ChildCount(d) - k
  {
    var keyed := Keyed(o, d, k, page);
    LayoutIndent(o, ChildValue(d, k), keyed);
    if k + 1 < ChildCount(d) { LayoutFromIndent(o, d, k + 1, LaidOut(o, ChildValue(d, k), keyed)); }
  }

  // ----- the printer lays the tree out -----

  /** The indentation never drops below zero on the way from i to j. */
  ghost predicate Indented(o: Options, ts: seq<JsonToken>, i: nat, j: nat, st: PrintState)
    requires i <= j <= |ts|
    decreases j - i
  {
    st.indent >= 0 && (i < j && PrintStep(o, ts, i, st).Some? ==> Indented(o, ts, i + 1, j, PrintStep(o, ts, i, st).value))
  }

  ghost predicate Prints(o: Options, ts: seq<JsonToken>, i: nat, j: nat, before: PrintState, after: PrintState) {
    i <= j <= |ts| && PrintRun(o, ts, i, j, before) == Some(after) && Indented(o, ts, i, j, before)
  }

  lemma {:induction false} PrintsJoin(o: Options, ts: seq<JsonToken>, i: nat, mid: nat, j: nat, a: PrintState, b: PrintState, c: PrintState)
    requires Prints(o, ts, i, mid, a, b) && Prints(o, ts, mid, j, b, c)
    ensures Prints(o, ts, i, j, a, c)
    decreases mid - i
  {
    if i < mid { PrintsJoin(o, ts, i + 1, mid, j, PrintStep(o, ts, i, a).value, b, c); }
  }

  lemma PrintsOne(o: Options, ts: seq<JsonToken>, i: nat, a: PrintState, b: PrintState)
    requires i < |ts| && PrintStep(o, ts, i, a) == Some(b) && a.indent >= 0 && b.indent >= 0
    ensures Prints(o, ts, i, i + 1, a, b)
  {
    assert PrintRun(o, ts, i + 1, i + 1, b) == Some(b);
  }

  /** Does the token at end close a compound whose elements have their own lines? */
  predicate Dedents(o: Options, ts: seq<JsonToken>, end: nat, compounds: seq<nat>) {
    && compounds != [] && end < |ts| && ts[end].tokenType == Closer
    && OwnLines(o, ts, compounds[|compounds| - 1])
  }

  function Ending(o: Options, dedents: bool, page: Page): Page { if dedents then page.StartLine(o, -1) else page }

  function OnPage(page: Page, compounds: seq<nat>): PrintState { PrintState(page.indent, compounds, page.out) }

  lemma {:induction false} NodePrints(o: Options, ts: seq<JsonToken>, d: Datum, i: nat, page: Page, compounds: seq<nat>)
    requires Holds(ts, i, Render(d, i))
    requires compounds == [] <==> i + |Render(d, i)| == |ts|
    requires page.indent >= (if Dedents(o, ts, i + |Render(d, i)|, compounds) then 1 else 0)
    ensures var end := i + |Render(d, i)|;
            Prints(o, ts, i, end, OnPage(page, compounds),
                   OnPage(Ending(o, Dedents(o, ts, end, compounds), LaidOut(o, d, page)), compounds))
    decreases d, 1, 0
  {
    if d.Element? || d.Object? {
      LeafPrints(o, ts, d, i, page, compounds);
    } else {
      CompoundHeld(ts, i, d);
      InsidePrints(o, ts, d, i, i + |Render(d, i)| - 1, page, compounds);
      CompoundPrints(o, ts, d, i, i + |Render(d, i)| - 1, page, compounds);
    }
  }

  lemma {:induction false} InsidePrints(o: Options, ts: seq<JsonToken>, d: Datum, i: nat, c: nat, page: Page, compounds: seq<nat>)
    requires (d.Dict? || d.List?) && i < c < |ts| && c == i + 1 + |RenderFrom(d, 0, i + 1)| && Holds(ts, i + 1, RenderFrom(d, 0, i + 1))
    requires ts[i] == FinalOpener(d).(idxComplement := c) && ts[c] == CloserFor(OpenerOf(d), i) && page.indent >= 0
    ensures Prints(o, ts, i + 1, c, OnPage(Started(o, d, page), compounds + [i]), OnPage(Filled(o, d, page), compounds + [i]))
    decreases d, 0, ChildCount(d) + 1
  {
    if ChildCount(d) > 0 {
      var inside := compounds + [i];
      assert inside[|inside| - 1] == i && (OwnLines(o, ts, i) <==> Own(o, d));
      FromPrints(o, ts, d, 0, i + 1, c, Started(o, d, page), inside);
    }
  }

  lemma CompoundPrints(o: Options, ts: seq<JsonToken>, d: Datum, i: nat, c: nat, page: Page, compounds: seq<nat>)
    requires (d.Dict? || d.List?) && i < c < |ts| && (compounds == [] <==> c + 1 == |ts|)
    requires ts[i] == FinalOpener(d).(idxComplement := c) && ts[c] == CloserFor(OpenerOf(d), i)
    requires Prints(o, ts, i + 1, c, OnPage(Started(o, d, page), compounds + [i]), OnPage(Filled(o, d, page), compounds + [i]))
    requires page.indent >= (if Dedents(o, ts, c + 1, compounds) then 1 else 0)
    ensures Prints(o, ts, i, c + 1, OnPage(page, compounds),
                   OnPage(Ending(o, Dedents(o, ts, c + 1, compounds), LaidOut(o, d, page)), compounds))
  {
    var inside := compounds + [i];
    OpenerPrints(o, ts, d, i, page, compounds);
    PrintsJoin(o, ts, i, i + 1, c, OnPage(page, compounds), OnPage(Started(o, d, page), inside), OnPage(Filled(o, d, page), inside));
    LayoutIndent(o, d, page);
    CloserPrints(o, ts, d, i, c, Filled(o, d, page), compounds);
    PrintsJoin(o, ts, i, c, c + 1, OnPage(page, compounds), OnPage(Filled(o, d, page), inside),
               OnPage(Ending(o, Dedents(o, ts, c + 1, compounds), LaidOut(o, d, page)), compounds));
  }

  lemma LeafPrints(o: Options, ts: seq<JsonToken>, d: Datum, i: nat, page: Page, compounds: seq<nat>)
    requires (d.Element? || d.Object?) && Holds(ts, i, Render(d, i)) && (compounds == [] <==> i + 1 == |ts|)
    requires page.indent >= (if Dedents(o, ts, i + 1, compounds) then 1 else 0)
    ensures Prints(o, ts, i, i + 1, OnPage(page, compounds),
                   OnPage(Ending(o, Dedents(o, ts, i + 1, compounds), LaidOut(o, d, page)), compounds))
  {
    HoldsOne(ts, i, Render(d, i)[0]);
    PrintsOne(o, ts, i, OnPage(page, compounds), OnPage(Ending(o, Dedents(o, ts, i + 1, compounds), LaidOut(o, d, page)), compounds));
  }

  lemma OpenerPrints(o: Options, ts: seq<JsonToken>, d: Datum, i: nat, page: Page, compounds: seq<nat>)
    requires (d.Dict? || d.List?) && i < |ts| && exists c :: ts[i] == FinalOpener(d).(idxComplement := c)
    requires page.indent >= 0
    ensures Prints(o, ts, i, i + 1, OnPage(page, compounds), OnPage(Started(o, d, page), compounds + [i]))
  {
    PrintsOne(o, ts, i, OnPage(page, compounds), OnPage(Started(o, d, page), compounds + [i]));
  }

  lemma CloserPrints(o: Options, ts: seq<JsonToken>, d: Datum, i: nat, c: nat, page: Page, compounds: seq<nat>)
    requires (d.Dict? || d.List?) && c < |ts| && ts[c] == CloserFor(OpenerOf(d), i) && (compounds == [] <==> c + 1 == |ts|)
    requires page.indent >= (if Dedents(o, ts, c + 1, compounds) then 1 else 0)
    ensures Prints(o, ts, c, c + 1, OnPage(page, compounds + [i]),
                   OnPage(Ending(o, Dedents(o, ts, c + 1, compounds), page.Put(ClosingBracket(d.Dict?))), compounds))
  {
    assert (compounds + [i])[..|compounds|] == compounds;
    PrintsOne(o, ts, c, OnPage(page, compounds + [i]),
              OnPage(Ending(o, Dedents(o, ts, c + 1, compounds), page.Put(ClosingBracket(d.Dict?))), compounds));
  }

  lemma {:induction false} FromPrints(o: Options, ts: seq<JsonToken>, d: Datum, k: nat, i: nat, end: nat, page: Page, compounds: seq<nat>)
    requires k < ChildCount(d) && Holds(ts, i, RenderFrom(d, k, i))
    requires end == i + |RenderFrom(d, k, i)| && end < |ts| && ts[end].tokenType == Closer
    requires compounds != [] && (OwnLines(o, ts, compounds[|compounds| - 1]) <==> Own(o, d))
    requires page.indent >= (if Own(o, d) then 1 else 0)
    ensures Prints(o, ts, i, end, OnPage(page, compounds), OnPage(LaidOutFrom(o, d, k, page), compounds))
    decreases d, 0, ChildCount(d) - k, 1
  {
    var next := i + |Piece(d, k, i)|;
    var child := LaidOut(o, ChildValue(d, k), Keyed(o, d, k, page));
    ChildHeld(o, ts, d, k, i, end, compounds);
    ChildPrints(o, ts, d, k, i, page, compounds);
    if k + 1 < ChildCount(d) {
      FromPrints(o, ts, d, k + 1, next, end, child, compounds);
      PrintsJoin(o, ts, i, next, end, OnPage(page, compounds), OnPage(child, compounds), OnPage(LaidOutFrom(o, d, k, page), compounds));
    }
  }

  /** One child and what leads it in; the last one makes way for the closer. */
  lemma {:induction false} ChildPrints(o: Options, ts: seq<JsonToken>, d: Datum, k: nat, i: nat, page: Page, compounds: seq<nat>)
    requires k < ChildCount(d) && ChildIsHeld(o, ts, d, k, i, compounds)
    requires compounds != [] && (OwnLines(o, ts, compounds[|compounds| - 1]) <==> Own(o, d))
    requires page.indent >= (if Own(o, d) then 1 else 0)
    ensures var next := i + |Piece(d, k, i)|;
            var child := LaidOut(o, ChildValue(d, k), Keyed(o, d, k, page));
            && child.indent >= page.indent
            && Prints(o, ts, i, next, OnPage(page, compounds), OnPage(Ending(o, k + 1 == ChildCount(d) && Own(o, d), child), compounds))
    decreases d, 0, ChildCount(d) - k, 0
  {
    var node := i + |LeadIn(d, k)|;
    var next := i + |Piece(d, k, i)|;
    var keyed := Keyed(o, d, k, page);
    LeadInPrints(o, ts, d, k, i, page, compounds);
    ValuePrints(o, ts, d, k, i, keyed, compounds);
    PrintsJoin(o, ts, i, node, next, OnPage(page, compounds), OnPage(keyed, compounds),
               OnPage(Ending(o, k + 1 == ChildCount(d) && Own(o, d), LaidOut(o, ChildValue(d, k), keyed)), compounds));
  }

  lemma {:induction false} ValuePrints(o: Options, ts: seq<JsonToken>, d: Datum, k: nat, i: nat, keyed: Page, compounds: seq<nat>)
    requires k < ChildCount(d) && Holds(ts, i + |LeadIn(d, k)|, Render(ChildValue(d, k), i + |LeadIn(d, k)|)) && compounds != []
    requires var next := i + |Piece(d, k, i)|;
             next < |ts| && (Dedents(o, ts, next, compounds) <==> k + 1 == ChildCount(d) && Own(o, d))
    requires keyed.indent >= (if Own(o, d) then 1 else 0)
    ensures var child := LaidOut(o, ChildValue(d, k), keyed);
            && child.indent >= keyed.indent
            && Prints(o, ts, i + |LeadIn(d, k)|, i + |Piece(d, k, i)|, OnPage(keyed, compounds),
                      OnPage(Ending(o, k + 1 == ChildCount(d) && Own(o, d), child), compounds))
    decreases d, 0, 0
  {
    NodePrints(o, ts, ChildValue(d, k), i + |LeadIn(d, k)|, keyed, compounds);
    LayoutIndent(o, ChildValue(d, k), keyed);
  }

  ghost predicate ChildIsHeld(o: Options, ts: seq<JsonToken>, d: Datum, k: nat, i: nat, compounds: seq<nat>)
    requires k < ChildCount(d)
  {
    var node, next := i + |LeadIn(d, k)|, i + |Piece(d, k, i)|;
    && Holds(ts, i, LeadIn(d, k)) && Holds(ts, node, Render(ChildValue(d, k), node)) && node < next < |ts|
    && (Dedents(o, ts, next, compounds) <==> k + 1 == ChildCount(d) && Own(o, d))
  }

  lemma ChildHeld(o: Options, ts: seq<JsonToken>, d: Datum, k: nat, i: nat, end: nat, compounds: seq<nat>)
    requires k < ChildCount(d) && Holds(ts, i, RenderFrom(d, k, i))
    requires end == i + |RenderFrom(d, k, i)| && end < |ts| && ts[end].tokenType == Closer
    requires compounds != [] && (OwnLines(o, ts, compounds[|compounds| - 1]) <==> Own(o, d))
    ensures ChildIsHeld(o, ts, d, k, i, compounds)
    ensures var next := i + |Piece(d, k, i)|;
            Holds(ts, next, RenderFrom(d, k + 1, next)) && end == next + |RenderFrom(d, k + 1, next)|
  {
    PieceHeld(ts, i, d, k, i);
    NextToken(ts, d, k, i);
  }

  /** A closer follows the last child, a comma any other. */
  lemma NextToken(ts: seq<JsonToken>, d: Datum, k: nat, i: nat)
    requires k < ChildCount(d) && Holds(ts, i, RenderFrom(d, k, i))
    requires var end := i + |RenderFrom(d, k, i)|; end < |ts| && ts[end].tokenType == Closer
    ensures var next := i + |Piece(d, k, i)|;
            next < |ts| && (ts[next].tokenType == Closer <==> k + 1 == ChildCount(d))
  {
    var next := i + |Piece(d, k, i)|;
    PieceHeld(ts, i, d, k, i);
    if k + 1 < ChildCount(d) {
      PieceHeld(ts, next, d, k + 1, next);
      assert LeadIn(d, k + 1)[0] == Comma;
    }
  }

  lemma LeadInPrints(o: Options, ts: seq<JsonToken>, d: Datum, k: nat, i: nat, page: Page, compounds: seq<nat>)
    requires k < ChildCount(d) && Holds(ts, i, LeadIn(d, k)) && i + |LeadIn(d, k)| < |ts|
    requires compounds != [] && (OwnLines(o, ts, compounds[|compounds| - 1]) <==> Own(o, d)) && page.indent >= 0
    ensures Prints(o, ts, i, i + |LeadIn(d, k)|, OnPage(page, compounds), OnPage(Keyed(o, d, k, page), compounds))
  {
    var comma := if k > 0 then 1 else 0;
    var lead := LeadIn(d, k);
    var next := if k == 0 then page else if Own(o, d) then page.Put(",").StartLine(o, 0) else page.Put(",").Put(Spaces(o.sepSpaces));
    if k > 0 {
      assert lead[0] == Comma;
      PrintsOne(o, ts, i, OnPage(page, compounds), OnPage(next, compounds));
    }
    if d.Dict? {
      assert lead[comma] == JsonToken(Value, Quoted(d.entries[k].key), false, 0) && lead[comma + 1] == Colon;
      KeyPrints(o, ts, i + comma, d.entries[k].key, next, compounds);
      PrintsJoin(o, ts, i, i + comma, i + comma + 2, OnPage(page, compounds), OnPage(next, compounds), OnPage(Keyed(o, d, k, page), compounds));
    }
  }

  lemma KeyPrints(o: Options, ts: seq<JsonToken>, i: nat, key: string, page: Page, compounds: seq<nat>)
    requires i + 1 < |ts| && ts[i] == JsonToken(Value, Quoted(key), false, 0) && ts[i + 1] == Colon && page.indent >= 0
    ensures Prints(o, ts, i, i + 2, OnPage(page, compounds), OnPage(page.Put(Quoted(key)).Put(":").Put(Spaces(o.sepSpaces)), compounds))
  {
    var named := page.Put(Quoted(key));
    PrintsOne(o, ts, i, OnPage(page, compounds), OnPage(named, compounds));
    PrintsOne(o, ts, i + 1, OnPage(named, compounds), OnPage(named.Put(":").Put(Spaces(o.sepSpaces)), compounds));
    PrintsJoin(o, ts, i, i + 1, i + 2, OnPage(page, compounds), OnPage(named, compounds),
               OnPage(named.Put(":").Put(Spaces(o.sepSpaces)), compounds));
  }

  /** On the tokens of a tree the printer never throws, never indents below zero, prints the
      layout of the tree, and ends at the indentation of the compounds without children. */
  lemma TreePrints(o: Options, d: Datum)
    ensures var page := LaidOut(o, d, Page(0, ""));
            && Prints(o, Tokens(d), 0, |Tokens(d)|, Start, PrintState(page.indent, [], page.out))
            && page.indent == if o.sameLineElements then 0 else Empties(d)
  {
    LayoutIndent(o, d, Page(0, ""));
    NodePrints(o, Tokens(d), d, 0, Page(0, ""), []);
  }
}
