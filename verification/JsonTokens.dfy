/** Holder/DTJsonSerializer: the token generator, which turns the events of a walk into a
    token list; what it produces for a tree; and reading such a list back.
    Objects and arrays are those of sections 4 and 5 of RFC 8259; leaf texts are opaque. */
module JsonTokens {
  import opened Collections
  import opened DataTree

  datatype TokenType = Value | DictOpener | ListOpener | Closer | ListSeparator | DictSeparator

  datatype JsonToken = JsonToken(tokenType: TokenType, sToken: string, hasCompounds: bool, idxComplement: nat)

  predicate IsOpener(t: JsonToken) { t.tokenType == DictOpener || t.tokenType == ListOpener }

  function Quoted(s: string): string { "\"" + s + "\"" }

  function ObjectText(repr: Option<string>): string {
    Quoted(if repr.Some? then repr.value else "<repr-error>")
  }

  function OpenerOf(d: Datum): JsonToken {
    if d.Dict? then JsonToken(DictOpener, "{", false, 0) else JsonToken(ListOpener, "[", false, 0)
  }

  function CloserFor(opener: JsonToken, idx: nat): JsonToken {
    JsonToken(Closer, if opener.tokenType == ListOpener then "]" else "}", false, idx)
  }

  const Comma := JsonToken(ListSeparator, ",", false, 0)
  const Colon := JsonToken(DictSeparator, ":", false, 0)

  // ----- the generator -----

  /** tokens so far, positions of the openers still open, and whether no comma is due. */
  datatype State = State(tokens: seq<JsonToken>, openers: seq<nat>, first: bool)

  const Empty := State([], [], true)

  predicate CanEnd(g: State) {
    && g.openers != [] && g.openers[|g.openers| - 1] < |g.tokens|
    && IsOpener(g.tokens[g.openers[|g.openers| - 1]])
  }

  function Separated(g: State): seq<JsonToken> {
    if g.first then g.tokens else g.tokens + [Comma]
  }

  function Marked(tokens: seq<JsonToken>, openers: seq<nat>): seq<JsonToken> {
    if openers != [] && openers[|openers| - 1] < |tokens|
    then tokens[openers[|openers| - 1] := tokens[openers[|openers| - 1]].(hasCompounds := true)]
    else tokens
  }

  function Leaf(g: State, text: string): State {
    State(Separated(g) + [JsonToken(Value, text, false, 0)], g.openers, false)
  }

  function Compound(g: State, opener: JsonToken, hasElements: bool): State {
    var tokens := Separated(g) + [opener];
    var at := |tokens| - 1;
    if hasElements then State(Marked(tokens, g.openers), g.openers + [at], true)
    else State(tokens[at := opener.(idxComplement := at + 1)] + [CloserFor(opener, at)], g.openers, false)
  }

  function Ended(g: State): State
    requires CanEnd(g)
  {
    var at := g.openers[|g.openers| - 1];
    State(g.tokens[at := g.tokens[at].(idxComplement := |g.tokens|)] + [CloserFor(g.tokens[at], at)],
          g.openers[..|g.openers| - 1], false)
  }

  /** What one event does to the generator; None where it throws. */
  function Step(g: State, e: Event): Option<State> {
    match e
    case OnElement(d) => if d.Element? then Some(Leaf(g, d.text)) else None
    case OnObject(d) => if d.Object? then Some(Leaf(g, ObjectText(d.repr))) else None
    case OnDict(_, hasElements) => Some(Compound(g, JsonToken(DictOpener, "{", false, 0), hasElements))
    case OnList(_, hasElements) => Some(Compound(g, JsonToken(ListOpener, "[", false, 0), hasElements))
    case OnDictKey(key) => Some(State(Separated(g) + [JsonToken(Value, Quoted(key), false, 0), Colon], g.openers, true))
    case EndCompound => if CanEnd(g) then Some(Ended(g)) else None
  }

  function Run(g: State, events: seq<Event>): Option<State>
    decreases |events|
  {
    if events == [] then Some(g)
    else
      var next := Step(g, events[0]);
      if next.Some? then Run(next.value, events[1..]) else None
  }

  class DTJsonTokenGenerator {
    var tokenList: seq<JsonToken>
    var openerStack: seq<nat>
    var firstElement: bool

    function Abstract(): State reads this { State(tokenList, openerStack, firstElement) }

    /** Every open opener is a position of the token list. */
    ghost predicate Valid() reads this {
      forall k :: 0 <= k < |openerStack| ==> openerStack[k] < |tokenList| && IsOpener(tokenList[openerStack[k]])
    }

    constructor ()
      ensures Valid() && Abstract() == Empty
    {
      tokenList, openerStack, firstElement := [], [], true;
    }

    method AddSeparator()
      modifies this`tokenList
      ensures tokenList == old(tokenList) + [Comma]
    {
      tokenList := tokenList + [Comma];
    }

    method SeparateNext()
      requires Valid()
      modifies this`tokenList, this`firstElement
      ensures Valid() && tokenList == Separated(old(Abstract())) && !firstElement
      ensures tokenList == old(tokenList) + if old(firstElement) then [] else [JsonToken(ListSeparator, ",", false, 0)]
    {
      if firstElement {
        firstElement := false;
      } else {
        AddSeparator();
      }
    }

    method PushLevel()
      requires Valid() && tokenList != [] && IsOpener(tokenList[|tokenList| - 1])
      modifies this
      ensures Valid() && Abstract() == State(Marked(old(tokenList), old(openerStack)), old(openerStack) + [|old(tokenList)| - 1], true)
    {
      if openerStack != [] {
        var at := openerStack[|openerStack| - 1];
        tokenList := tokenList[at := tokenList[at].(hasCompounds := true)];
      }
      openerStack := openerStack + [|tokenList| - 1];
      firstElement := true;
    }

    /** ok is false where the source throws. */
    method PopLevel() returns (ok: bool)
      requires Valid()
      modifies this
      ensures Valid() && (ok <==> CanEnd(old(Abstract())))
      ensures Abstract() == if ok then Ended(old(Abstract())) else old(Abstract())
      ensures ok <==> old(openerStack) != []
      ensures ok ==>
                var n, depth := |old(tokenList)|, |old(openerStack)|;
                var at := old(openerStack)[depth - 1];
                && |tokenList| == n + 1 && openerStack == old(openerStack)[..depth - 1] && !firstElement && at < n
                && tokenList[n] == JsonToken(Closer, if old(tokenList)[at].tokenType == ListOpener then "]" else "}", false, at)
                && tokenList[at] == old(tokenList)[at].(idxComplement := n)
    {
      if openerStack == [] {
        return false;
      }
      var openerIdx := openerStack[|openerStack| - 1];
      var opener := tokenList[openerIdx];
      tokenList := tokenList[openerIdx := opener.(idxComplement := |tokenList|)];
      var closerText := if opener.tokenType == ListOpener then "]" else "}";
      tokenList := tokenList + [JsonToken(Closer, closerText, false, openerIdx)];
      openerStack := openerStack[..|openerStack| - 1];
      firstElement := false;
      ok := true;
    }

    method OnCompound(opener: JsonToken, hasElements: bool)
      requires Valid() && IsOpener(opener) && !opener.hasCompounds && opener.idxComplement == 0
      modifies this
      ensures Valid() && Abstract() == Compound(old(Abstract()), opener, hasElements)
      ensures var at := |old(tokenList)| + if old(firstElement) then 0 else 1;
              && at < |tokenList| && tokenList[at].tokenType == opener.tokenType && tokenList[at].sToken == opener.sToken
              && if hasElements then |tokenList| == at + 1 && openerStack == old(openerStack) + [at] && firstElement
                 else
                   && |tokenList| == at + 2 && openerStack == old(openerStack) && !firstElement && tokenList[at].idxComplement == at + 1
                   && tokenList[at + 1] == JsonToken(Closer, if opener.tokenType == ListOpener then "]" else "}", false, at)
    {
      SeparateNext();
      tokenList := tokenList + [opener];
      if hasElements {
        PushLevel();
      } else {
        var at := |tokenList| - 1;
        tokenList := tokenList[at := tokenList[at].(idxComplement := |tokenList|)];
        tokenList := tokenList + [CloserFor(opener, at)];
      }
    }

    method OnLeaf(text: string)
      requires Valid()
      modifies this
      ensures Valid() && Abstract() == Leaf(old(Abstract()), text)
      ensures tokenList == old(tokenList) + (if old(firstElement) then [] else [JsonToken(ListSeparator, ",", false, 0)])
                           + [JsonToken(Value, text, false, 0)]
      ensures !firstElement && openerStack == old(openerStack)
    {
      SeparateNext();
      tokenList := tokenList + [JsonToken(Value, text, false, 0)];
    }

    method OnDictKey(key: string)
      requires Valid()
      modifies this
      ensures Valid() && Some(Abstract()) == Step(old(Abstract()), Event.OnDictKey(key))
      ensures tokenList == old(tokenList) + (if old(firstElement) then [] else [JsonToken(ListSeparator, ",", false, 0)])
                           + [JsonToken(Value, "\"" + key + "\"", false, 0), JsonToken(DictSeparator, ":", false, 0)]
      ensures firstElement && openerStack == old(openerStack)
    {
      SeparateNext();
      tokenList := tokenList + [JsonToken(Value, Quoted(key), false, 0)];
      tokenList := tokenList + [Colon];
      firstElement := true;
      assert tokenList == Separated(old(Abstract())) + [JsonToken(Value, Quoted(key), false, 0), Colon];
    }

    /** Any event, dispatched to its callback. */
    method Handle(e: Event) returns (ok: bool)
      requires Valid()
      modifies this
      ensures Valid() && (ok <==> Step(old(Abstract()), e).Some?)
      ensures ok ==> Some(Abstract()) == Step(old(Abstract()), e)
      ensures var n := |tokenList|;
              var at := |old(tokenList)| + if old(firstElement) then 0 else 1;
              match e
              case OnElement(d) => (ok <==> d.Element?) && (ok ==> n == at + 1 && tokenList[at] == JsonToken(Value, d.text, false, 0))
              case OnObject(d) => (ok <==> d.Object?) && (ok ==>
                n == at + 1 && tokenList[at] == JsonToken(Value, "\"" + (if d.repr.Some? then d.repr.value else "<repr-error>") + "\"", false, 0))
              case OnDict(_, _) => ok && at < n && tokenList[at].tokenType == DictOpener && tokenList[at].sToken == "{"
              case OnList(_, _) => ok && at < n && tokenList[at].tokenType == ListOpener && tokenList[at].sToken == "["
              case OnDictKey(key) =>
                ok && n == at + 2 && tokenList[at].sToken == "\"" + key + "\"" && tokenList[at + 1].sToken == ":"
              case EndCompound => ok <==> old(openerStack) != []
    {
      ok := true;
      match e
      case OnElement(d) => if d.Element? { OnLeaf(d.text); } else { ok := false; }
      case OnObject(d) => if d.Object? { OnLeaf(ObjectText(d.repr)); } else { ok := false; }
      case OnDict(_, hasElements) => OnCompound(JsonToken(DictOpener, "{", false, 0), hasElements);
      case OnList(_, hasElements) => OnCompound(JsonToken(ListOpener, "[", false, 0), hasElements);
      case OnDictKey(key) => OnDictKey(key);
      case EndCompound => ok := PopLevel();
    }
  }

  // ----- the tokens of a tree -----

  predicate NonEmptyCompound(d: Datum) { ChildCount(d) > 0 }

  /** Some child before the k-th is a non-empty compound. */
  predicate CompoundBefore(d: Datum, k: nat)
    requires k <= ChildCount(d)
  {
    exists i :: 0 <= i < k && NonEmptyCompound(ChildValue(d, i))
  }

  /** The tokens of d when they start at position base of the list. */
  function Render(d: Datum, base: nat): seq<JsonToken>
    decreases d, 1, 0
  {
    match d
    case Element(text) => [JsonToken(Value, text, false, 0)]
    case Object(repr) => [JsonToken(Value, ObjectText(repr), false, 0)]
    case _ =>
      var inner := RenderFrom(d, 0, base + 1);
      var opener := OpenerOf(d).(hasCompounds := CompoundBefore(d, ChildCount(d)), idxComplement := base + 1 + |inner|);
      [opener] + inner + [CloserFor(opener, base)]
  }

  function LeadIn(d: Datum, k: nat): seq<JsonToken>
    requires k < ChildCount(d)
  {
    (if k > 0 then [Comma] else []) + (if d.Dict? then [JsonToken(Value, Quoted(d.entries[k].key), false, 0), Colon] else [])
  }

  /** The lead-in and the tokens of the k-th child. */
  function Piece(d: Datum, k: nat, base: nat): seq<JsonToken>
    requires k < ChildCount(d)
    decreases d, 0, ChildCount(d) - k, 0
  {
    LeadIn(d, k) + Render(ChildValue(d, k), base + |LeadIn(d, k)|)
  }

  /** The children of d from the k-th on. */
  function RenderFrom(d: Datum, k: nat, base: nat): seq<JsonToken>
    requires k <= ChildCount(d)
    decreases d, 0, ChildCount(d) - k, 1
  {
    if k == ChildCount(d) then []
    else
      var piece := Piece(d, k, base);
      piece + RenderFrom(d, k + 1, base + |piece|)
  }

  function Tokens(d: Datum): seq<JsonToken> { Render(d, 0) }

  // ----- the events of a tree -----

  /** The generator always answers Enter. */
  const AlwaysEnter: Serializer := (log: seq<Event>) => Enter

  function EventsOf(d: Datum): seq<Event>
    decreases d, 1, 0
  {
    [ArrivalOf(d)] + if ChildCount(d) > 0 then EventsFrom(d, 0) else []
  }

  function EventsFrom(d: Datum, k: nat): seq<Event>
    requires k <= ChildCount(d)
    decreases d, 0, ChildCount(d) - k
  {
    if k == ChildCount(d) then [EndCompound]
    else KeyEvents(d, k) + EventsOf(ChildValue(d, k)) + EventsFrom(d, k + 1)
  }

  function KeyEvents(d: Datum, k: nat): seq<Event>
    requires k < ChildCount(d)
  {
    if d.Dict? then [Event.OnDictKey(d.entries[k].key)] else []
  }

  lemma {:induction false} WalkIsEvents(d: Datum, log: seq<Event>)
    ensures Preorder(AlwaysEnter, d, log) == Outcome(true, log + EventsOf(d))
    decreases d, 1, 0
  {
    var arrived := log + [ArrivalOf(d)];
    if ChildCount(d) > 0 {
      InsideIsEvents(d, 0, arrived);
      assert arrived + EventsFrom(d, 0) == log + EventsOf(d);
    } else {
      assert arrived == log + EventsOf(d);
    }
  }

  lemma {:induction false} InsideIsEvents(d: Datum, k: nat, log: seq<Event>)
    requires k <= ChildCount(d)
    ensures Inside(AlwaysEnter, d, k, log) == Outcome(true, log + EventsFrom(d, k))
    decreases d, 0, ChildCount(d) - k
  {
    if k < ChildCount(d) {
      WalkIsEvents(ChildValue(d, k), log + KeyEvents(d, k));
      InsideNext(d, k, log);
      InsideIsEvents(d, k + 1, log + KeyEvents(d, k) + EventsOf(ChildValue(d, k)));
      Regroup(log, KeyEvents(d, k), EventsOf(ChildValue(d, k)), EventsFrom(d, k + 1));
    }
  }

  lemma Regroup<T>(a: seq<T>, b: seq<T>, c: seq<T>, e: seq<T>)
    ensures a + b + c + e == a + (b + c + e)
  {
  }

  lemma InsideNext(d: Datum, k: nat, log: seq<Event>)
    requires k < ChildCount(d)
    requires Preorder(AlwaysEnter, ChildValue(d, k), log + KeyEvents(d, k)) == Outcome(true, log + KeyEvents(d, k) + EventsOf(ChildValue(d, k)))
    ensures Inside(AlwaysEnter, d, k, log) == Inside(AlwaysEnter, d, k + 1, log + KeyEvents(d, k) + EventsOf(ChildValue(d, k)))
  {
    assert d.List? ==> log + KeyEvents(d, k) == log;
  }

  // ----- the generator produces exactly the tokens of the tree -----

  lemma {:induction false} RunConcat(g: State, a: seq<Event>, b: seq<Event>)
    ensures Run(g, a + b) == if Run(g, a).Some? then Run(Run(g, a).value, b) else None
    decreases |a|
  {
    if a == [] {
      assert a + b == b;
    } else {
      assert (a + b)[1..] == a[1..] + b;
      var next := Step(g, a[0]);
      if next.Some? { RunConcat(next.value, a[1..], b); }
    }
  }

  lemma RunOne(g: State, e: Event)
    ensures Run(g, [e]) == Step(g, e)
  {
    assert [e][1..] == [];
  }

  predicate OpenersOk(g: State) {
    forall k :: 0 <= k < |g.openers| ==> g.openers[k] < |g.tokens|
  }

  function Lead(g: State): seq<JsonToken> {
    if g.first then [] else [Comma]
  }

  /** g with the tokens of one more node; compound: the node marks the opener around it. */
  function Appended(g: State, compound: bool, node: seq<JsonToken>): State {
    State((if compound then Marked(g.tokens, g.openers) else g.tokens) + Lead(g) + node, g.openers, false)
  }

  /** The state after the events of d. */
  function After(g: State, d: Datum): State {
    Appended(g, NonEmptyCompound(d), Render(d, |g.tokens| + |Lead(g)|))
  }

  /** g, inside a compound, once the tokens inner and the closer are there; opener: what the
      compound's opener finally says, but for its complement. */
  function Closed(g: State, opener: JsonToken, inner: seq<JsonToken>): State
    requires g.openers != [] && g.openers[|g.openers| - 1] < |g.tokens|
  {
    var at := g.openers[|g.openers| - 1];
    State(g.tokens[at := opener.(idxComplement := |g.tokens| + |inner|)] + inner + [CloserFor(opener, at)],
          g.openers[..|g.openers| - 1], false)
  }

  function FinalOpener(d: Datum): JsonToken {
    OpenerOf(d).(hasCompounds := CompoundBefore(d, ChildCount(d)))
  }

  /** d's opener is the innermost open one, and knows of the children before the k-th. */
  predicate Within(g: State, d: Datum, k: nat)
    requires k <= ChildCount(d)
  {
    && OpenersOk(g) && g.openers != []
    && g.tokens[g.openers[|g.openers| - 1]] == OpenerOf(d).(hasCompounds := CompoundBefore(d, k))
    && (g.first <==> k == 0)
  }

  /** After the key of the k-th child, if there is one. */
  function KeyedState(g: State, d: Datum, k: nat): State
    requires k < ChildCount(d)
  {
    if d.Dict? then State(Separated(g) + [JsonToken(Value, Quoted(d.entries[k].key), false, 0), Colon], g.openers, true) else g
  }

  /** The generator along the tree: what Run does with the events of d. */
  function Generated(g: State, d: Datum): Option<State>
    decreases d, 1, 0
  {
    var arrived := Step(g, ArrivalOf(d));
    if arrived.Some? && ChildCount(d) > 0 then GeneratedFrom(arrived.value, d, 0) else arrived
  }

  function GeneratedFrom(g: State, d: Datum, k: nat): Option<State>
    requires k <= ChildCount(d)
    decreases d, 0, ChildCount(d) - k
  {
    if k == ChildCount(d) then Step(g, EndCompound)
    else
      var child := Generated(KeyedState(g, d, k), ChildValue(d, k));
      if child.Some? then GeneratedFrom(child.value, d, k + 1) else None
  }

  lemma {:induction false} RunFollowsTree(g: State, d: Datum)
    ensures Run(g, EventsOf(d)) == Generated(g, d)
    decreases d, 1, 0
  {
    RunOne(g, ArrivalOf(d));
    if ChildCount(d) > 0 {
      RunConcat(g, [ArrivalOf(d)], EventsFrom(d, 0));
      if Step(g, ArrivalOf(d)).Some? { RunFollowsFrom(Step(g, ArrivalOf(d)).value, d, 0); }
    } else {
      assert EventsOf(d) == [ArrivalOf(d)];
    }
  }

  lemma {:induction false} RunFollowsFrom(g: State, d: Datum, k: nat)
    requires k <= ChildCount(d)
    ensures Run(g, EventsFrom(d, k)) == GeneratedFrom(g, d, k)
    decreases d, 0, ChildCount(d) - k
  {
    if k == ChildCount(d) {
      RunEnd(g, d);
    } else {
      var child := Generated(KeyedState(g, d, k), ChildValue(d, k));
      RunFollowsTree(KeyedState(g, d, k), ChildValue(d, k));
      RunChild(g, d, k);
      GeneratedNext(g, d, k, child);
      if child.Some? { RunFollowsFrom(child.value, d, k + 1); }
    }
  }

  lemma RunEnd(g: State, d: Datum)
    ensures Run(g, EventsFrom(d, ChildCount(d))) == GeneratedFrom(g, d, ChildCount(d))
  {
    RunOne(g, EndCompound);
  }

  lemma GeneratedNext(g: State, d: Datum, k: nat, child: Option<State>)
    requires k < ChildCount(d) && child == Generated(KeyedState(g, d, k), ChildValue(d, k))
    ensures GeneratedFrom(g, d, k) == if child.Some? then GeneratedFrom(child.value, d, k + 1) else None
  {
  }

  lemma RunChild(g: State, d: Datum, k: nat)
    requires k < ChildCount(d)
    ensures var child := Run(KeyedState(g, d, k), EventsOf(ChildValue(d, k)));
            Run(g, EventsFrom(d, k)) == if child.Some? then Run(child.value, EventsFrom(d, k + 1)) else None
  {
    RunKey(g, d, k);
    RunConcat(g, KeyEvents(d, k), EventsOf(ChildValue(d, k)));
    RunConcat(g, KeyEvents(d, k) + EventsOf(ChildValue(d, k)), EventsFrom(d, k + 1));
  }

  lemma RunKey(g: State, d: Datum, k: nat)
    requires k < ChildCount(d)
    ensures Run(g, KeyEvents(d, k)) == Some(KeyedState(g, d, k))
  {
    if d.Dict? { RunOne(g, Event.OnDictKey(d.entries[k].key)); }
  }

  lemma {:induction false} NodeGenerates(g: State, d: Datum)
    requires OpenersOk(g)
    ensures Generated(g, d) == Some(After(g, d))
    decreases d, 1, 0
  {
    if ChildCount(d) == 0 {
      if d.Dict? || d.List? {
        EmptyCompound(g, d);
      } else {
        LeafGenerates(g, d);
      }
    } else {
      var g1 := Compound(g, OpenerOf(d), true);
      OpenedWithin(g, d);
      InsideGenerates(g1, d, 0);
      CompoundGenerates(g, d, Closed(g1, FinalOpener(d), RenderFrom(d, 0, |g1.tokens|)));
      ClosedIsAfter(g, d);
    }
  }

  lemma CompoundGenerates(g: State, d: Datum, closed: State)
    requires ChildCount(d) > 0 && GeneratedFrom(Compound(g, OpenerOf(d), true), d, 0) == Some(closed)
    ensures Generated(g, d) == Some(closed)
  {
  }

  lemma ClosedIsAfter(g: State, d: Datum)
    requires OpenersOk(g) && ChildCount(d) > 0
    ensures var g1 := Compound(g, OpenerOf(d), true);
            && OpenersOk(g1) && g1.openers != []
            && Closed(g1, FinalOpener(d), RenderFrom(d, 0, |g1.tokens|)) == After(g, d)
  {
    OpenedWithin(g, d);
    ClosedWith(g, d, RenderFrom(d, 0, |g.tokens| + |Lead(g)| + 1));
  }

  lemma ClosedWith(g: State, d: Datum, inner: seq<JsonToken>)
    requires OpenersOk(g) && ChildCount(d) > 0 && inner == RenderFrom(d, 0, |g.tokens| + |Lead(g)| + 1)
    ensures var g1 := Compound(g, OpenerOf(d), true);
            OpenersOk(g1) && g1.openers != [] && Closed(g1, FinalOpener(d), inner) == After(g, d)
  {
    OpenThenClose(g, OpenerOf(d), FinalOpener(d), inner);
    AfterIs(g, d, inner);
  }

  lemma AfterIs(g: State, d: Datum, inner: seq<JsonToken>)
    requires ChildCount(d) > 0 && inner == RenderFrom(d, 0, |g.tokens| + |Lead(g)| + 1)
    ensures var at := |g.tokens| + |Lead(g)|;
            After(g, d) == Appended(g, true, [FinalOpener(d).(idxComplement := at + 1 + |inner|)] + inner + [CloserFor(OpenerOf(d), at)])
  {
    var at := |g.tokens| + |Lead(g)|;
    RenderIs(d, at, inner);
    AfterNode(g, d, [FinalOpener(d).(idxComplement := at + 1 + |inner|)] + inner + [CloserFor(OpenerOf(d), at)]);
  }

  lemma AfterNode(g: State, d: Datum, node: seq<JsonToken>)
    requires ChildCount(d) > 0 && node == Render(d, |g.tokens| + |Lead(g)|)
    ensures After(g, d) == Appended(g, true, node)
  {
    assert NonEmptyCompound(d);
  }

  lemma LeafGenerates(g: State, d: Datum)
    requires d.Element? || d.Object?
    ensures Generated(g, d) == Some(After(g, d))
  {
    assert Step(g, ArrivalOf(d)).value == After(g, d);
  }

  lemma RenderIs(d: Datum, at: nat, inner: seq<JsonToken>)
    requires (d.Dict? || d.List?) && inner == RenderFrom(d, 0, at + 1)
    ensures Render(d, at) == [FinalOpener(d).(idxComplement := at + 1 + |inner|)] + inner + [CloserFor(OpenerOf(d), at)]
  {
  }

  lemma EmptyCompound(g: State, d: Datum)
    requires (d.Dict? || d.List?) && ChildCount(d) == 0
    ensures Step(g, ArrivalOf(d)) == Some(After(g, d))
  {
    var at := |g.tokens| + |Lead(g)|;
    RenderIs(d, at, []);
    assert Separated(g) == g.tokens + Lead(g);
    assert !CompoundBefore(d, 0);
    var opener := OpenerOf(d).(idxComplement := at + 1);
    assert (Separated(g) + [OpenerOf(d)])[at := opener] == Separated(g) + [opener];
    assert [opener] + [] + [CloserFor(OpenerOf(d), at)] == [opener] + [CloserFor(OpenerOf(d), at)];
    assert Separated(g) + [opener] + [CloserFor(OpenerOf(d), at)] == g.tokens + Lead(g) + ([opener] + [CloserFor(OpenerOf(d), at)]);
  }

  lemma OpenedWithin(g: State, d: Datum)
    requires OpenersOk(g) && ChildCount(d) > 0
    ensures Within(Compound(g, OpenerOf(d), true), d, 0)
    ensures |Compound(g, OpenerOf(d), true).tokens| == |g.tokens| + |Lead(g)| + 1
  {
    CompoundTokens(g, OpenerOf(d));
    assert !CompoundBefore(d, 0);
  }

  lemma MarkedAppend(tokens: seq<JsonToken>, openers: seq<nat>, more: seq<JsonToken>)
    requires openers != [] ==> openers[|openers| - 1] < |tokens|
    ensures Marked(tokens + more, openers) == Marked(tokens, openers) + more
  {
  }

  lemma CompoundTokens(g: State, opener: JsonToken)
    requires OpenersOk(g)
    ensures var g1 := Compound(g, opener, true);
            && g1.tokens == Marked(g.tokens, g.openers) + Lead(g) + [opener]
            && g1.openers == g.openers + [|g.tokens| + |Lead(g)|] && g1.first
            && OpenersOk(g1) && |Marked(g.tokens, g.openers)| == |g.tokens|
  {
    assert Separated(g) == g.tokens + Lead(g);
    MarkedAppend(g.tokens, g.openers, Lead(g));
    MarkedAppend(g.tokens + Lead(g), g.openers, [opener]);
  }

  /** Opening a compound, filling it and closing it appends one node. */
  lemma OpenThenClose(g: State, opener: JsonToken, final: JsonToken, inner: seq<JsonToken>)
    requires OpenersOk(g) && opener.tokenType == final.tokenType
    ensures var g1 := Compound(g, opener, true);
            var at := |g.tokens| + |Lead(g)|;
            && OpenersOk(g1) && g1.openers != []
            && Closed(g1, final, inner) == Appended(g, true, [final.(idxComplement := at + 1 + |inner|)] + inner + [CloserFor(opener, at)])
  {
    CompoundTokens(g, opener);
    var at := |g.tokens| + |Lead(g)|;
    var g1 := Compound(g, opener, true);
    assert g1.openers[..|g1.openers| - 1] == g.openers;
    ReplaceLast(Marked(g.tokens, g.openers) + Lead(g), opener, final.(idxComplement := at + 1 + |inner|), inner, [CloserFor(opener, at)]);
  }

  lemma ReplaceLast(front: seq<JsonToken>, a: JsonToken, b: JsonToken, inner: seq<JsonToken>, closer: seq<JsonToken>)
    ensures (front + [a])[|front| := b] + inner + closer == front + ([b] + inner + closer)
  {
    assert (front + [a])[|front| := b] == front + [b];
  }

  lemma {:induction false} InsideGenerates(g: State, d: Datum, k: nat)
    requires (d.Dict? || d.List?) && k <= ChildCount(d) && Within(g, d, k)
    ensures GeneratedFrom(g, d, k) == Some(Closed(g, FinalOpener(d), RenderFrom(d, k, |g.tokens|)))
    decreases d, 0, ChildCount(d) - k
  {
    if k == ChildCount(d) {
      assert Ended(g) == Closed(g, FinalOpener(d), []);
    } else {
      var g1 := KeyedState(g, d, k);
      ChildKeepsWithin(g, d, k);
      NodeGenerates(g1, ChildValue(d, k));
      InsideGenerates(After(g1, ChildValue(d, k)), d, k + 1);
      CloseChild(g, d, k, g1, After(g1, ChildValue(d, k)));
    }
  }

  lemma CloseChild(g: State, d: Datum, k: nat, g1: State, g2: State)
    requires k < ChildCount(d) && Within(g, d, k) && g1 == KeyedState(g, d, k) && g2 == After(g1, ChildValue(d, k))
    requires OpenersOk(g2) && g2.openers != []
    ensures Closed(g2, FinalOpener(d), RenderFrom(d, k + 1, |g2.tokens|)) == Closed(g, FinalOpener(d), RenderFrom(d, k, |g.tokens|))
  {
    ChildTokens(g, d, k, g1);
    var rest := RenderFrom(d, k + 1, |g2.tokens|);
    assert RenderFrom(d, k, |g.tokens|) == Piece(d, k, |g.tokens|) + rest;
    CloseAfterMore(g, g2, FinalOpener(d), Piece(d, k, |g.tokens|), rest);
  }

  lemma ChildKeepsWithin(g: State, d: Datum, k: nat)
    requires k < ChildCount(d) && Within(g, d, k)
    ensures OpenersOk(KeyedState(g, d, k))
    ensures Within(After(KeyedState(g, d, k), ChildValue(d, k)), d, k + 1)
  {
    assert CompoundBefore(d, k + 1) <==> CompoundBefore(d, k) || NonEmptyCompound(ChildValue(d, k));
  }

  /** g2: g with more behind it and perhaps a mark on the innermost opener. */
  predicate Extends(g: State, g2: State, more: seq<JsonToken>)
    requires OpenersOk(g) && g.openers != []
  {
    var at := g.openers[|g.openers| - 1];
    && |g2.tokens| == |g.tokens| + |more| && g2.openers == g.openers
    && g2.tokens[..|g.tokens|][at := g.tokens[at]] == g.tokens
    && g2.tokens[|g.tokens|..] == more
  }

  lemma CloseAfterMore(g: State, g2: State, opener: JsonToken, more: seq<JsonToken>, rest: seq<JsonToken>)
    requires OpenersOk(g) && g.openers != [] && Extends(g, g2, more)
    ensures Closed(g2, opener, rest) == Closed(g, opener, more + rest)
  {
    var at := g.openers[|g.openers| - 1];
    SpliceOpener(g2.tokens, g.tokens, at, opener.(idxComplement := |g2.tokens| + |rest|), more, rest, [CloserFor(opener, at)]);
  }

  /** Rewriting the opener commutes with what was appended behind it. */
  lemma SpliceOpener(m: seq<JsonToken>, n: seq<JsonToken>, at: nat, opener: JsonToken, mid: seq<JsonToken>, rest: seq<JsonToken>, closer: seq<JsonToken>)
    requires at < |n| && |m| == |n| + |mid|
    requires m[..|n|][at := n[at]] == n && m[|n|..] == mid
    ensures m[at := opener] + rest + closer == n[at := opener] + (mid + rest) + closer
  {
    assert m == m[..|n|] + mid;
    assert m[..|n|][at := opener] == n[at := opener] by {
      forall i | 0 <= i < |n| && i != at ensures m[i] == n[i] {
        assert m[..|n|][at := n[at]][i] == n[i];
      }
    }
    assert m[at := opener] == n[at := opener] + mid;
  }

  /** Key and separator together are the lead-in of the child. */
  lemma KeyedTokens(g: State, d: Datum, k: nat, lead: seq<JsonToken>)
    requires k < ChildCount(d) && Within(g, d, k) && lead == LeadIn(d, k)
    ensures var g1 := KeyedState(g, d, k);
            && g1.openers == g.openers && g.tokens <= g1.tokens
            && g1.tokens[|g.tokens|..] + Lead(g1) == lead
  {
    if d.Dict? {
      assert KeyedState(g, d, k).tokens == g.tokens + lead;
    } else {
      assert g.tokens[|g.tokens|..] == [];
    }
  }

  lemma ChildTokens(g: State, d: Datum, k: nat, g1: State)
    requires k < ChildCount(d) && Within(g, d, k) && g1 == KeyedState(g, d, k)
    ensures Extends(g, After(g1, ChildValue(d, k)), Piece(d, k, |g.tokens|))
  {
    KeyedTokens(g, d, k, LeadIn(d, k));
    assert |g1.tokens| + |Lead(g1)| == |g.tokens| + |LeadIn(d, k)|;
    AppendExtends(g, g1, LeadIn(d, k), NonEmptyCompound(ChildValue(d, k)), Render(ChildValue(d, k), |g.tokens| + |LeadIn(d, k)|));
  }

  /** The tokens after one child, up to the mark on the enclosing opener. */
  lemma AppendExtends(g: State, g1: State, lead: seq<JsonToken>, compound: bool, node: seq<JsonToken>)
    requires OpenersOk(g) && g.openers != []
    requires g1.openers == g.openers && g.tokens <= g1.tokens && g1.tokens[|g.tokens|..] + Lead(g1) == lead
    ensures Extends(g, Appended(g1, compound, node), lead + node)
  {
    var key := g1.tokens[|g.tokens|..];
    assert g1.tokens == g.tokens + key;
    MarkedAppend(g.tokens, g.openers, key);
    var marked := if compound then Marked(g.tokens, g.openers) else g.tokens;
    assert marked + key + Lead(g1) + node == marked + (lead + node);
  }

  /** Serialising a tree, walk and generator together, yields exactly Tokens. */
  lemma SerialisationYieldsTokens(d: Datum)
    ensures Preorder(AlwaysEnter, d, []).ok
    ensures Run(Empty, Preorder(AlwaysEnter, d, []).log) == Some(State(Tokens(d), [], false))
  {
    WalkIsEvents(d, []);
    assert [] + EventsOf(d) == EventsOf(d);
    RunFollowsTree(Empty, d);
    NodeGenerates(Empty, d);
    assert After(Empty, d).tokens == Tokens(d);
  }

  /** The whole pipeline: walk the tree, then feed the generator. */
  method SerialiseToTokens(root: Datum) returns (ok: bool, tokens: seq<JsonToken>)
    ensures ok && tokens == Tokens(root)
  {
    var walked, log := SerializeDataTree(root, AlwaysEnter);
    SerialisationYieldsTokens(root);
    var generator := new DTJsonTokenGenerator();
    var rest := log;
    while rest != []
      invariant generator.Valid() && fresh(generator)
      invariant Run(generator.Abstract(), rest) == Some(State(Tokens(root), [], false))
      decreases |rest|
    {
      ok := generator.Handle(rest[0]);
      rest := rest[1..];
    }
    ok := walked;
    tokens := generator.tokenList;
  }
}
