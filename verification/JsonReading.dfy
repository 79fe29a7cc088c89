/** Reading the token list of Holder/DTJsonSerializer back: the object and array grammar of
    sections 4 and 5 of RFC 8259 over tokens, and the round trip with the generator. */
module JsonReading {
  import opened DataTree
  import opened JsonTokens

  /** A tree as far as JSON shows it; members of an array have no name. */
  datatype Shape = Scalar(text: string) | Members(isDict: bool, members: seq<Member>)
  datatype Member = Member(name: string, value: Shape)

  datatype Parse<T> = Fail | Parsed(value: T, next: nat)

  function ShapeOf(d: Datum): Shape
    decreases d, 1
  {
    match d
    case Element(text) => Scalar(text)
    case Object(repr) => Scalar(ObjectText(repr))
    case _ => Members(d.Dict?, seq(ChildCount(d), k requires 0 <= k < ChildCount(d) => MemberOf(d, k)))
  }

  function MemberOf(d: Datum, k: nat): Member
    requires k < ChildCount(d)
    decreases d, 0
  {
    Member(if d.Dict? then Quoted(d.entries[k].key) else "", ShapeOf(ChildValue(d, k)))
  }

  /** The members from the k-th on. */
  function MembersFrom(d: Datum, k: nat): (r: seq<Member>)
    requires (d.Dict? || d.List?) && k <= ChildCount(d)
    ensures |r| == ChildCount(d) - k
  {
    ShapeOf(d).members[k..]
  }

  lemma NextMember(d: Datum, k: nat)
    requires k < ChildCount(d)
    ensures MembersFrom(d, k) == [MemberOf(d, k)] + MembersFrom(d, k + 1)
  {
  }

  // ----- the grammar -----

  /** What a reader sees of a token. */
  predicate Reads(ts: seq<JsonToken>, i: nat, tokenType: TokenType, text: string) {
    i < |ts| && ts[i].tokenType == tokenType && ts[i].sToken == text
  }

  function Bracket(isDict: bool): string { if isDict then "{" else "[" }

  function ClosingBracket(isDict: bool): string { if isDict then "}" else "]" }

  function Opening(isDict: bool): TokenType { if isDict then DictOpener else ListOpener }

  /** value = scalar | opener closer | opener member tail */
  function ParseValue(ts: seq<JsonToken>, i: nat): (r: Parse<Shape>)
    ensures r.Parsed? ==> i < r.next <= |ts|
    decreases |ts| - i, 0
  {
    if i >= |ts| then Fail
    else if ts[i].tokenType == Value then Parsed(Scalar(ts[i].sToken), i + 1)
    else if Reads(ts, i, DictOpener, "{") then ParseCompound(ts, i + 1, true)
    else if Reads(ts, i, ListOpener, "[") then ParseCompound(ts, i + 1, false)
    else Fail
  }

  /** What follows an opener. */
  function ParseCompound(ts: seq<JsonToken>, i: nat, isDict: bool): (r: Parse<Shape>)
    requires i <= |ts|
    ensures r.Parsed? ==> i < r.next <= |ts|
    decreases |ts| - i, 2
  {
    if Reads(ts, i, Closer, ClosingBracket(isDict)) then Parsed(Members(isDict, []), i + 1)
    else
      var first := ParseMember(ts, i, isDict);
      if first.Fail? then Fail
      else
        var others := ParseTail(ts, first.next, isDict);
        if others.Fail? then Fail else Parsed(Members(isDict, [first.value] + others.value), others.next)
  }

  /** member = value in an array, name ":" value in an object */
  function ParseMember(ts: seq<JsonToken>, i: nat, isDict: bool): (r: Parse<Member>)
    requires i <= |ts|
    ensures r.Parsed? ==> i < r.next <= |ts|
    decreases |ts| - i, 1
  {
    if isDict then
      if i < |ts| && ts[i].tokenType == Value && Reads(ts, i + 1, DictSeparator, ":") then
        var v := ParseValue(ts, i + 2);
        if v.Fail? then Fail else Parsed(Member(ts[i].sToken, v.value), v.next)
      else Fail
    else
      var v := ParseValue(ts, i);
      if v.Fail? then Fail else Parsed(Member("", v.value), v.next)
  }

  /** tail = closer | "," member tail */
  function ParseTail(ts: seq<JsonToken>, i: nat, isDict: bool): (r: Parse<seq<Member>>)
    requires i <= |ts|
    ensures r.Parsed? ==> i < r.next <= |ts|
    decreases |ts| - i, 1
  {
    if Reads(ts, i, Closer, ClosingBracket(isDict)) then Parsed([], i + 1)
    else if Reads(ts, i, ListSeparator, ",") then
      var first := ParseMember(ts, i + 1, isDict);
      if first.Fail? then Fail
      else
        var others := ParseTail(ts, first.next, isDict);
        if others.Fail? then Fail else Parsed([first.value] + others.value, others.next)
    else Fail
  }

  // ----- a shape in a token list -----

  /** How many tokens a shape takes. */
  function Length(s: Shape): nat
    decreases s
  {
    if s.Scalar? then 1 else 1 + LengthInside(s.members, s.isDict)
  }

  function LengthMember(m: Member, isDict: bool): nat
    decreases m
  {
    (if isDict then 2 else 0) + Length(m.value)
  }

  function LengthInside(members: seq<Member>, isDict: bool): nat
    decreases members, 1
  {
    if members == [] then 1 else LengthMember(members[0], isDict) + LengthTail(members[1..], isDict)
  }

  function LengthTail(members: seq<Member>, isDict: bool): nat
    decreases members, 0
  {
    if members == [] then 1 else 1 + LengthMember(members[0], isDict) + LengthTail(members[1..], isDict)
  }

  /** From position i on, ts writes out s as a JSON value. */
  ghost predicate Writes(ts: seq<JsonToken>, i: nat, s: Shape)
    decreases s
  {
    match s
    case Scalar(text) => Reads(ts, i, Value, text)
    case Members(isDict, members) => Reads(ts, i, Opening(isDict), Bracket(isDict)) && WritesInside(ts, i + 1, members, isDict)
  }

  /** Array members have no name. */
  ghost predicate WritesMember(ts: seq<JsonToken>, i: nat, m: Member, isDict: bool)
    decreases m
  {
    if isDict then Reads(ts, i, Value, m.name) && Reads(ts, i + 1, DictSeparator, ":") && Writes(ts, i + 2, m.value)
    else m.name == "" && Writes(ts, i, m.value)
  }

  ghost predicate WritesInside(ts: seq<JsonToken>, i: nat, members: seq<Member>, isDict: bool)
    decreases members, 1
  {
    if members == [] then Reads(ts, i, Closer, ClosingBracket(isDict))
    else WritesMember(ts, i, members[0], isDict) && WritesTail(ts, i + LengthMember(members[0], isDict), members[1..], isDict)
  }

  ghost predicate WritesTail(ts: seq<JsonToken>, i: nat, members: seq<Member>, isDict: bool)
    decreases members, 0
  {
    if members == [] then Reads(ts, i, Closer, ClosingBracket(isDict))
    else
      && Reads(ts, i, ListSeparator, ",") && WritesMember(ts, i + 1, members[0], isDict)
      && WritesTail(ts, i + 1 + LengthMember(members[0], isDict), members[1..], isDict)
  }

  // ----- what is written reads back -----

  lemma {:induction false} WrittenIsRead(ts: seq<JsonToken>, i: nat, s: Shape)
    requires Writes(ts, i, s)
    ensures ParseValue(ts, i) == Parsed(s, i + Length(s))
    decreases s
  {
    if s.Members? { InsideIsRead(ts, i + 1, s.members, s.isDict); }
  }

  lemma {:induction false} InsideIsRead(ts: seq<JsonToken>, i: nat, members: seq<Member>, isDict: bool)
    requires WritesInside(ts, i, members, isDict)
    ensures i <= |ts| && ParseCompound(ts, i, isDict) == Parsed(Members(isDict, members), i + LengthInside(members, isDict))
    decreases members, 1
  {
    if members != [] {
      MemberIsRead(ts, i, members[0], isDict);
      TailIsRead(ts, i + LengthMember(members[0], isDict), members[1..], isDict);
      assert [members[0]] + members[1..] == members;
    }
  }

  lemma {:induction false} MemberIsRead(ts: seq<JsonToken>, i: nat, m: Member, isDict: bool)
    requires WritesMember(ts, i, m, isDict)
    ensures i <= |ts| && ParseMember(ts, i, isDict) == Parsed(m, i + LengthMember(m, isDict))
    ensures !Reads(ts, i, Closer, ClosingBracket(isDict))
    decreases m
  {
    WrittenIsRead(ts, if isDict then i + 2 else i, m.value);
  }

  lemma {:induction false} TailIsRead(ts: seq<JsonToken>, i: nat, members: seq<Member>, isDict: bool)
    requires WritesTail(ts, i, members, isDict)
    ensures i <= |ts| && ParseTail(ts, i, isDict) == Parsed(members, i + LengthTail(members, isDict))
    decreases members, 0
  {
    if members != [] {
      MemberIsRead(ts, i + 1, members[0], isDict);
      TailIsRead(ts, i + 1 + LengthMember(members[0], isDict), members[1..], isDict);
      assert [members[0]] + members[1..] == members;
    }
  }

  // ----- nothing else is read -----

  lemma {:induction false} ReadIsWritten(ts: seq<JsonToken>, i: nat)
    requires ParseValue(ts, i).Parsed?
    ensures var r := ParseValue(ts, i); r.next == i + Length(r.value) && Writes(ts, i, r.value)
    decreases |ts| - i, 0
  {
    if ts[i].tokenType != Value { CompoundIsWritten(ts, i + 1, Reads(ts, i, DictOpener, "{")); }
  }

  lemma {:induction false} CompoundIsWritten(ts: seq<JsonToken>, i: nat, isDict: bool)
    requires i <= |ts| && ParseCompound(ts, i, isDict).Parsed?
    ensures var r := ParseCompound(ts, i, isDict);
            && r.value.Members? && r.value.isDict == isDict
            && r.next == i + LengthInside(r.value.members, isDict) && WritesInside(ts, i, r.value.members, isDict)
    decreases |ts| - i, 2
  {
    if !Reads(ts, i, Closer, ClosingBracket(isDict)) {
      var first := ParseMember(ts, i, isDict);
      var others := ParseTail(ts, first.next, isDict);
      MemberIsWritten(ts, i, isDict);
      TailIsWritten(ts, first.next, isDict);
      assert ([first.value] + others.value)[1..] == others.value;
    }
  }

  lemma {:induction false} MemberIsWritten(ts: seq<JsonToken>, i: nat, isDict: bool)
    requires i <= |ts| && ParseMember(ts, i, isDict).Parsed?
    ensures var r := ParseMember(ts, i, isDict); r.next == i + LengthMember(r.value, isDict) && WritesMember(ts, i, r.value, isDict)
    decreases |ts| - i, 1
  {
    ReadIsWritten(ts, if isDict then i + 2 else i);
  }

  lemma {:induction false} TailIsWritten(ts: seq<JsonToken>, i: nat, isDict: bool)
    requires i <= |ts| && ParseTail(ts, i, isDict).Parsed?
    ensures var r := ParseTail(ts, i, isDict); r.next == i + LengthTail(r.value, isDict) && WritesTail(ts, i, r.value, isDict)
    decreases |ts| - i, 1
  {
    if !Reads(ts, i, Closer, ClosingBracket(isDict)) {
      var first := ParseMember(ts, i + 1, isDict);
      var others := ParseTail(ts, first.next, isDict);
      MemberIsWritten(ts, i + 1, isDict);
      TailIsWritten(ts, first.next, isDict);
      assert ([first.value] + others.value)[1..] == others.value;
    }
  }

  // ----- the generator writes the shape -----

  /** ts holds the tokens part from position i on. */
  ghost predicate Holds(ts: seq<JsonToken>, i: nat, part: seq<JsonToken>) {
    i + |part| <= |ts| && forall j {:trigger part[j]} :: 0 <= j < |part| ==> ts[i + j] == part[j]
  }

  lemma HoldsSplit(ts: seq<JsonToken>, i: nat, a: seq<JsonToken>, b: seq<JsonToken>)
    requires Holds(ts, i, a + b)
    ensures Holds(ts, i, a) && Holds(ts, i + |a|, b)
  {
    forall j | 0 <= j < |a| ensures ts[i + j] == a[j] {
      assert (a + b)[j] == a[j];
    }
    forall j | 0 <= j < |b| ensures ts[i + |a| + j] == b[j] {
      assert (a + b)[|a| + j] == b[j];
    }
  }

  lemma HoldsOne(ts: seq<JsonToken>, i: nat, t: JsonToken)
    requires Holds(ts, i, [t])
    ensures i < |ts| && ts[i] == t
  {
    assert [t][0] == t;
  }

  lemma {:induction false} RenderWrites(ts: seq<JsonToken>, i: nat, d: Datum, base: nat)
    requires Holds(ts, i, Render(d, base))
    ensures Writes(ts, i, ShapeOf(d)) && Length(ShapeOf(d)) == |Render(d, base)|
    decreases d, 1, 0
  {
    if d.Dict? || d.List? {
      var inner := RenderFrom(d, 0, base + 1);
      var opener := FinalOpener(d).(idxComplement := base + 1 + |inner|);
      RenderIs(d, base, inner);
      BracketsHeld(ts, i, opener, inner, CloserFor(OpenerOf(d), base));
      RenderFromWrites(ts, i + 1, d, 0, base + 1, i + 1 + |inner|);
      assert MembersFrom(d, 0) == ShapeOf(d).members;
    } else {
      HoldsOne(ts, i, Render(d, base)[0]);
    }
  }

  lemma BracketsHeld(ts: seq<JsonToken>, i: nat, opener: JsonToken, inner: seq<JsonToken>, closer: JsonToken)
    requires Holds(ts, i, [opener] + inner + [closer])
    ensures Holds(ts, i + 1, inner) && i + 1 + |inner| < |ts| && ts[i] == opener && ts[i + 1 + |inner|] == closer
  {
    HoldsSplit(ts, i, [opener] + inner, [closer]);
    HoldsSplit(ts, i, [opener], inner);
    HoldsOne(ts, i, opener);
    HoldsOne(ts, i + 1 + |inner|, closer);
  }

  /** The parts of a compound's tokens. */
  lemma CompoundHeld(ts: seq<JsonToken>, i: nat, d: Datum)
    requires (d.Dict? || d.List?) && Holds(ts, i, Render(d, i))
    ensures var c := i + |Render(d, i)| - 1;
            && i < c < |ts| && c == i + 1 + |RenderFrom(d, 0, i + 1)| && Holds(ts, i + 1, RenderFrom(d, 0, i + 1))
            && ts[i] == FinalOpener(d).(idxComplement := c) && ts[c] == CloserFor(OpenerOf(d), i)
  {
    var inner := RenderFrom(d, 0, i + 1);
    RenderIs(d, i, inner);
    BracketsHeld(ts, i, FinalOpener(d).(idxComplement := i + 1 + |inner|), inner, CloserFor(OpenerOf(d), i));
  }

  /** The members from the k-th on, with the closer, take length tokens from position i on. */
  ghost predicate WritesFrom(ts: seq<JsonToken>, i: nat, d: Datum, k: nat, length: nat)
    requires (d.Dict? || d.List?) && k <= ChildCount(d)
  {
    var members := MembersFrom(d, k);
    if k == 0 then WritesInside(ts, i, members, d.Dict?) && LengthInside(members, d.Dict?) == length
    else WritesTail(ts, i, members, d.Dict?) && LengthTail(members, d.Dict?) == length
  }

  lemma {:induction false} RenderFromWrites(ts: seq<JsonToken>, i: nat, d: Datum, k: nat, base: nat, end: nat)
    requires (d.Dict? || d.List?) && k <= ChildCount(d)
    requires Holds(ts, i, RenderFrom(d, k, base)) && end == i + |RenderFrom(d, k, base)| && Reads(ts, end, Closer, ClosingBracket(d.Dict?))
    ensures WritesFrom(ts, i, d, k, end + 1 - i)
    decreases d, 0, ChildCount(d) - k, 1
  {
    if k < ChildCount(d) {
      var next := i + |Piece(d, k, base)|;
      ChildWrites(ts, i, d, k, base);
      RenderFromWrites(ts, next, d, k + 1, base + |Piece(d, k, base)|, end);
      PieceWrites(ts, i, d, k, end + 1 - next);
    }
  }

  lemma PieceWrites(ts: seq<JsonToken>, i: nat, d: Datum, k: nat, rest: nat)
    requires k < ChildCount(d) && Holds(ts, i, LeadIn(d, k))
    requires var next := i + |LeadIn(d, k)|; var child := ShapeOf(ChildValue(d, k));
             Writes(ts, next, child) && WritesFrom(ts, next + Length(child), d, k + 1, rest)
    ensures WritesFrom(ts, i, d, k, |LeadIn(d, k)| + Length(ShapeOf(ChildValue(d, k))) + rest)
  {
    LeadInWrites(ts, i, d, k);
    AddMember(ts, i, MemberOf(d, k), MembersFrom(d, k + 1), d.Dict?, k == 0);
    NextMember(d, k);
  }

  lemma {:induction false} ChildWrites(ts: seq<JsonToken>, i: nat, d: Datum, k: nat, base: nat)
    requires k < ChildCount(d) && Holds(ts, i, RenderFrom(d, k, base))
    ensures Holds(ts, i, LeadIn(d, k)) && Writes(ts, i + |LeadIn(d, k)|, ShapeOf(ChildValue(d, k)))
    ensures |Piece(d, k, base)| == |LeadIn(d, k)| + Length(ShapeOf(ChildValue(d, k)))
    ensures Holds(ts, i + |Piece(d, k, base)|, RenderFrom(d, k + 1, base + |Piece(d, k, base)|))
    ensures |RenderFrom(d, k, base)| == |Piece(d, k, base)| + |RenderFrom(d, k + 1, base + |Piece(d, k, base)|)|
    decreases d, 0, ChildCount(d) - k, 0
  {
    PieceHeld(ts, i, d, k, base);
    RenderWrites(ts, i + |LeadIn(d, k)|, ChildValue(d, k), base + |LeadIn(d, k)|);
  }

  lemma PieceHeld(ts: seq<JsonToken>, i: nat, d: Datum, k: nat, base: nat)
    requires k < ChildCount(d) && Holds(ts, i, RenderFrom(d, k, base))
    ensures Holds(ts, i, LeadIn(d, k)) && Holds(ts, i + |LeadIn(d, k)|, Render(ChildValue(d, k), base + |LeadIn(d, k)|))
    ensures Holds(ts, i + |Piece(d, k, base)|, RenderFrom(d, k + 1, base + |Piece(d, k, base)|))
    ensures |RenderFrom(d, k, base)| == |Piece(d, k, base)| + |RenderFrom(d, k + 1, base + |Piece(d, k, base)|)|
  {
    var piece := Piece(d, k, base);
    HoldsSplit(ts, i, piece, RenderFrom(d, k + 1, base + |piece|));
    HoldsSplit(ts, i, LeadIn(d, k), Render(ChildValue(d, k), base + |LeadIn(d, k)|));
  }

  lemma AddMember(ts: seq<JsonToken>, i: nat, m: Member, others: seq<Member>, isDict: bool, first: bool)
    requires first || Reads(ts, i, ListSeparator, ",")
    requires var at := if first then i else i + 1;
             WritesMember(ts, at, m, isDict) && WritesTail(ts, at + LengthMember(m, isDict), others, isDict)
    ensures first ==>
              && WritesInside(ts, i, [m] + others, isDict)
              && LengthInside([m] + others, isDict) == LengthMember(m, isDict) + LengthTail(others, isDict)
    ensures !first ==>
              && WritesTail(ts, i, [m] + others, isDict)
              && LengthTail([m] + others, isDict) == 1 + LengthMember(m, isDict) + LengthTail(others, isDict)
  {
    assert ([m] + others)[1..] == others;
  }

  lemma LeadInWrites(ts: seq<JsonToken>, i: nat, d: Datum, k: nat)
    requires k < ChildCount(d) && Holds(ts, i, LeadIn(d, k)) && Writes(ts, i + |LeadIn(d, k)|, ShapeOf(ChildValue(d, k)))
    ensures k > 0 ==> Reads(ts, i, ListSeparator, ",")
    ensures WritesMember(ts, if k > 0 then i + 1 else i, MemberOf(d, k), d.Dict?)
  {
    var lead := LeadIn(d, k);
    if d.Dict? {
      assert lead[|lead| - 2] == JsonToken(Value, Quoted(d.entries[k].key), false, 0);
      assert lead[|lead| - 1] == Colon;
    }
    assert k > 0 ==> lead[0] == Comma;
  }

  // ----- the round trip -----

  /** Token types and texts agree; the generator's annotations need not. */
  ghost predicate ReadAlike(ts: seq<JsonToken>, us: seq<JsonToken>) {
    |ts| == |us| && forall i {:trigger ts[i]} {:trigger us[i]} :: 0 <= i < |ts| ==> ts[i].tokenType == us[i].tokenType && ts[i].sToken == us[i].sToken
  }

  lemma {:induction false} AlikeWrites(ts: seq<JsonToken>, us: seq<JsonToken>, i: nat, s: Shape)
    requires ReadAlike(ts, us) && Writes(ts, i, s)
    ensures Writes(us, i, s)
    decreases s
  {
    if s.Members? { AlikeInside(ts, us, i + 1, s.members, s.isDict); }
  }

  lemma {:induction false} AlikeInside(ts: seq<JsonToken>, us: seq<JsonToken>, i: nat, members: seq<Member>, isDict: bool)
    requires ReadAlike(ts, us) && WritesInside(ts, i, members, isDict)
    ensures WritesInside(us, i, members, isDict)
    decreases members, 1
  {
    if members != [] {
      AlikeMember(ts, us, i, members[0], isDict);
      AlikeTail(ts, us, i + LengthMember(members[0], isDict), members[1..], isDict);
    }
  }

  lemma {:induction false} AlikeMember(ts: seq<JsonToken>, us: seq<JsonToken>, i: nat, m: Member, isDict: bool)
    requires ReadAlike(ts, us) && WritesMember(ts, i, m, isDict)
    ensures WritesMember(us, i, m, isDict)
    decreases m
  {
    AlikeWrites(ts, us, if isDict then i + 2 else i, m.value);
  }

  lemma {:induction false} AlikeTail(ts: seq<JsonToken>, us: seq<JsonToken>, i: nat, members: seq<Member>, isDict: bool)
    requires ReadAlike(ts, us) && WritesTail(ts, i, members, isDict)
    ensures WritesTail(us, i, members, isDict)
    decreases members, 0
  {
    if members != [] {
      AlikeMember(ts, us, i + 1, members[0], isDict);
      AlikeTail(ts, us, i + 1 + LengthMember(members[0], isDict), members[1..], isDict);
    }
  }

  /** The same tokens, from position from up to position to. */
  ghost predicate AlikeBetween(ts: seq<JsonToken>, us: seq<JsonToken>, from: nat, to: nat) {
    forall i {:trigger ts[i]} {:trigger us[i]} :: from <= i < to && i < |ts| && i < |us| ==> ts[i].tokenType == us[i].tokenType && ts[i].sToken == us[i].sToken
  }

  lemma {:induction false} WrittenOneWay(ts: seq<JsonToken>, us: seq<JsonToken>, i: nat, s: Shape)
    requires Writes(ts, i, s) && Writes(us, i, s)
    ensures AlikeBetween(ts, us, i, i + Length(s))
    decreases s
  {
    if s.Members? { InsideOneWay(ts, us, i + 1, s.members, s.isDict); }
  }

  lemma {:induction false} InsideOneWay(ts: seq<JsonToken>, us: seq<JsonToken>, i: nat, members: seq<Member>, isDict: bool)
    requires WritesInside(ts, i, members, isDict) && WritesInside(us, i, members, isDict)
    ensures AlikeBetween(ts, us, i, i + LengthInside(members, isDict))
    decreases members, 1
  {
    if members != [] {
      MemberOneWay(ts, us, i, members[0], isDict);
      TailOneWay(ts, us, i + LengthMember(members[0], isDict), members[1..], isDict);
    }
  }

  lemma {:induction false} MemberOneWay(ts: seq<JsonToken>, us: seq<JsonToken>, i: nat, m: Member, isDict: bool)
    requires WritesMember(ts, i, m, isDict) && WritesMember(us, i, m, isDict)
    ensures AlikeBetween(ts, us, i, i + LengthMember(m, isDict))
    decreases m
  {
    WrittenOneWay(ts, us, if isDict then i + 2 else i, m.value);
  }

  lemma {:induction false} TailOneWay(ts: seq<JsonToken>, us: seq<JsonToken>, i: nat, members: seq<Member>, isDict: bool)
    requires WritesTail(ts, i, members, isDict) && WritesTail(us, i, members, isDict)
    ensures AlikeBetween(ts, us, i, i + LengthTail(members, isDict))
    decreases members, 0
  {
    if members != [] {
      MemberOneWay(ts, us, i + 1, members[0], isDict);
      TailOneWay(ts, us, i + 1 + LengthMember(members[0], isDict), members[1..], isDict);
    }
  }

  /** A token list reads as the tree exactly if it reads like the generator's own list. */
  lemma TokensRoundTrip(ts: seq<JsonToken>, d: Datum)
    ensures ParseValue(ts, 0) == Parsed(ShapeOf(d), |ts|) <==> ReadAlike(ts, Tokens(d))
  {
    RenderWrites(Tokens(d), 0, d, 0);
    ReadsAsShape(ts, Tokens(d), ShapeOf(d));
  }

  lemma ReadsAsShape(ts: seq<JsonToken>, us: seq<JsonToken>, s: Shape)
    requires Writes(us, 0, s) && Length(s) == |us|
    ensures ParseValue(ts, 0) == Parsed(s, |ts|) <==> ReadAlike(ts, us)
  {
    if ReadAlike(ts, us) {
      AlikeWrites(us, ts, 0, s);
      WrittenIsRead(ts, 0, s);
    }
    if ParseValue(ts, 0) == Parsed(s, |ts|) {
      ReadIsWritten(ts, 0);
      WrittenOneWay(ts, us, 0, s);
    }
  }

  // ----- the annotations depend on the shape alone -----

  lemma {:induction false} SameShapeRenders(a: Datum, b: Datum, base: nat)
    requires ShapeOf(a) == ShapeOf(b)
    ensures Render(a, base) == Render(b, base)
    decreases a, 1, 0
  {
    if a.Dict? || a.List? {
      SameCount(a, b);
      SameShapeFrom(a, b, 0, base + 1);
      SameCompounds(a, b);
      RenderIs(a, base, RenderFrom(a, 0, base + 1));
      RenderIs(b, base, RenderFrom(b, 0, base + 1));
    }
  }

  lemma SameCompounds(a: Datum, b: Datum)
    requires (a.Dict? || a.List?) && ShapeOf(a) == ShapeOf(b)
    ensures ChildCount(a) == ChildCount(b) && (CompoundBefore(a, ChildCount(a)) <==> CompoundBefore(b, ChildCount(b)))
  {
    SameCount(a, b);
    forall i | 0 <= i < ChildCount(a) ensures NonEmptyCompound(ChildValue(a, i)) <==> NonEmptyCompound(ChildValue(b, i)) {
      SameMember(a, b, i);
      SameCount(ChildValue(a, i), ChildValue(b, i));
    }
  }

  lemma SameCount(a: Datum, b: Datum)
    requires ShapeOf(a) == ShapeOf(b)
    ensures ChildCount(a) == ChildCount(b)
  {
    assert a.Dict? || a.List? ==> |ShapeOf(a).members| == ChildCount(a);
    assert b.Dict? || b.List? ==> |ShapeOf(b).members| == ChildCount(b);
  }

  lemma SameMember(a: Datum, b: Datum, k: nat)
    requires ShapeOf(a) == ShapeOf(b) && k < ChildCount(a) && k < ChildCount(b)
    ensures LeadIn(a, k) == LeadIn(b, k) && ShapeOf(ChildValue(a, k)) == ShapeOf(ChildValue(b, k))
  {
    assert ShapeOf(a).members[k] == MemberOf(a, k) && ShapeOf(b).members[k] == MemberOf(b, k);
  }

  lemma {:induction false} SameShapeFrom(a: Datum, b: Datum, k: nat, base: nat)
    requires (a.Dict? || a.List?) && ShapeOf(a) == ShapeOf(b) && k <= ChildCount(a) == ChildCount(b)
    ensures RenderFrom(a, k, base) == RenderFrom(b, k, base)
    decreases a, 0, ChildCount(a) - k
  {
    if k < ChildCount(a) {
      SameMember(a, b, k);
      SameShapeRenders(ChildValue(a, k), ChildValue(b, k), base + |LeadIn(a, k)|);
      SameShapeFrom(a, b, k + 1, base + |Piece(a, k, base)|);
    }
  }

  /** Two trees have the same tokens exactly if JSON shows no difference between them. */
  lemma TokensInjective(a: Datum, b: Datum)
    ensures Tokens(a) == Tokens(b) <==> ShapeOf(a) == ShapeOf(b)
  {
    if Tokens(a) == Tokens(b) {
      TokensRoundTrip(Tokens(a), a);
      TokensRoundTrip(Tokens(b), b);
    }
    if ShapeOf(a) == ShapeOf(b) {
      SameShapeRenders(a, b, 0);
    }
  }
}
