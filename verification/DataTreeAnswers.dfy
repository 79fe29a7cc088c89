/** Holder/DTUtils: what the walk does with each answer of the serializer, told by the events
    alone. */
module DataTreeAnswers {
  import opened DataTree

  predicate Arrives(e: Event) { e.OnElement? || e.OnObject? || e.OnDict? || e.OnList? }

  /** What follows the n-th event. After Break, nothing. A compound with elements that is
      entered goes on with its first key, or with its first item. A key that is entered goes on
      with its value, one that is skipped with the next key, or with the end. */
  predicate Obeyed(answer: Serializer, log: seq<Event>, n: nat)
    requires n < |log|
  {
    var last := n == |log| - 1;
    match log[n]
    case EndCompound => true   // nobody looks at this answer
    case OnDictKey(_) =>
      (match answer(log[..n + 1])
       case Break => last
       case Skip => !last && (log[n + 1].OnDictKey? || log[n + 1] == EndCompound)
       case Enter => !last && Arrives(log[n + 1]))
    case OnDict(_, hasElements) =>
      (match answer(log[..n + 1])
       case Break => last
       case Skip => true
       case Enter => hasElements ==> !last && log[n + 1].OnDictKey?)
    case OnList(_, hasElements) =>
      (match answer(log[..n + 1])
       case Break => last
       case Skip => true
       case Enter => hasElements ==> !last && Arrives(log[n + 1]))
    case _ => answer(log[..n + 1]) == Break ==> last
  }

  ghost predicate AllObeyed(answer: Serializer, log: seq<Event>, lo: nat) {
    forall n: nat {:trigger Obeyed(answer, log, n)} :: lo <= n < |log| ==> Obeyed(answer, log, n)
  }

  /** The last event was answered with Break. */
  predicate BrokenOff(answer: Serializer, log: seq<Event>) {
    log != [] && log[|log| - 1] != EndCompound && answer(log) == Break
  }

  lemma ObeyedJoin(answer: Serializer, part: seq<Event>, whole: seq<Event>, lo: nat)
    requires lo < |part| && part <= whole && !BrokenOff(answer, part)
    requires AllObeyed(answer, part, lo) && AllObeyed(answer, whole, |part|)
    ensures AllObeyed(answer, whole, lo)
  {
    forall n: nat | lo <= n < |whole| ensures Obeyed(answer, whole, n) {
      if n < |part| {
        assert whole[..n + 1] == part[..n + 1] && Obeyed(answer, part, n);
        assert n == |part| - 1 ==> part[..n + 1] == part;
      }
    }
  }

  /** One event, and then what follows it. */
  lemma ObeyedFirst(answer: Serializer, log: seq<Event>, e: Event, whole: seq<Event>)
    requires log + [e] <= whole && AllObeyed(answer, whole, |log| + 1)
    requires Obeyed(answer, whole, |log|)
    ensures AllObeyed(answer, whole, |log|)
  {
  }

  /** From its arrival on, the walk of a node obeys every answer, and fails exactly if it was
      broken off. */
  lemma {:induction false} PreorderObeys(answer: Serializer, d: Datum, log: seq<Event>)
    ensures var r := Preorder(answer, d, log);
            && log + [ArrivalOf(d)] <= r.log && AllObeyed(answer, r.log, |log|)
            && (r.ok <==> !BrokenOff(answer, r.log))
    decreases d, 1, 0
  {
    var arrived := log + [ArrivalOf(d)];
    var r := Preorder(answer, d, log);
    assert arrived[..|log| + 1] == arrived;
    if answer(arrived) == Enter && ChildCount(d) > 0 {
      InsideObeys(answer, d, 0, arrived);
      assert r.log[..|log| + 1] == arrived;
      ObeyedFirst(answer, log, ArrivalOf(d), r.log);
    }
  }

  /** The event that leads in the k-th child, or ends the compound. */
  ghost predicate LeadsIn(d: Datum, k: nat, e: Event) {
    if k >= ChildCount(d) then e == EndCompound
    else if d.Dict? then e == OnDictKey(d.entries[k].key)
    else e == ArrivalOf(ChildValue(d, k))
  }

  lemma {:induction false} InsideObeys(answer: Serializer, d: Datum, k: nat, log: seq<Event>)
    requires k <= ChildCount(d)
    ensures var r := Inside(answer, d, k, log);
            && |log| < |r.log| && log <= r.log && LeadsIn(d, k, r.log[|log|]) && AllObeyed(answer, r.log, |log|)
            && (r.ok <==> !BrokenOff(answer, r.log))
    decreases d, 0, ChildCount(d) - k, 0
  {
    var r := Inside(answer, d, k, log);
    if k < ChildCount(d) && d.Dict? {
      var keyed := log + [OnDictKey(d.entries[k].key)];
      assert keyed[..|log| + 1] == keyed;
      if answer(keyed) != Break {
        if answer(keyed) == Skip {
          InsideObeys(answer, d, k + 1, keyed);
        } else {
          ChildObeys(answer, d, k, keyed);
        }
        assert r.log[..|log| + 1] == keyed;
        ObeyedFirst(answer, log, keyed[|log|], r.log);
      }
    } else if k < ChildCount(d) {
      ChildObeys(answer, d, k, log);
    }
  }

  lemma {:induction false} ChildObeys(answer: Serializer, d: Datum, k: nat, log: seq<Event>)
    requires k < ChildCount(d)
    ensures var visited := Preorder(answer, ChildValue(d, k), log);
            var r := if visited.ok then Inside(answer, d, k + 1, visited.log) else visited;
            && log + [ArrivalOf(ChildValue(d, k))] <= r.log && AllObeyed(answer, r.log, |log|)
            && (r.ok <==> !BrokenOff(answer, r.log))
    decreases d, 0, ChildCount(d) - k - 1, 1
  {
    var visited := Preorder(answer, ChildValue(d, k), log);
    PreorderObeys(answer, ChildValue(d, k), log);
    if visited.ok {
      InsideObeys(answer, d, k + 1, visited.log);
      ObeyedJoin(answer, visited.log, Inside(answer, d, k + 1, visited.log).log, |log|);
    }
  }
}
