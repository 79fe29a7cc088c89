/** Holder/MessageDequeDispatcher: three deques filled by any thread under one mutex, and the
    batches in which one thread empties them. Every region guarded by the mutex, every atomic
    operation and every private step is one atomic step; the steps interleave freely, so posts
    may come at any time, from a listener's callback too. A receiver is removed only by someone
    who was given its ID. The counters start at 0. */
module MessageDispatcher {
  import opened Collections
  import Runs

  type ReceiverID = nat
  type Message = nat

  /** at: the place among all posts, kept for the proofs. */
  datatype Envelope = Envelope(receiver: ReceiverID, message: Message, at: nat)

  datatype Post = PostedSend(receiver: ReceiverID, message: Message) | PostedCreate(receiver: ReceiverID) | PostedRemove(receiver: ReceiverID)

  /** taken: how many posts there were when the batch took the deques. */
  datatype Dispatch = Dispatch(envelope: Envelope, taken: nat, delivered: bool)

  datatype Phase = Idle | Running(budget: nat)

  const SIZE_MAX: nat := 0xffff_ffff_ffff_ffff

  /** Index 0 is the front of a deque. inFlight: sends counted but not yet queued. reserved:
      IDs handed out whose creation is not yet queued. posts, taken, known, gone, dispatched:
      histories, of posts in the order of the mutex, of receivers created and removed, and of
      messages processed. */
  datatype State = State(
    queue: seq<Envelope>, createQueue: seq<ReceiverID>, removeQueue: seq<ReceiverID>,
    localQueue: seq<Envelope>, localCreate: seq<ReceiverID>, localRemove: seq<ReceiverID>,
    receivers: set<ReceiverID>, totalSize: int, freeId: ReceiverID, phase: Phase,
    inFlight: nat, reserved: set<ReceiverID>, posts: seq<Post>, taken: nat,
    known: set<ReceiverID>, gone: set<ReceiverID>, dispatched: seq<Dispatch>)

  const Start := State([], [], [], [], [], [], {}, 0, 0, Idle, 0, {}, [], 0, {}, {}, [])

  function Created(posts: seq<Post>): set<ReceiverID> { set p <- posts | p.PostedCreate? :: p.receiver }

  function Removed(posts: seq<Post>): set<ReceiverID> { set p <- posts | p.PostedRemove? :: p.receiver }

  /** The messages posted, in order. */
  function Sent(posts: seq<Post>): seq<Envelope> {
    if posts == [] then []
    else
      var i := |posts| - 1;
      Sent(posts[..i]) + if posts[i].PostedSend? then [Envelope(posts[i].receiver, posts[i].message, i)] else []
  }

  function Rev<T>(q: seq<T>): (r: seq<T>)
    ensures |r| == |q|
  {
    seq(|q|, i requires 0 <= i < |q| => q[|q| - 1 - i])
  }

  // ----- steps -----

  datatype Step =
    | CountSend
    | PushSend(receiver: ReceiverID, message: Message)
    | ReserveID
    | PushCreate(receiver: ReceiverID)
    | PushRemove(receiver: ReceiverID)
    | TakeQueues(msgsToProcess: nat)
    | ActCreate
    | ActRemove
    | ActMessage
    | EndBatch

  predicate Enabled(s: State, step: Step) {
    match step
    case CountSend => true
    case PushSend(_, _) => s.inFlight > 0
    case ReserveID => true
    case PushCreate(r) => r in s.reserved
    case PushRemove(r) => r in Created(s.posts)
    case TakeQueues(_) => s.phase.Idle?
    case ActCreate => s.phase.Running? && s.localCreate != []
    case ActRemove => s.phase.Running? && s.localCreate == [] && s.localRemove != []
    case ActMessage => s.phase.Running? && s.localCreate == [] && s.localRemove == [] && s.localQueue != [] && s.phase.budget > 0
    case EndBatch => s.phase.Running? && s.localCreate == [] && s.localRemove == [] && (s.localQueue == [] || s.phase.budget == 0)
  }

  function Last<T>(q: seq<T>): T
    requires q != []
  {
    q[|q| - 1]
  }

  function Init<T>(q: seq<T>): seq<T>
    requires q != []
  {
    q[..|q| - 1]
  }

  function Apply(s: State, step: Step): State
    requires Enabled(s, step)
  {
    match step
    case CountSend => s.(totalSize := s.totalSize + 1, inFlight := s.inFlight + 1)
    case PushSend(r, m) =>
      s.(queue := [Envelope(r, m, |s.posts|)] + s.queue, inFlight := s.inFlight - 1, posts := s.posts + [PostedSend(r, m)])
    case ReserveID => s.(freeId := s.freeId + 1, reserved := s.reserved + {s.freeId})
    case PushCreate(r) =>
      s.(createQueue := [r] + s.createQueue, reserved := s.reserved - {r}, posts := s.posts + [PostedCreate(r)])
    case PushRemove(r) => s.(removeQueue := [r] + s.removeQueue, posts := s.posts + [PostedRemove(r)])
    case TakeQueues(n) =>
      s.(queue := if s.localQueue == [] then [] else s.queue, localQueue := if s.localQueue == [] then s.queue else s.localQueue,
         createQueue := s.localCreate, localCreate := s.createQueue, removeQueue := s.localRemove, localRemove := s.removeQueue,
         phase := Running(if n > 0 then n else SIZE_MAX), taken := |s.posts|)
    case ActCreate =>
      var r := Last(s.localCreate);
      s.(localCreate := Init(s.localCreate), receivers := s.receivers + {r}, known := s.known + {r})
    case ActRemove =>
      var r := Last(s.localRemove);
      s.(localRemove := Init(s.localRemove), receivers := s.receivers - {r}, gone := s.gone + {r})
    case ActMessage =>
      var e := Last(s.localQueue);
      s.(localQueue := Init(s.localQueue), totalSize := s.totalSize - 1, phase := Running(s.phase.budget - 1),
         dispatched := s.dispatched + [Dispatch(e, s.taken, e.receiver in s.receivers)])
    case EndBatch => s.(phase := Idle)
  }

  // ----- the invariant -----

  function EnvelopesOf(d: seq<Dispatch>): (r: seq<Envelope>)
    ensures |r| == |d|
  {
    seq(|d|, i requires 0 <= i < |d| => d[i].envelope)
  }

  /** Each message posted is where it should be, once, and in order. */
  ghost predicate InOrder(s: State) {
    Sent(s.posts) == EnvelopesOf(s.dispatched) + Rev(s.localQueue) + Rev(s.queue)
  }

  ghost predicate CreatesOk(s: State)
    requires s.taken <= |s.posts|
  {
    && Created(s.posts[..s.taken]) == s.known + Range(s.localCreate)
    && Created(s.posts) == s.known + Range(s.localCreate) + Range(s.createQueue)
    && s.known !! Range(s.localCreate) && s.known + Range(s.localCreate) !! Range(s.createQueue)
    && NoDup(s.localCreate) && NoDup(s.createQueue)
    && (forall r :: r in s.reserved ==> r < s.freeId && r !in Created(s.posts))
    && (forall r :: r in Created(s.posts) ==> r < s.freeId)
  }

  ghost predicate RemovesOk(s: State)
    requires s.taken <= |s.posts|
  {
    && Removed(s.posts[..s.taken]) == s.gone + Range(s.localRemove)
    && Removed(s.posts) == s.gone + Range(s.localRemove) + Range(s.removeQueue)
    && Removed(s.posts) <= Created(s.posts) && Removed(s.posts[..s.taken]) <= Created(s.posts[..s.taken])
    && s.gone <= s.known && s.receivers == s.known - s.gone
  }

  /** A message reaches its receiver iff that was created, and not removed, by the posts
      there were when the batch began. */
  ghost predicate DispatchOk(posts: seq<Post>, d: Dispatch) {
    && d.envelope.at < d.taken <= |posts|
    && (d.delivered <==> d.envelope.receiver in Created(posts[..d.taken]) && d.envelope.receiver !in Removed(posts[..d.taken]))
  }

  ghost predicate Inv(s: State) {
    && s.taken <= |s.posts|
    && s.totalSize == |s.queue| + |s.localQueue| + s.inFlight
    && (s.phase.Idle? ==> s.localCreate == [] && s.localRemove == [])
    && InOrder(s) && CreatesOk(s) && RemovesOk(s)
    && (forall e <- s.localQueue :: e.at < s.taken)
    && (forall d <- s.dispatched :: DispatchOk(s.posts, d))
  }

  // ----- posts -----

  lemma PostsGrow(posts: seq<Post>, p: Post)
    ensures Sent(posts + [p]) == Sent(posts) + if p.PostedSend? then [Envelope(p.receiver, p.message, |posts|)] else []
    ensures Created(posts + [p]) == Created(posts) + if p.PostedCreate? then {p.receiver} else {}
    ensures Removed(posts + [p]) == Removed(posts) + if p.PostedRemove? then {p.receiver} else {}
    ensures forall n :: 0 <= n <= |posts| ==> (posts + [p])[..n] == posts[..n]
  {
    SentGrows(posts, p);
    CreatedByPost(posts, p);
    RemovedByPost(posts, p);
  }

  lemma SentGrows(posts: seq<Post>, p: Post)
    ensures Sent(posts + [p]) == Sent(posts) + if p.PostedSend? then [Envelope(p.receiver, p.message, |posts|)] else []
  {
    assert (posts + [p])[..|posts|] == posts;
  }

  lemma CreatedByPost(posts: seq<Post>, p: Post)
    ensures Created(posts + [p]) == Created(posts) + if p.PostedCreate? then {p.receiver} else {}
  {
    forall r ensures r in Created(posts + [p]) <==> r in Created(posts) || p == PostedCreate(r) {
      BooksOf(posts, r);
      BooksOf(posts + [p], r);
    }
  }

  lemma RemovedByPost(posts: seq<Post>, p: Post)
    ensures Removed(posts + [p]) == Removed(posts) + if p.PostedRemove? then {p.receiver} else {}
  {
    forall r ensures r in Removed(posts + [p]) <==> r in Removed(posts) || p == PostedRemove(r) {
      BooksOf(posts, r);
      BooksOf(posts + [p], r);
    }
  }

  lemma BooksOf(posts: seq<Post>, r: ReceiverID)
    ensures r in Created(posts) <==> PostedCreate(r) in posts
    ensures r in Removed(posts) <==> PostedRemove(r) in posts
  {
    var c, d := PostedCreate(r), PostedRemove(r);
    assert c in posts ==> c.PostedCreate? && c.receiver in Created(posts);
    assert d in posts ==> d.PostedRemove? && d.receiver in Removed(posts);
  }

  lemma {:induction false} SentIsPosted(posts: seq<Post>, e: Envelope)
    requires e in Sent(posts)
    ensures e.at < |posts| && posts[e.at] == PostedSend(e.receiver, e.message)
  {
    if e in Sent(posts[..|posts| - 1]) {
      SentIsPosted(posts[..|posts| - 1], e);
    }
  }

  /** A post that is neither a creation nor a removal leaves the receivers' books alone. */
  lemma DispatchesKept(s: State, p: Post)
    requires forall d <- s.dispatched :: DispatchOk(s.posts, d)
    ensures forall d <- s.dispatched :: DispatchOk(s.posts + [p], d)
  {
    PostsGrow(s.posts, p);
    forall d | d in s.dispatched ensures DispatchOk(s.posts + [p], d) {
      assert DispatchOk(s.posts, d);
      assert (s.posts + [p])[..d.taken] == s.posts[..d.taken];
    }
  }

  lemma RevCons<T>(x: T, q: seq<T>)
    ensures Rev([x] + q) == Rev(q) + [x]
  {
  }

  lemma RevInit<T>(q: seq<T>)
    requires q != []
    ensures Rev(q) == [Last(q)] + Rev(Init(q))
  {
  }

  lemma RangeCons<T>(x: T, q: seq<T>)
    ensures Range([x] + q) == {x} + Range(q)
  {
    assert forall y :: y in [x] + q <==> y == x || y in q;
  }

  lemma RangeInit<T>(q: seq<T>)
    requires q != []
    ensures Range(q) == {Last(q)} + Range(Init(q))
    ensures NoDup(q) ==> NoDup(Init(q)) && Last(q) !in Range(Init(q))
  {
    assert q == Init(q) + [Last(q)];
  }

  // ----- every step keeps the invariant -----

  lemma PushSendKeeps(s: State, r: ReceiverID, m: Message)
    requires Inv(s) && Enabled(s, PushSend(r, m))
    ensures Inv(Apply(s, PushSend(r, m)))
  {
    PostsGrow(s.posts, PostedSend(r, m));
    DispatchesKept(s, PostedSend(r, m));
    RevCons(Envelope(r, m, |s.posts|), s.queue);
  }

  lemma PushCreateKeeps(s: State, r: ReceiverID)
    requires Inv(s) && Enabled(s, PushCreate(r))
    ensures Inv(Apply(s, PushCreate(r)))
  {
    PostsGrow(s.posts, PostedCreate(r));
    DispatchesKept(s, PostedCreate(r));
    RangeCons(r, s.createQueue);
    assert r !in Range(s.createQueue);
  }

  lemma PushRemoveKeeps(s: State, r: ReceiverID)
    requires Inv(s) && Enabled(s, PushRemove(r))
    ensures Inv(Apply(s, PushRemove(r)))
  {
    PostsGrow(s.posts, PostedRemove(r));
    DispatchesKept(s, PostedRemove(r));
    RangeCons(r, s.removeQueue);
  }

  lemma TakeQueuesKeeps(s: State, n: nat)
    requires Inv(s) && Enabled(s, TakeQueues(n))
    ensures Inv(Apply(s, TakeQueues(n)))
  {
    var s' := Apply(s, TakeQueues(n));
    assert s.posts[..|s.posts|] == s.posts;
    assert Range<ReceiverID>([]) == {};
    if s.localQueue == [] {
      assert Rev<Envelope>([]) == [];
      assert EnvelopesOf(s.dispatched) + Rev(s.queue) + [] == EnvelopesOf(s.dispatched) + [] + Rev(s.queue);
      forall e | e in s'.localQueue ensures e.at < s'.taken {
        QueuedIsPosted(s, e);
      }
    }
  }

  lemma QueuedIsPosted(s: State, e: Envelope)
    requires InOrder(s) && e in s.queue
    ensures e.at < |s.posts|
  {
    var i :| 0 <= i < |s.queue| && s.queue[i] == e;
    assert Rev(s.queue)[|s.queue| - 1 - i] == e;
    assert e in Rev(s.queue);
    SentIsPosted(s.posts, e);
  }

  lemma ActCreateKeeps(s: State)
    requires Inv(s) && Enabled(s, ActCreate)
    ensures Inv(Apply(s, ActCreate))
  {
    RangeInit(s.localCreate);
  }

  lemma ActRemoveKeeps(s: State)
    requires Inv(s) && Enabled(s, ActRemove)
    ensures Inv(Apply(s, ActRemove))
  {
    RangeInit(s.localRemove);
    assert Range<ReceiverID>([]) == {};
  }

  lemma ActMessageKeeps(s: State)
    requires Inv(s) && Enabled(s, ActMessage)
    ensures Inv(Apply(s, ActMessage))
  {
    var s' := Apply(s, ActMessage);
    var e := Last(s.localQueue);
    RevInit(s.localQueue);
    assert EnvelopesOf(s'.dispatched) == EnvelopesOf(s.dispatched) + [e];
    assert EnvelopesOf(s.dispatched) + ([e] + Rev(s'.localQueue)) == EnvelopesOf(s'.dispatched) + Rev(s'.localQueue);
    assert Range<ReceiverID>([]) == {};
    assert e in s.localQueue;
    assert DispatchOk(s.posts, Dispatch(e, s.taken, e.receiver in s.receivers));
  }

  lemma StepKeepsInv(s: State, step: Step)
    requires Inv(s) && Enabled(s, step)
    ensures Inv(Apply(s, step))
  {
    match step
    case PushSend(r, m) => PushSendKeeps(s, r, m);
    case PushCreate(r) => PushCreateKeeps(s, r);
    case PushRemove(r) => PushRemoveKeeps(s, r);
    case TakeQueues(n) => TakeQueuesKeeps(s, n);
    case ActCreate => ActCreateKeeps(s);
    case ActRemove => ActRemoveKeeps(s);
    case ActMessage => ActMessageKeeps(s);
    case _ =>
  }

  // ----- every run -----

  ghost predicate Initial(s: State) { s == Start }

  ghost predicate Moves(s: State, step: Step, s': State) { Enabled(s, step) && s' == Apply(s, step) }

  ghost predicate Reachable(s: State) { Runs.Reachable(Initial, Moves, s) }

  lemma StartInv()
    ensures Inv(Start)
  {
    assert Rev<Envelope>([]) == [] && EnvelopesOf([]) == [] && Range<ReceiverID>([]) == {};
  }

  lemma ReachableInv(s: State)
    requires Reachable(s)
    ensures Inv(s)
  {
    StartInv();
    forall s: State, step: Step, s': State | Inv(s) && Moves(s, step, s') ensures Inv(s') {
      StepKeepsInv(s, step);
    }
    Runs.ReachableKeeps(Initial, Moves, Inv, s);
  }

  /** Messages are processed once each, in the order they were posted. */
  lemma ProcessedOnceInOrder(s: State)
    requires Reachable(s)
    ensures EnvelopesOf(s.dispatched) <= Sent(s.posts)
    ensures Sent(s.posts) == EnvelopesOf(s.dispatched) + Rev(s.localQueue) + Rev(s.queue)
    ensures s.totalSize == |s.queue| + |s.localQueue| + s.inFlight
  {
    ReachableInv(s);
  }

  /** A message posted after the creation of its receiver is lost exactly if the removal had
      been posted by the time the batch that processed it began. */
  lemma LostIffRemoved(s: State, d: Dispatch)
    requires Reachable(s) && d in s.dispatched
    requires d.envelope.receiver in Created(s.posts[..Min(d.envelope.at, |s.posts|)])
    ensures d.taken <= |s.posts| && (!d.delivered <==> d.envelope.receiver in Removed(s.posts[..d.taken]))
  {
    ReachableInv(s);
    assert DispatchOk(s.posts, d);
    CreatedGrows(s.posts, d.envelope.at, d.taken);
  }

  function Min(a: nat, b: nat): nat { if a < b then a else b }

  lemma CreatedGrows(posts: seq<Post>, a: nat, b: nat)
    requires a <= b <= |posts|
    ensures Created(posts[..a]) <= Created(posts[..b])
  {
    assert forall p :: p in posts[..a] ==> p in posts[..b];
  }

  /** What an executor finds once an unbounded batch is over: nothing is left but what came
      in the meantime. */
  lemma UnboundedBatchLeavesNothing(s: State)
    requires Reachable(s) && Enabled(s, EndBatch) && s.phase.budget > 0
    ensures s.localQueue == [] && s.totalSize == |s.queue| + s.inFlight
  {
    ReachableInv(s);
  }

  lemma WaitingIsSent(s: State)
    requires Inv(s)
    ensures |s.queue| + |s.localQueue| <= |Sent(s.posts)|
  {
  }

  lemma BatchDone(s: State)
    requires Inv(s) && s.localCreate == [] && s.localRemove == [] && s.taken == |s.posts|
    ensures s.receivers == Created(s.posts) - Removed(s.posts)
    ensures EnvelopesOf(s.dispatched) <= Sent(s.posts)
  {
    assert s.posts[..s.taken] == s.posts && Range<ReceiverID>([]) == {};
  }

  lemma AddLast(rest: set<ReceiverID>, q: seq<ReceiverID>)
    requires q != []
    ensures rest + {Last(q)} + Range(Init(q)) == rest + Range(q)
    ensures Range(q) == {Last(q)} + Range(Init(q))
  {
    RangeInit(q);
  }

  // ----- the dispatcher -----

  class MessageDequeDispatcher {
    var queue: seq<Envelope>
    var createQueue: seq<ReceiverID>
    var removeQueue: seq<ReceiverID>
    var localQueue: seq<Envelope>
    var localCreateQueue: seq<ReceiverID>
    var localRemoveQueue: seq<ReceiverID>
    var receiverMap: set<ReceiverID>
    var totalSize: int
    var freeRcvId: ReceiverID
    var place: nat   // how many posts there were, to number the envelopes
    ghost var histories: State

    ghost function Abstract(): State reads this {
      histories.(queue := queue, createQueue := createQueue, removeQueue := removeQueue, localQueue := localQueue,
                 localCreate := localCreateQueue, localRemove := localRemoveQueue, receivers := receiverMap,
                 totalSize := totalSize, freeId := freeRcvId)
    }

    ghost predicate Valid() reads this { Inv(Abstract()) && place == |histories.posts| }

    constructor ()
      ensures Valid() && Abstract() == Start
    {
      queue, createQueue, removeQueue, localQueue, localCreateQueue, localRemoveQueue := [], [], [], [], [], [];
      receiverMap, totalSize, freeRcvId, place, histories := {}, 0, 0, 0, Start;
      StartInv();
    }

    /** The counter goes up before the message is in the deque. */
    method SendMessage(rcvrId: ReceiverID, message: Message)
      requires Valid()
      modifies this`queue, this`totalSize, this`place, this`histories
      ensures Valid() && Abstract() == Apply(Apply(old(Abstract()), CountSend), PushSend(rcvrId, message))
      ensures queue != [] && queue[0].receiver == rcvrId && queue[0].message == message && queue[1..] == old(queue)
      ensures totalSize == old(totalSize) + 1
    {
      CountMessage();
      PostMessage(rcvrId, message);
    }

    method CountMessage()
      requires Valid()
      modifies this`totalSize, this`histories
      ensures Valid() && Abstract() == Apply(old(Abstract()), CountSend)
      ensures totalSize == old(totalSize) + 1
    {
      StepKeepsInv(Abstract(), CountSend);
      totalSize := totalSize + 1;
      histories := Apply(histories, CountSend);
    }

    method PostMessage(rcvrId: ReceiverID, message: Message)
      requires Valid() && Enabled(Abstract(), PushSend(rcvrId, message))
      modifies this`queue, this`place, this`histories
      ensures Valid() && Abstract() == Apply(old(Abstract()), PushSend(rcvrId, message))
      ensures queue != [] && queue[0].receiver == rcvrId && queue[0].message == message && queue[1..] == old(queue)
    {
      StepKeepsInv(Abstract(), PushSend(rcvrId, message));
      histories := Apply(Abstract(), PushSend(rcvrId, message));
      queue := [Envelope(rcvrId, message, place)] + queue;
      place := place + 1;
    }

    method CreateReceiver() returns (newReceiverID: ReceiverID)
      requires Valid()
      modifies this`freeRcvId, this`createQueue, this`place, this`histories
      ensures newReceiverID == old(freeRcvId) && freeRcvId == old(freeRcvId) + 1
      ensures createQueue == [newReceiverID] + old(createQueue)
      ensures Valid() && Abstract() == Apply(Apply(old(Abstract()), ReserveID), PushCreate(newReceiverID))
    {
      newReceiverID := TakeReceiverID();
      PostCreate(newReceiverID);
    }

    method TakeReceiverID() returns (id: ReceiverID)
      requires Valid()
      modifies this`freeRcvId, this`histories
      ensures id == old(freeRcvId) && freeRcvId == old(freeRcvId) + 1
      ensures Valid() && Abstract() == Apply(old(Abstract()), ReserveID)
    {
      StepKeepsInv(Abstract(), ReserveID);
      id := freeRcvId;
      histories := Apply(Abstract(), ReserveID);
      freeRcvId := freeRcvId + 1;
    }

    method PostCreate(id: ReceiverID)
      requires Valid() && Enabled(Abstract(), PushCreate(id))
      modifies this`createQueue, this`place, this`histories
      ensures Valid() && Abstract() == Apply(old(Abstract()), PushCreate(id))
      ensures createQueue == [id] + old(createQueue)
    {
      StepKeepsInv(Abstract(), PushCreate(id));
      histories := Apply(Abstract(), PushCreate(id));
      createQueue := [id] + createQueue;
      place := place + 1;
    }

    method RemoveReceiver(rcvId: ReceiverID)
      requires Valid() && rcvId in Created(Abstract().posts)
      modifies this`removeQueue, this`place, this`histories
      ensures Valid() && Abstract() == Apply(old(Abstract()), PushRemove(rcvId))
      ensures removeQueue == [rcvId] + old(removeQueue)
    {
      StepKeepsInv(Abstract(), PushRemove(rcvId));
      histories := Apply(Abstract(), PushRemove(rcvId));
      removeQueue := [rcvId] + removeQueue;
      place := place + 1;
    }

    // ProcessMessages, region by region.

    method TakeQueues(msgsToProcess: nat) returns (budget: nat)
      requires Valid() && Abstract().phase.Idle?
      modifies this`queue, this`localQueue, this`createQueue, this`localCreateQueue, this`removeQueue, this`localRemoveQueue, this`histories
      ensures Valid() && Abstract() == Apply(old(Abstract()), Step.TakeQueues(msgsToProcess))
      ensures budget == Abstract().phase.budget
      ensures budget == if msgsToProcess > 0 then msgsToProcess else 0xffff_ffff_ffff_ffff
      ensures localQueue == (if old(localQueue) == [] then old(queue) else old(localQueue))
      ensures queue == (if old(localQueue) == [] then [] else old(queue))
      ensures localCreateQueue == old(createQueue) && localRemoveQueue == old(removeQueue)
    {
      StepKeepsInv(Abstract(), Step.TakeQueues(msgsToProcess));
      ghost var next := Apply(Abstract(), Step.TakeQueues(msgsToProcess));
      SwapQueues();
      histories := next;
      assert Abstract() == next;
      budget := if msgsToProcess > 0 then msgsToProcess else SIZE_MAX;
    }

    method SwapQueues()
      modifies this`queue, this`localQueue, this`createQueue, this`localCreateQueue, this`removeQueue, this`localRemoveQueue
      ensures localQueue == if old(localQueue) == [] then old(queue) else old(localQueue)
      ensures queue == if old(localQueue) == [] then [] else old(queue)
      ensures createQueue == old(localCreateQueue) && localCreateQueue == old(createQueue)
      ensures removeQueue == old(localRemoveQueue) && localRemoveQueue == old(removeQueue)
    {
      if localQueue == [] {
        localQueue, queue := queue, localQueue;
      }
      localCreateQueue, createQueue := createQueue, localCreateQueue;
      localRemoveQueue, removeQueue := removeQueue, localRemoveQueue;
    }

    method CreateNext()
      requires Valid() && Enabled(Abstract(), ActCreate)
      modifies this`receiverMap, this`localCreateQueue, this`histories
      ensures Valid() && Abstract() == Apply(old(Abstract()), ActCreate)
      ensures var last := |old(localCreateQueue)| - 1;
              receiverMap == old(receiverMap) + {old(localCreateQueue)[last]} && localCreateQueue == old(localCreateQueue)[..last]
    {
      StepKeepsInv(Abstract(), ActCreate);
      histories := Apply(Abstract(), ActCreate);
      receiverMap := receiverMap + {Last(localCreateQueue)};
      localCreateQueue := Init(localCreateQueue);
    }

    method RemoveNext()
      requires Valid() && Enabled(Abstract(), ActRemove)
      modifies this`receiverMap, this`localRemoveQueue, this`histories
      ensures Valid() && Abstract() == Apply(old(Abstract()), ActRemove)
      ensures var last := |old(localRemoveQueue)| - 1;
              receiverMap == old(receiverMap) - {old(localRemoveQueue)[last]} && localRemoveQueue == old(localRemoveQueue)[..last]
    {
      StepKeepsInv(Abstract(), ActRemove);
      histories := Apply(Abstract(), ActRemove);
      if Last(localRemoveQueue) in receiverMap {
        receiverMap := receiverMap - {Last(localRemoveQueue)};
      }
      localRemoveQueue := Init(localRemoveQueue);
    }

    /** lost: the receiver was not there. */
    method DispatchNext() returns (envelope: Envelope, lost: bool)
      requires Valid() && Enabled(Abstract(), ActMessage)
      modifies this`localQueue, this`totalSize, this`histories
      ensures Valid() && Abstract() == Apply(old(Abstract()), ActMessage)
      ensures old(localQueue) == localQueue + [envelope] && (lost <==> envelope.receiver !in receiverMap)
      ensures totalSize == old(totalSize) - 1
    {
      StepKeepsInv(Abstract(), ActMessage);
      histories := Apply(Abstract(), ActMessage);
      envelope := Last(localQueue);
      lost := envelope.receiver !in receiverMap;
      localQueue := Init(localQueue);
      totalSize := totalSize - 1;
    }

    /** A batch nothing comes in between: receivers created and removed as posted, and then
        the next messages, up to msgsToProcess, or all for 0. */
    method ProcessMessages(msgsToProcess: nat) returns (msgsRemaining: int)
      requires Valid() && Abstract().phase.Idle? && |Sent(Abstract().posts)| <= SIZE_MAX
      modifies this
      ensures Valid() && Abstract().phase.Idle? && Abstract().posts == old(Abstract().posts)
      ensures receiverMap == Created(Abstract().posts) - Removed(Abstract().posts)
      ensures receiverMap == old(receiverMap) + Range(old(createQueue)) - Range(old(removeQueue))
      ensures var waiting := if old(localQueue) == [] then old(queue) else old(localQueue);
              var n := if msgsToProcess == 0 || |waiting| < msgsToProcess then |waiting| else msgsToProcess;
              && localQueue == waiting[..|waiting| - n]
              && |Abstract().dispatched| == |old(Abstract().dispatched)| + n
              && EnvelopesOf(Abstract().dispatched) <= Sent(Abstract().posts)
              && totalSize == old(totalSize) - n && msgsRemaining == totalSize
    {
      WaitingIsSent(Abstract());
      var budget := BeginBatch(msgsToProcess);
      DispatchSome(budget);
      BatchDone(Abstract());
      EndTheBatch();
      msgsRemaining := totalSize;
    }

    method BeginBatch(msgsToProcess: nat) returns (budget: nat)
      requires Valid() && Abstract().phase.Idle?
      modifies this`queue, this`localQueue, this`createQueue, this`removeQueue, this`localCreateQueue, this`localRemoveQueue
      modifies this`receiverMap, this`histories
      ensures Valid() && Abstract().phase == Running(budget) && localCreateQueue == [] && localRemoveQueue == []
      ensures Abstract().posts == old(Abstract().posts) && Abstract().taken == |Abstract().posts|
      ensures Abstract().dispatched == old(Abstract().dispatched)
      ensures budget == if msgsToProcess > 0 then msgsToProcess else SIZE_MAX
      ensures localQueue == if old(localQueue) == [] then old(queue) else old(localQueue)
      ensures receiverMap == old(receiverMap) + Range(old(createQueue)) - Range(old(removeQueue))
    {
      budget := TakeQueues(msgsToProcess);
      ActOnReceivers();
    }

    ghost method EndTheBatch()
      requires Valid() && Enabled(Abstract(), EndBatch)
      modifies this`histories
      ensures Valid() && Abstract() == Apply(old(Abstract()), EndBatch)
    {
      StepKeepsInv(Abstract(), EndBatch);
      histories := Apply(Abstract(), EndBatch);
    }

    /** Every creation first, then every removal. */
    method ActOnReceivers()
      requires Valid() && Abstract().phase.Running?
      modifies this`receiverMap, this`localCreateQueue, this`localRemoveQueue, this`histories
      ensures Valid() && localCreateQueue == [] && localRemoveQueue == []
      ensures Abstract() == old(Abstract()).(localCreate := [], localRemove := [], receivers := receiverMap,
                                             known := Abstract().known, gone := Abstract().gone)
      ensures receiverMap == old(receiverMap) + Range(old(localCreateQueue)) - Range(old(localRemoveQueue))
    {
      CreateReceivers();
      RemoveReceivers();
    }

    method CreateReceivers()
      requires Valid() && Abstract().phase.Running?
      modifies this`receiverMap, this`localCreateQueue, this`histories
      ensures Valid() && localCreateQueue == []
      ensures Abstract() == old(Abstract()).(localCreate := [], receivers := receiverMap, known := Abstract().known)
      ensures receiverMap == old(receiverMap) + Range(old(localCreateQueue))
    {
      while localCreateQueue != []
        invariant Valid()
        invariant Abstract() == old(Abstract()).(localCreate := localCreateQueue, receivers := receiverMap, known := Abstract().known)
        invariant receiverMap + Range(localCreateQueue) == old(receiverMap) + Range(old(localCreateQueue))
        decreases |localCreateQueue|
      {
        AddLast(receiverMap, localCreateQueue);
        CreateNext();
      }
    }

    method RemoveReceivers()
      requires Valid() && Abstract().phase.Running? && localCreateQueue == []
      modifies this`receiverMap, this`localRemoveQueue, this`histories
      ensures Valid() && localRemoveQueue == []
      ensures Abstract() == old(Abstract()).(localRemove := [], receivers := receiverMap, gone := Abstract().gone)
      ensures receiverMap == old(receiverMap) - Range(old(localRemoveQueue))
    {
      while localRemoveQueue != []
        invariant Valid()
        invariant Abstract() == old(Abstract()).(localRemove := localRemoveQueue, receivers := receiverMap, gone := Abstract().gone)
        invariant receiverMap - Range(localRemoveQueue) == old(receiverMap) - Range(old(localRemoveQueue))
        decreases |localRemoveQueue|
      {
        AddLast({}, localRemoveQueue);
        RemoveNext();
      }
    }

    method DispatchSome(msgsToProcess: nat)
      requires Valid() && Abstract().phase == Running(msgsToProcess) && localCreateQueue == [] && localRemoveQueue == []
      modifies this`localQueue, this`totalSize, this`histories
      ensures Valid() && Enabled(Abstract(), EndBatch)
      ensures var n := if |old(localQueue)| < msgsToProcess then |old(localQueue)| else msgsToProcess;
              && localQueue == old(localQueue)[..|old(localQueue)| - n]
              && |Abstract().dispatched| == |old(Abstract().dispatched)| + n
              && totalSize == old(totalSize) - n
      ensures Abstract().posts == old(Abstract().posts) && Abstract().taken == old(Abstract().taken)
    {
      var msgsProcessed := 0;
      while msgsProcessed < msgsToProcess && localQueue != []
        invariant Valid() && msgsProcessed <= msgsToProcess && Abstract().phase == Running(msgsToProcess - msgsProcessed)
        invariant localQueue <= old(localQueue) && |localQueue| == |old(localQueue)| - msgsProcessed
        invariant localCreateQueue == [] && localRemoveQueue == []
        invariant |Abstract().dispatched| == |old(Abstract().dispatched)| + msgsProcessed
        invariant totalSize == old(totalSize) - msgsProcessed
        invariant Abstract().posts == old(Abstract().posts) && Abstract().taken == old(Abstract().taken)
        decreases |localQueue|
      {
        var envelope, lost := DispatchNext();
        msgsProcessed := msgsProcessed + 1;
      }
    }
  }
}
