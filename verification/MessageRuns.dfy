/** Whole runs of a message dispatcher, told by their steps alone: what the callers passed to
    SendMessage, CreateReceiver and RemoveReceiver, against what a batch takes from the deque
    and finds in the map of receivers. */
module MessageRuns {
  import opened MessageDispatcher
  import Runs

  ghost predicate IsRun(states: seq<State>, steps: seq<Step>) { Runs.IsRun(Initial, Moves, states, steps) }

  function SendOf(step: Step): seq<Step> { if step.PushSend? then [step] else [] }

  /** The sends among the steps, with what they were given, in order. */
  function Sends(steps: seq<Step>): seq<Step> {
    if steps == [] then []
    else
      var i := |steps| - 1;
      Sends(steps[..i]) + SendOf(steps[i])
  }

  /** How many messages the steps process. */
  function Processed(steps: seq<Step>): nat {
    if steps == [] then 0 else Processed(steps[..|steps| - 1]) + if steps[|steps| - 1].ActMessage? then 1 else 0
  }

  lemma StepTo(states: seq<State>, steps: seq<Step>, k: nat)
    requires IsRun(states, steps) && k < |steps|
    ensures Enabled(states[k], steps[k]) && states[k + 1] == Apply(states[k], steps[k])
    ensures steps[..k + 1][..k] == steps[..k] && steps[..k + 1][k] == steps[k]
  {
    assert Moves(states[k], steps[k], states[k + 1]);
  }

  lemma InvAt(states: seq<State>, steps: seq<Step>, k: nat)
    requires IsRun(states, steps) && k <= |steps|
    ensures Inv(states[k])
  {
    StartInv();
    forall s: State, step: Step, s': State | Inv(s) && Moves(s, step, s') ensures Inv(s') {
      StepKeepsInv(s, step);
    }
    Runs.RunKeeps(Initial, Moves, Inv, states, steps, k);
  }

  // ----- messages -----

  ghost predicate Carries(e: Envelope, step: Step) { step == PushSend(e.receiver, e.message) }

  ghost predicate AllCarry(es: seq<Envelope>, sends: seq<Step>) {
    |es| == |sends| && forall j {:trigger es[j]} {:trigger sends[j]} :: 0 <= j < |es| ==> Carries(es[j], sends[j])
  }

  lemma {:induction false} PostsCarryTheArguments(states: seq<State>, steps: seq<Step>, k: nat)
    requires IsRun(states, steps) && k <= |steps|
    ensures AllCarry(Sent(states[k].posts), Sends(steps[..k]))
  {
    if k > 0 {
      PostsCarryTheArguments(states, steps, k - 1);
      NextCarries(states, steps, k - 1);
    }
  }

  lemma NextCarries(states: seq<State>, steps: seq<Step>, k: nat)
    requires IsRun(states, steps) && k < |steps|
    requires AllCarry(Sent(states[k].posts), Sends(steps[..k]))
    ensures AllCarry(Sent(states[k + 1].posts), Sends(steps[..k + 1]))
  {
    SendsGrow(steps, k);
    StepTo(states, steps, k);
    StepCarries(states[k], steps[k], states[k + 1], Sends(steps[..k]), Sends(steps[..k + 1]));
  }

  lemma SendsGrow(steps: seq<Step>, k: nat)
    requires k < |steps|
    ensures Sends(steps[..k + 1]) == Sends(steps[..k]) + SendOf(steps[k])
  {
    assert steps[..k + 1][..k] == steps[..k];
  }

  lemma StepCarries(s: State, step: Step, s': State, sends: seq<Step>, sends': seq<Step>)
    requires Enabled(s, step) && s' == Apply(s, step) && sends' == sends + SendOf(step)
    requires AllCarry(Sent(s.posts), sends)
    ensures AllCarry(Sent(s'.posts), sends')
  {
    match step
    case PushSend(r, m) => SentGrows(s.posts, PostedSend(r, m));
    case PushCreate(r) => SentGrows(s.posts, PostedCreate(r));
    case PushRemove(r) => SentGrows(s.posts, PostedRemove(r));
    case _ =>
  }

  lemma {:induction false} ProcessedAreDispatched(states: seq<State>, steps: seq<Step>, k: nat)
    requires IsRun(states, steps) && k <= |steps|
    ensures |states[k].dispatched| == Processed(steps[..k])
  {
    if k > 0 {
      ProcessedAreDispatched(states, steps, k - 1);
      StepTo(states, steps, k - 1);
    }
  }

  /** The n-th message a run processes is what the n-th SendMessage of the run was given. */
  lemma NthProcessedIsNthSent(states: seq<State>, steps: seq<Step>, k: nat)
    requires IsRun(states, steps) && k < |steps| && steps[k].ActMessage?
    ensures var n, e := Processed(steps[..k]), states[k].localQueue[|states[k].localQueue| - 1];
            && n < |Sends(steps[..k])| && Sends(steps[..k])[n] == PushSend(e.receiver, e.message)
            && states[k + 1].localQueue == states[k].localQueue[..|states[k].localQueue| - 1]
  {
    StepTo(states, steps, k);
    InvAt(states, steps, k);
    ProcessedAreDispatched(states, steps, k);
    PostsCarryTheArguments(states, steps, k);
    var s := states[k];
    NextIsNthSent(s);
    assert Carries(Sent(s.posts)[|s.dispatched|], Sends(steps[..k])[|s.dispatched|]);
  }

  lemma NextIsNthSent(s: State)
    requires InOrder(s) && s.localQueue != []
    ensures |s.dispatched| < |Sent(s.posts)| && Sent(s.posts)[|s.dispatched|] == Last(s.localQueue)
  {
    assert Rev(s.localQueue)[0] == Last(s.localQueue);
  }

  // ----- receivers -----

  lemma {:induction false} PostsNameTheReceivers(states: seq<State>, steps: seq<Step>, k: nat, r: ReceiverID)
    requires IsRun(states, steps) && k <= |steps|
    ensures r in Created(states[k].posts) <==> PushCreate(r) in steps[..k]
    ensures r in Removed(states[k].posts) <==> PushRemove(r) in steps[..k]
  {
    if k == 0 {
    } else {
      PostsNameTheReceivers(states, steps, k - 1, r);
      StepTo(states, steps, k - 1);
      BookedByStep(states[k - 1], steps[k - 1], r);
      assert steps[..k] == steps[..k - 1] + [steps[k - 1]];
    }
  }

  lemma BookedByStep(s: State, step: Step, r: ReceiverID)
    requires Enabled(s, step)
    ensures r in Created(Apply(s, step).posts) <==> r in Created(s.posts) || step == PushCreate(r)
    ensures r in Removed(Apply(s, step).posts) <==> r in Removed(s.posts) || step == PushRemove(r)
  {
    match step
    case PushSend(r', m) => PostsGrow(s.posts, PostedSend(r', m));
    case PushCreate(r') => PostsGrow(s.posts, PostedCreate(r'));
    case PushRemove(r') => PostsGrow(s.posts, PostedRemove(r'));
    case _ =>
  }

  /** The batch that step k belongs to began with step b. */
  ghost predicate BatchFrom(steps: seq<Step>, b: nat, k: nat) {
    && b < k <= |steps| && steps[b].TakeQueues?
    && forall i :: b < i < k ==> !steps[i].TakeQueues?
  }

  lemma {:induction false} TakenAtBatch(states: seq<State>, steps: seq<Step>, b: nat, k: nat)
    requires IsRun(states, steps) && BatchFrom(steps, b, k)
    ensures states[k].taken == |states[b].posts| <= |states[k].posts|
    ensures states[k].posts[..states[k].taken] == states[b].posts
  {
    StepTo(states, steps, k - 1);
    if b < k - 1 {
      TakenAtBatch(states, steps, b, k - 1);
    }
  }

  /** A message goes to its receiver if and only if, when the batch began, that receiver had
      been posted for creation and not for removal; otherwise it is lost. */
  lemma ReachesItsReceiverIff(states: seq<State>, steps: seq<Step>, b: nat, k: nat, r: ReceiverID)
    requires IsRun(states, steps) && BatchFrom(steps, b, k) && k < |steps| && steps[k].ActMessage?
    ensures r in states[k].receivers <==> PushCreate(r) in steps[..b] && PushRemove(r) !in steps[..b]
  {
    StepTo(states, steps, k);
    InvAt(states, steps, k);
    TakenAtBatch(states, steps, b, k);
    PostsNameTheReceivers(states, steps, b, r);
    assert r in states[k].receivers <==> r in Created(states[b].posts) && r !in Removed(states[b].posts);
  }

  /** No two calls of CreateReceiver get the same ID. */
  lemma IdsAreFresh(states: seq<State>, steps: seq<Step>, i: nat, k: nat)
    requires IsRun(states, steps) && i < k < |steps| && steps[i].PushCreate? && steps[k].PushCreate?
    ensures steps[i].receiver != steps[k].receiver
  {
    StepTo(states, steps, k);
    InvAt(states, steps, k);
    PostsNameTheReceivers(states, steps, k, steps[i].receiver);
    assert steps[..k][i] == steps[i];
  }
}
