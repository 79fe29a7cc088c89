/** Whole runs of the timer thread, told by the messages alone: when the timer of a message
    fires, and when it goes. */
module TimerRuns {
  import opened Collections
  import opened TimerThread
  import Runs

  ghost predicate IsRun(states: seq<State>, steps: seq<Step>) { Runs.IsRun(Initial, Moves, states, steps) }

  lemma StepTo(states: seq<State>, steps: seq<Step>, k: nat)
    requires IsRun(states, steps) && k < |steps|
    ensures Enabled(states[k], steps[k]) && states[k + 1] == Apply(states[k], steps[k])
  {
    assert Moves(states[k], steps[k], states[k + 1]);
  }

  lemma InvAt(states: seq<State>, steps: seq<Step>, k: nat)
    requires IsRun(states, steps) && k <= |steps|
    ensures Inv(states[k])
  {
    InvIsInductive();
    Runs.RunKeeps(Initial, Moves, Inv, states, steps, k);
  }

  // ----- how a timer goes -----

  /** The message is the cancellation of the timer, by its ID or by its name. */
  predicate Cancels(msg: Message, i: TimerID, name: string) {
    msg.Cancel? && if msg.timerName == "" then msg.timerID == i else msg.timerName == name
  }

  /** A timer goes with its cancellation, or, if it is a one-shot timer, with a beat after the
      first; and with nothing else. */
  lemma GoesIff(s: State, step: Step, i: TimerID)
    requires Inv(s) && Enabled(s, step) && i in s.timers
    ensures var timer := s.timers[i];
            i !in Apply(s, step).timers <==>
              || (step.Process? && Cancels(step.msg, i, timer.timerDef.timerName))
              || (step.Serve? && s.queue[step.j].timerIndex == i && !timer.recalibrate && !timer.timerDef.repeatingTimer)
  {
    assert TimerOk(s, i);
    match step
    case Process(msg, hit, now) =>
      if msg.Cancel? {
        CancelTakes(s, msg, hit, now);
      } else {
        SetPuts(s, msg.timerDef, hit, now);
      }
    case Serve(j, now) =>
  }

  /** A message Cancel("", i) for an index handed out: timer i never fires after it. For any
      other index it does nothing. */
  lemma CancelledByIdNeverFires(states: seq<State>, steps: seq<Step>, k: nat, m: nat, i: TimerID)
    requires IsRun(states, steps) && k < m <= |steps|
    requires steps[k].Process? && steps[k].msg == Cancel("", i)
    ensures i < states[k].nextIndex ==> i !in states[m].timers && Firings(states[m].fired, i) == Firings(states[k].fired, i)
    ensures i >= states[k].nextIndex ==> states[k + 1] == states[k].(clock := steps[k].now)
  {
    StepTo(states, steps, k);
    InvAt(states, steps, k);
    CancelTakes(states[k], steps[k].msg, steps[k].hit, steps[k].now);
    assert i in states[k].timers ==> TimerOk(states[k], i);
    if i < states[k].nextIndex {
      GoneStaysGone(states, steps, k + 1, m, i);
    }
  }

  /** A message that cancels by name: the timer of that name never fires after it. */
  lemma CancelledByNameNeverFires(states: seq<State>, steps: seq<Step>, k: nat, m: nat, i: TimerID, name: string)
    requires IsRun(states, steps) && k < m <= |steps|
    requires steps[k].Process? && steps[k].msg.Cancel? && steps[k].msg.timerName == name
    requires Named(states[k].timers, i, name)
    ensures i !in states[m].timers && Firings(states[m].fired, i) == Firings(states[k].fired, i)
  {
    StepTo(states, steps, k);
    InvAt(states, steps, k);
    CancelTakes(states[k], steps[k].msg, steps[k].hit, steps[k].now);
    assert TimerOk(states[k], i);
    GoneStaysGone(states, steps, k + 1, m, i);
  }

  // ----- when it fires -----

  /** Nothing about the timer changes but its beats. */
  ghost predicate AsSet(s: State, i: TimerID, def: TimerDefinition, start: nat) {
    && i in s.pasts && s.pasts[i].start == start && !s.pasts[i].modified
    && (i in s.timers ==> s.timers[i].timerDef == def)
    && forall f <- s.fired :: FiredAsSet(f, i, def, start)
  }

  predicate FiredAsSet(f: Firing, i: TimerID, def: TimerDefinition, start: nat) {
    f.timer == i ==> f.past.start == start && !f.past.modified && f.timerDef == def
  }

  /** No later message sets a timer of that name. */
  ghost predicate NotSetAgain(steps: seq<Step>, k: nat, m: nat, name: string)
    requires m <= |steps|
  {
    forall j {:trigger steps[j]} :: k < j < m && steps[j].Process? && steps[j].msg.Set? ==> name == "" || steps[j].msg.timerDef.timerName != name
  }

  lemma StaysAsSet(s: State, step: Step, i: TimerID, def: TimerDefinition, start: nat)
    requires Inv(s) && Enabled(s, step) && AsSet(s, i, def, start)
    requires step.Process? && step.msg.Set? ==> def.timerName == "" || step.msg.timerDef.timerName != def.timerName
    ensures AsSet(Apply(s, step), i, def, start)
  {
    assert i in s.timers ==> TimerOk(s, i);
    var s' := Apply(s, step);
    forall f | f in s'.fired ensures FiredAsSet(f, i, def, start) {
      if f in s.fired {
        assert FiredAsSet(f, i, def, start);
      }
    }
  }

  lemma {:induction false} AsSetUntil(states: seq<State>, steps: seq<Step>, k: nat, m: nat, i: TimerID, def: TimerDefinition)
    requires IsRun(states, steps) && k < m <= |steps| && steps[k].Process? && steps[k].msg == Set(def) && i == states[k].nextIndex
    requires forall n :: !Named(states[k].timers, n, def.timerName)
    requires NotSetAgain(steps, k, m, def.timerName)
    ensures AsSet(states[m], i, def, steps[k].now)
  {
    StepTo(states, steps, m - 1);
    InvAt(states, steps, m - 1);
    if k < m - 1 {
      AsSetUntil(states, steps, k, m - 1, i, def);
      StaysAsSet(states[m - 1], steps[m - 1], i, def, steps[k].now);
    } else {
      NewIsAsSet(states[k], def, steps[k].hit, steps[k].now);
    }
  }

  lemma NewIsAsSet(s: State, def: TimerDefinition, hit: Option<TimerID>, now: nat)
    requires Inv(s) && Finds(s.timers, Set(def), hit) && forall n :: !Named(s.timers, n, def.timerName)
    ensures AsSet(Processed(s, Set(def), hit, now), s.nextIndex, def, now)
  {
    assert hit.Some? ==> Named(s.timers, hit.value, def.timerName);
    forall f | f in s.fired ensures FiredAsSet(f, s.nextIndex, def, now) {
      assert FiringOk(s, f);
    }
  }

  /** A message Set that starts a new timer, at a time now, with no later message for that
      name: its n-th callback is for now and n intervals. */
  lemma FiresEveryInterval(states: seq<State>, steps: seq<Step>, k: nat, m: nat, def: TimerDefinition, a: nat)
    requires IsRun(states, steps) && k < m <= |steps| && steps[k].Process? && steps[k].msg == Set(def)
    requires forall n :: !Named(states[k].timers, n, def.timerName)
    requires NotSetAgain(steps, k, m, def.timerName)
    requires a < |states[m].fired| && states[m].fired[a].timer == states[k].nextIndex
    ensures var f, n := states[m].fired[a], Firings(states[m].fired[..a], states[k].nextIndex) + 1;
            f.timerDef == def && f.beat == steps[k].now + n * def.timeInterval <= f.at
    ensures !def.repeatingTimer ==> Firings(states[m].fired[..a], states[k].nextIndex) <= 1
  {
    AsSetUntil(states, steps, k, m, states[k].nextIndex, def);
    InvAt(states, steps, m);
    var f := states[m].fired[a];
    assert f in states[m].fired && FiredAsSet(f, states[k].nextIndex, def, steps[k].now) && FiringOk(states[m], f) && CountedAt(states[m].fired, a);
    BeatAtIs(steps[k].now, def.timeInterval, f.past.beats + 1);
  }
}
