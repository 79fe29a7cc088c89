/** Holder/ExecutionManager: the timer thread. Only it touches timers and queue; the clock
    never runs backwards. Durations are in ticks of that clock. */
module TimerThread {
  import opened Collections
  import Runs

  type TimerID = nat

  datatype TimerDefinition = TimerDefinition(timerName: string, timeInterval: nat, repeatingTimer: bool)

  datatype TimerState = TimerState(recalibrate: bool, timerDef: TimerDefinition)

  datatype Entry = Entry(nextBeat: nat, timerIndex: TimerID)

  /** A cancellation with an empty name goes by the ID. */
  datatype Message = Set(timerDef: TimerDefinition) | Cancel(timerName: string, timerID: TimerID)

  /** History of a timer: when it was added, its beats so far, its beats since it was last set,
      and whether it was set again. */
  datatype Past = Past(start: nat, beats: nat, sinceSet: nat, modified: bool)

  /** A callback: past as it was before. */
  datatype Firing = Firing(timer: TimerID, beat: nat, at: nat, past: Past, timerDef: TimerDefinition)

  /** queue: the priority queue, an abstract collection of which a least entry is the top.
      pasts, fired: histories. */
  datatype State = State(
    timers: map<TimerID, TimerState>, queue: seq<Entry>, nextIndex: TimerID, clock: nat,
    pasts: map<TimerID, Past>, fired: seq<Firing>)

  const Start := State(map[], [], 0, 0, map[], [])

  // ----- one message -----

  /** What the search among the timers may find. */
  predicate Finds(timers: map<TimerID, TimerState>, msg: Message, hit: Option<TimerID>) {
    var name := if msg.Set? then msg.timerDef.timerName else msg.timerName;
    && (hit.Some? ==> hit.value in timers)
    && if name != "" then
         if hit.Some? then timers[hit.value].timerDef.timerName == name
         else forall i :: i in timers ==> timers[i].timerDef.timerName != name
       else if msg.Cancel? then hit == if msg.timerID in timers then Some(msg.timerID) else None
       else hit == None
  }

  function Processed(s: State, msg: Message, hit: Option<TimerID>, now: nat): State
    requires Finds(s.timers, msg, hit)
  {
    match msg
    case Set(def) =>
      if hit.Some? then
        var i := hit.value;
        s.(timers := s.timers[i := TimerState(true, def)], clock := now,
           pasts := if i in s.pasts then s.pasts[i := s.pasts[i].(sinceSet := 0, modified := true)] else s.pasts)
      else
        var i := s.nextIndex;
        s.(timers := s.timers[i := TimerState(true, def)], queue := s.queue + [Entry(now + def.timeInterval, i)],
           nextIndex := i + 1, clock := now, pasts := s.pasts[i := Past(now, 0, 0, false)])
    case Cancel(_, _) =>
      s.(timers := if hit.Some? then s.timers - {hit.value} else s.timers, clock := now)
  }

  // ----- the top entry when it is due -----

  predicate IsTop(queue: seq<Entry>, j: nat) {
    j < |queue| && forall k :: 0 <= k < |queue| ==> queue[j].nextBeat <= queue[k].nextBeat
  }

  function Without(queue: seq<Entry>, j: nat): seq<Entry>
    requires j < |queue|
  {
    queue[..j] + queue[j + 1..]
  }

  /** A timer that was cancelled only leaves the queue. A one-shot timer goes once it has
      fired with recalibrate down. */
  function Served(s: State, j: nat, now: nat): State
    requires IsTop(s.queue, j)
  {
    var top, rest := s.queue[j], Without(s.queue, j);
    var i := top.timerIndex;
    if i !in s.timers || i !in s.pasts then s.(queue := rest, clock := now)
    else
      var timer, past := s.timers[i], s.pasts[i];
      var fired := s.fired + [Firing(i, top.nextBeat, now, past, timer.timerDef)];
      var pasts := s.pasts[i := past.(beats := past.beats + 1, sinceSet := past.sinceSet + 1)];
      if !timer.recalibrate && !timer.timerDef.repeatingTimer then
        s.(timers := s.timers - {i}, queue := rest, clock := now, pasts := pasts, fired := fired)
      else
        s.(timers := s.timers[i := timer.(recalibrate := false)],
           queue := rest + [Entry(top.nextBeat + timer.timerDef.timeInterval, i)], clock := now, pasts := pasts, fired := fired)
  }

  datatype Step = Process(msg: Message, hit: Option<TimerID>, now: nat) | Serve(j: nat, now: nat)

  predicate Enabled(s: State, step: Step) {
    match step
    case Process(msg, hit, now) => s.clock <= now && Finds(s.timers, msg, hit)
    case Serve(j, now) => s.clock <= now && IsTop(s.queue, j) && s.queue[j].nextBeat <= now
  }

  function Apply(s: State, step: Step): State
    requires Enabled(s, step)
  {
    match step
    case Process(msg, hit, now) => Processed(s, msg, hit, now)
    case Serve(j, now) => Served(s, j, now)
  }

  // ----- the invariant -----

  ghost predicate OneEntryEach(queue: seq<Entry>) {
    forall j, k :: 0 <= j < k < |queue| ==> queue[j].timerIndex != queue[k].timerIndex
  }

  predicate HasEntry(queue: seq<Entry>, i: TimerID) { exists e <- queue :: e.timerIndex == i }

  function BeatAt(start: nat, interval: nat, k: nat): nat {
    if k == 0 then start else BeatAt(start, interval, k - 1) + interval
  }

  lemma {:induction false} BeatAtIs(start: nat, interval: nat, k: nat)
    ensures BeatAt(start, interval, k) == start + k * interval
  {
    if k > 0 { BeatAtIs(start, interval, k - 1); }
  }

  /** The beat due is the one after those so far, if the timer was never set again. */
  predicate OnBeat(past: Past, interval: nat, beat: nat) {
    !past.modified ==> beat == BeatAt(past.start, interval, past.beats + 1) && past.sinceSet == past.beats
  }

  predicate EntryOk(s: State, e: Entry) {
    && e.timerIndex < s.nextIndex
    && (e.timerIndex in s.timers ==>
          e.timerIndex in s.pasts && OnBeat(s.pasts[e.timerIndex], s.timers[e.timerIndex].timerDef.timeInterval, e.nextBeat))
    && forall f <- s.fired :: f.beat <= e.nextBeat
  }

  predicate TimerOk(s: State, i: TimerID)
    requires i in s.timers
  {
    && i < s.nextIndex && HasEntry(s.queue, i) && i in s.pasts
    && (s.timers[i].recalibrate <==> s.pasts[i].sinceSet == 0)
    && (!s.timers[i].timerDef.repeatingTimer ==> s.pasts[i].sinceSet <= 1)
  }

  /** Names tell live timers apart. */
  predicate NamesDiffer(timers: map<TimerID, TimerState>) {
    forall i, k :: i in timers && k in timers && i != k && timers[i].timerDef.timerName != "" ==>
      timers[i].timerDef.timerName != timers[k].timerDef.timerName
  }

  predicate FiringOk(s: State, f: Firing) {
    && f.timer < s.nextIndex && f.beat <= f.at <= s.clock && OnBeat(f.past, f.timerDef.timeInterval, f.beat)
    && (!f.timerDef.repeatingTimer ==> f.past.sinceSet <= 1)
  }

  /** How often the timer fired. */
  function Firings(fired: seq<Firing>, i: TimerID): nat {
    if fired == [] then 0
    else Firings(fired[..|fired| - 1], i) + (if fired[|fired| - 1].timer == i then 1 else 0)
  }

  /** Beats are counted right. */
  ghost predicate Counted(s: State) {
    && (forall i {:trigger s.pasts[i]} {:trigger i in s.pasts} :: i in s.pasts ==> i < s.nextIndex && s.pasts[i].beats == Firings(s.fired, i))
    && (forall i {:trigger Firings(s.fired, i)} :: i >= s.nextIndex ==> Firings(s.fired, i) == 0)
    && (forall a {:trigger CountedAt(s.fired, a)} :: 0 <= a < |s.fired| ==> CountedAt(s.fired, a))
  }

  ghost predicate CountedAt(fired: seq<Firing>, a: nat)
    requires a < |fired|
  {
    fired[a].past.beats == Firings(fired[..a], fired[a].timer)
  }

  ghost predicate QueueOk(s: State) {
    OneEntryEach(s.queue) && forall e <- s.queue :: EntryOk(s, e)
  }

  ghost predicate Inv(s: State) {
    && Counted(s)
    && QueueOk(s) && NamesDiffer(s.timers)
    && (forall i {:trigger TimerOk(s, i)} {:trigger s.timers[i]} :: i in s.timers ==> TimerOk(s, i))
    && (forall f <- s.fired :: FiringOk(s, f))
    && forall a, b :: 0 <= a < b < |s.fired| ==> s.fired[a].beat <= s.fired[b].beat
  }

  // ----- every step keeps it -----

  lemma CancelKeeps(s: State, msg: Message, hit: Option<TimerID>, now: nat)
    requires Inv(s) && msg.Cancel? && Finds(s.timers, msg, hit) && s.clock <= now
    ensures Inv(Processed(s, msg, hit, now))
  {
    var s' := Processed(s, msg, hit, now);
    forall e | e in s'.queue ensures EntryOk(s', e) {
      assert EntryOk(s, e);
    }
    forall i | i in s'.timers ensures TimerOk(s', i) {
      assert TimerOk(s, i);
    }
    forall f | f in s'.fired ensures FiringOk(s', f) {
      assert FiringOk(s, f);
    }
  }

  lemma SetAgainKeeps(s: State, def: TimerDefinition, i: TimerID, now: nat)
    requires Inv(s) && Finds(s.timers, Set(def), Some(i)) && s.clock <= now
    ensures Inv(Processed(s, Set(def), Some(i), now))
  {
    var s' := Processed(s, Set(def), Some(i), now);
    forall e | e in s'.queue ensures EntryOk(s', e) {
      assert EntryOk(s, e);
    }
    forall k | k in s'.timers ensures TimerOk(s', k) {
      assert TimerOk(s, k);
    }
    forall f | f in s'.fired ensures FiringOk(s', f) {
      assert FiringOk(s, f);
    }
  }

  lemma SetNewKeeps(s: State, def: TimerDefinition, now: nat)
    requires Inv(s) && Finds(s.timers, Set(def), None) && s.clock <= now
    ensures Inv(Processed(s, Set(def), None, now))
  {
    var s' := Processed(s, Set(def), None, now);
    var i := s.nextIndex;
    assert s'.queue[|s.queue|].timerIndex == i;
    forall e | e in s'.queue ensures EntryOk(s', e) {
      if e in s.queue {
        assert EntryOk(s, e);
      } else {
        assert forall f <- s.fired :: FiringOk(s, f);
      }
    }
    forall k | k in s'.timers ensures TimerOk(s', k) {
      if k != i {
        assert TimerOk(s, k);
        EntryStays(s.queue, [Entry(now + def.timeInterval, i)], k);
      } else {
        assert s'.queue[|s.queue|] in s'.queue;
      }
    }
    forall f | f in s'.fired ensures FiringOk(s', f) {
      assert FiringOk(s, f);
    }
    forall j, k | 0 <= j < k < |s'.queue| ensures s'.queue[j].timerIndex != s'.queue[k].timerIndex {
      assert j < |s.queue| ==> EntryOk(s, s.queue[j]);
    }
  }

  lemma EntryStays(queue: seq<Entry>, more: seq<Entry>, i: TimerID)
    requires HasEntry(queue, i)
    ensures HasEntry(queue + more, i)
  {
    var e :| e in queue && e.timerIndex == i;
    assert e in queue + more;
  }

  lemma WithoutIs(queue: seq<Entry>, j: nat)
    requires j < |queue| && OneEntryEach(queue)
    ensures OneEntryEach(Without(queue, j))
    ensures forall e :: e in Without(queue, j) <==> e in queue && e != queue[j]
    ensures forall e :: e in Without(queue, j) ==> e.timerIndex != queue[j].timerIndex
    ensures !HasEntry(Without(queue, j), queue[j].timerIndex)
    ensures forall i :: i != queue[j].timerIndex && HasEntry(queue, i) ==> HasEntry(Without(queue, j), i)
  {
    var rest := Without(queue, j);
    forall k | 0 <= k < |rest| ensures rest[k] == queue[if k < j then k else k + 1] {
    }
    forall e | e in queue && e != queue[j] ensures e in rest {
      var k :| 0 <= k < |queue| && queue[k] == e;
      assert rest[if k < j then k else k - 1] == e;
    }
    forall e | e in rest ensures e in queue && e.timerIndex != queue[j].timerIndex {
      var k :| 0 <= k < |rest| && rest[k] == e;
      assert e == queue[if k < j then k else k + 1];
    }
    forall i | i != queue[j].timerIndex && HasEntry(queue, i) ensures HasEntry(rest, i) {
      var e :| e in queue && e.timerIndex == i;
      assert e in rest;
    }
  }

  lemma ServeKeeps(s: State, j: nat, now: nat)
    requires Inv(s) && Enabled(s, Serve(j, now))
    ensures Inv(Served(s, j, now))
  {
    WithoutIs(s.queue, j);
    ServedFirings(s, j, now);
    ServedCounted(s, j, now);
    ServedEntries(s, j, now);
    ServedTimers(s, j, now);
  }

  lemma ServedEntries(s: State, j: nat, now: nat)
    requires QueueOk(s) && Enabled(s, Serve(j, now))
    ensures QueueOk(Served(s, j, now))
  {
    var s' := Served(s, j, now);
    var rest := Without(s.queue, j);
    WithoutIs(s.queue, j);
    forall e | e in rest ensures EntryOk(s', e) {
      EntryStaysOk(s, j, now, e);
    }
    assert s.queue[j] in s.queue && EntryOk(s, s.queue[j]);
    if |s'.queue| > |rest| { ReinsertedOk(s, j, now); }
    OneMoreEntry(rest, s'.queue);
  }

  lemma OneMoreEntry(rest: seq<Entry>, queue: seq<Entry>)
    requires OneEntryEach(rest) && (queue == rest || exists e :: queue == rest + [e] && !HasEntry(rest, e.timerIndex))
    ensures OneEntryEach(queue)
  {
    if queue != rest {
      var e :| queue == rest + [e] && !HasEntry(rest, e.timerIndex);
      forall a, b | 0 <= a < b < |queue| ensures queue[a].timerIndex != queue[b].timerIndex {
        assert rest[a] in rest;
      }
    }
  }

  lemma EntryStaysOk(s: State, j: nat, now: nat, e: Entry)
    requires QueueOk(s) && Enabled(s, Serve(j, now)) && e in s.queue && e.timerIndex != s.queue[j].timerIndex
    ensures EntryOk(Served(s, j, now), e)
  {
    assert EntryOk(s, e);
    assert s.queue[j] in s.queue && EntryOk(s, s.queue[j]);
    TopIsLeast(s.queue, j, e);
  }

  lemma ReinsertedOk(s: State, j: nat, now: nat)
    requires QueueOk(s) && Enabled(s, Serve(j, now)) && s.queue[j].timerIndex in s.timers
    ensures var top, s' := s.queue[j], Served(s, j, now);
            top.timerIndex in s'.timers ==> EntryOk(s', Entry(top.nextBeat + s.timers[top.timerIndex].timerDef.timeInterval, top.timerIndex))
  {
    var top := s.queue[j];
    assert top in s.queue && EntryOk(s, top);
    NextBeat(s.pasts[top.timerIndex], s.timers[top.timerIndex].timerDef.timeInterval, top.nextBeat);
  }

  lemma NextBeat(past: Past, interval: nat, beat: nat)
    requires OnBeat(past, interval, beat)
    ensures OnBeat(past.(beats := past.beats + 1, sinceSet := past.sinceSet + 1), interval, beat + interval)
  {
  }

  lemma ServedTimers(s: State, j: nat, now: nat)
    requires Inv(s) && Enabled(s, Serve(j, now))
    ensures var s' := Served(s, j, now); NamesDiffer(s'.timers) && forall i :: i in s'.timers ==> TimerOk(s', i)
  {
    var s' := Served(s, j, now);
    var i := s.queue[j].timerIndex;
    var rest := Without(s.queue, j);
    WithoutIs(s.queue, j);
    forall k | k in s'.timers ensures TimerOk(s', k) {
      assert TimerOk(s, k);
      if k == i {
        assert s'.queue[|rest|] in s'.queue;
      } else {
        EntryStays(rest, s'.queue[|rest|..], k);
        assert s'.queue == rest + s'.queue[|rest|..];
      }
    }
  }

  lemma FiringsAppend(fired: seq<Firing>, f: Firing, i: TimerID)
    ensures Firings(fired + [f], i) == Firings(fired, i) + (if f.timer == i then 1 else 0)
  {
    assert (fired + [f])[..|fired|] == fired;
  }

  lemma ServedCounted(s: State, j: nat, now: nat)
    requires Inv(s) && Enabled(s, Serve(j, now))
    ensures Counted(Served(s, j, now))
  {
    var s' := Served(s, j, now);
    assert s.queue[j] in s.queue && EntryOk(s, s.queue[j]);
    if s.queue[j].timerIndex in s.timers {
      CountedAppend(s, s'.fired[|s.fired|], s', s.pasts[s.queue[j].timerIndex].sinceSet + 1);
    }
  }

  lemma CountedAppend(s: State, f: Firing, s': State, n: nat)
    requires Counted(s) && f.timer in s.pasts && f.past == s.pasts[f.timer]
    requires s'.fired == s.fired + [f] && s'.nextIndex == s.nextIndex
    requires s'.pasts == s.pasts[f.timer := f.past.(beats := f.past.beats + 1, sinceSet := n)]
    ensures Counted(s')
  {
    forall i ensures Firings(s'.fired, i) == Firings(s.fired, i) + (if f.timer == i then 1 else 0) {
      FiringsAppend(s.fired, f, i);
    }
    forall a | 0 <= a < |s'.fired| ensures CountedAt(s'.fired, a) {
      assert a < |s.fired| ==> CountedAt(s.fired, a);
      assert s'.fired[..a] == s.fired[..a];
      assert s.fired[..|s.fired|] == s.fired;
    }
  }

  lemma TopIsLeast(queue: seq<Entry>, j: nat, e: Entry)
    requires IsTop(queue, j) && e in queue
    ensures queue[j].nextBeat <= e.nextBeat
  {
  }

  /** Beats fire in order: the top is least, and none fired after it. */
  lemma ServedFirings(s: State, j: nat, now: nat)
    requires Inv(s) && Enabled(s, Serve(j, now))
    ensures var s' := Served(s, j, now);
            && (forall f <- s'.fired :: FiringOk(s', f))
            && (forall a, b :: 0 <= a < b < |s'.fired| ==> s'.fired[a].beat <= s'.fired[b].beat)
  {
    var s' := Served(s, j, now);
    var top := s.queue[j];
    assert top in s.queue && EntryOk(s, top);
    forall f | f in s'.fired ensures FiringOk(s', f) {
      if f in s.fired {
        assert FiringOk(s, f);
      } else {
        assert TimerOk(s, top.timerIndex);
      }
    }
    forall a, b | 0 <= a < b < |s'.fired| ensures s'.fired[a].beat <= s'.fired[b].beat {
      assert a < |s.fired| ==> s.fired[a] in s.fired;
    }
  }

  lemma StepKeepsInv(s: State, step: Step)
    requires Inv(s) && Enabled(s, step)
    ensures Inv(Apply(s, step))
  {
    match step
    case Process(msg, hit, now) =>
      if msg.Cancel? {
        CancelKeeps(s, msg, hit, now);
      } else if hit.Some? {
        SetAgainKeeps(s, msg.timerDef, hit.value, now);
      } else {
        SetNewKeeps(s, msg.timerDef, now);
      }
    case Serve(j, now) => ServeKeeps(s, j, now);
  }

  // ----- what a message asks for -----

  predicate Named(timers: map<TimerID, TimerState>, i: TimerID, name: string) {
    i in timers && name != "" && timers[i].timerDef.timerName == name
  }

  /** Cancelling by ID takes that timer away, cancelling by name the one of that name, and
      everything else stays as it was. */
  lemma CancelTakes(s: State, msg: Message, hit: Option<TimerID>, now: nat)
    requires NamesDiffer(s.timers) && msg.Cancel? && Finds(s.timers, msg, hit)
    ensures var s' := Processed(s, msg, hit, now);
            && s'.queue == s.queue && s'.nextIndex == s.nextIndex && s'.fired == s.fired
            && (msg.timerName == "" ==> s'.timers == s.timers - {msg.timerID})
            && (msg.timerName != "" ==> s'.timers == s.timers - (set i | i in s.timers && s.timers[i].timerDef.timerName == msg.timerName))
  {
    if msg.timerName != "" && hit.Some? {
      forall i | Named(s.timers, i, msg.timerName) ensures i == hit.value {
      }
    }
  }

  /** Setting a name in use changes the timer of that name only. Otherwise there is a new
      timer under the next index, and its first beat one interval away. */
  lemma SetPuts(s: State, def: TimerDefinition, hit: Option<TimerID>, now: nat)
    requires NamesDiffer(s.timers) && Finds(s.timers, Set(def), hit)
    ensures var s', i := Processed(s, Set(def), hit, now), s.nextIndex;
            && (forall k :: Named(s.timers, k, def.timerName) ==>
                  s'.timers == s.timers[k := TimerState(true, def)] && s'.queue == s.queue && s'.nextIndex == i)
            && ((forall k :: !Named(s.timers, k, def.timerName)) ==>
                  s'.timers == s.timers[i := TimerState(true, def)] && s'.queue == s.queue + [Entry(now + def.timeInterval, i)] && s'.nextIndex == i + 1)
  {
    if def.timerName != "" && hit.Some? {
      assert Named(s.timers, hit.value, def.timerName);
    }
  }

  // ----- every run -----

  ghost predicate Initial(s: State) { s == Start }

  ghost predicate Moves(s: State, step: Step, s': State) { Enabled(s, step) && s' == Apply(s, step) }

  ghost predicate Reachable(s: State) { Runs.Reachable(Initial, Moves, s) }

  lemma InvIsInductive()
    ensures Runs.Inductive(Initial, Moves, Inv)
  {
    forall s: State, step: Step, s': State | Inv(s) && Moves(s, step, s') ensures Inv(s') {
      StepKeepsInv(s, step);
    }
  }

  lemma ReachableInv(s: State)
    requires Reachable(s)
    ensures Inv(s)
  {
    InvIsInductive();
    Runs.ReachableKeeps(Initial, Moves, Inv, s);
  }

  /** A live timer has exactly one entry in the queue, and no two have the same name. */
  lemma OneEntryPerTimer(s: State, i: TimerID) returns (j: nat)
    requires Reachable(s) && i in s.timers
    ensures j < |s.queue| && s.queue[j].timerIndex == i
    ensures forall k :: 0 <= k < |s.queue| && s.queue[k].timerIndex == i ==> k == j
    ensures s.timers[i].timerDef.timerName != "" ==>
              forall k :: k in s.timers && s.timers[k].timerDef.timerName == s.timers[i].timerDef.timerName ==> k == i
  {
    ReachableInv(s);
    assert TimerOk(s, i);
    var e :| e in s.queue && e.timerIndex == i;
    j :| 0 <= j < |s.queue| && s.queue[j] == e;
  }

  /** The k-th beat of a timer never set again is its start plus k intervals; no beat comes
      early. */
  lemma BeatIsStartPlusIntervals(s: State, a: nat)
    requires Reachable(s) && a < |s.fired|
    ensures s.fired[a].beat <= s.fired[a].at
    ensures var f := s.fired[a];
            !f.past.modified ==> f.beat == f.past.start + (Firings(s.fired[..a], f.timer) + 1) * f.timerDef.timeInterval
  {
    ReachableInv(s);
    assert s.fired[a] in s.fired && CountedAt(s.fired, a);
    BeatAtIs(s.fired[a].past.start, s.fired[a].timerDef.timeInterval, s.fired[a].past.beats + 1);
  }

  lemma BeatsFireInOrder(s: State, a: nat, b: nat)
    requires Reachable(s) && a < b < |s.fired|
    ensures s.fired[a].beat <= s.fired[b].beat
  {
    ReachableInv(s);
  }

  /** A one-shot timer fires twice after it was set: the first callback finds recalibrate up
      and leaves the timer in place, the second one removes it. */
  lemma OneShotFiresTwice(s: State, j: nat, now: nat)
    requires Reachable(s) && Enabled(s, Serve(j, now))
    requires var i := s.queue[j].timerIndex; i in s.timers && !s.timers[i].timerDef.repeatingTimer
    ensures var i, s' := s.queue[j].timerIndex, Served(s, j, now);
            && i in s.pasts && s.pasts[i].sinceSet <= 1 && |s'.fired| == |s.fired| + 1 && s'.fired[|s.fired|].timer == i
            && (i in s'.timers <==> s.pasts[i].sinceSet == 0)
  {
    ReachableInv(s);
    assert TimerOk(s, s.queue[j].timerIndex);
  }

  lemma {:induction false} GoneStaysGone(states: seq<State>, steps: seq<Step>, k: nat, m: nat, i: TimerID)
    requires Runs.IsRun(Initial, Moves, states, steps) && k <= m <= |steps| && i < states[k].nextIndex && i !in states[k].timers
    ensures i < states[m].nextIndex && i !in states[m].timers && Firings(states[m].fired, i) == Firings(states[k].fired, i)
    decreases m
  {
    if k < m {
      GoneStaysGone(states, steps, k, m - 1, i);
      assert Moves(states[m - 1], steps[m - 1], states[m]);
      GoneStep(states[m - 1], steps[m - 1], i);
    }
  }

  lemma GoneStep(s: State, step: Step, i: TimerID)
    requires Enabled(s, step) && i < s.nextIndex && i !in s.timers
    ensures var s' := Apply(s, step); i < s'.nextIndex && i !in s'.timers && Firings(s'.fired, i) == Firings(s.fired, i)
  {
    var s' := Apply(s, step);
    if step.Serve? && |s'.fired| > |s.fired| {
      FiringsAppend(s.fired, s'.fired[|s.fired|], i);
    }
  }

  /** Once a cancellation is processed the timer it found never fires again: indexes are not
      reused. */
  lemma CancelledNeverFires(states: seq<State>, steps: seq<Step>, k: nat, m: nat)
    requires Runs.IsRun(Initial, Moves, states, steps) && k < m <= |steps|
    requires steps[k].Process? && steps[k].msg.Cancel? && steps[k].hit.Some?
    ensures var i := steps[k].hit.value;
            i !in states[m].timers && Firings(states[m].fired, i) == Firings(states[k].fired, i)
  {
    var i := steps[k].hit.value;
    assert Moves(states[k], steps[k], states[k + 1]);
    InvIsInductive();
    Runs.RunKeeps(Initial, Moves, Inv, states, steps, k);
    assert TimerOk(states[k], i);
    GoneStaysGone(states, steps, k + 1, m, i);
  }

  lemma TopIsServed(s: State, j: nat, now: nat)
    requires Inv(s) && Enabled(s, Serve(j, now))
    ensures Inv(Served(s, j, now))
    ensures s.queue[j].timerIndex in s.timers ==> s.queue[j].timerIndex in s.pasts
  {
    ServeKeeps(s, j, now);
    assert s.queue[j].timerIndex in s.timers ==> TimerOk(s, s.queue[j].timerIndex);
  }

  // ----- the thread -----

  datatype TimerAction = Reinsert | Remove

  class TimerThread {
    var timerStates: map<TimerID, TimerState>
    var timerPriorities: seq<Entry>
    var nextTimerIndex: TimerID
    ghost var clock: nat
    ghost var pasts: map<TimerID, Past>
    ghost var fired: seq<Firing>

    ghost function Abstract(): State reads this {
      State(timerStates, timerPriorities, nextTimerIndex, clock, pasts, fired)
    }

    ghost predicate Valid() reads this { Inv(Abstract()) }

    constructor ()
      ensures Valid() && Abstract() == Start
    {
      timerStates, timerPriorities, nextTimerIndex := map[], [], 0;
      clock, pasts, fired := 0, map[], [];
    }

    method FindByName(name: string) returns (hit: Option<TimerID>)
      ensures hit.Some? ==> hit.value in timerStates && timerStates[hit.value].timerDef.timerName == name
      ensures hit.None? ==> forall i :: i in timerStates ==> timerStates[i].timerDef.timerName != name
    {
      var rest := timerStates.Keys;
      while rest != {}
        invariant rest <= timerStates.Keys
        invariant forall i :: i in timerStates && i !in rest ==> timerStates[i].timerDef.timerName != name
        decreases rest
      {
        var i :| i in rest;
        if timerStates[i].timerDef.timerName == name {
          return Some(i);
        }
        rest := rest - {i};
      }
      hit := None;
    }

    method Search(msg: Message) returns (hit: Option<TimerID>)
      ensures Finds(timerStates, msg, hit)
    {
      var name := if msg.Set? then msg.timerDef.timerName else msg.timerName;
      if name != "" {
        hit := FindByName(name);
      } else {
        hit := if msg.Cancel? && msg.timerID in timerStates then Some(msg.timerID) else None;
      }
    }

    method ProcessTimerMessage(msg: Message, now: nat) returns (hit: Option<TimerID>)
      requires Valid() && clock <= now
      modifies this
      ensures Finds(old(timerStates), msg, hit)
      ensures Valid() && Abstract() == Processed(old(Abstract()), msg, hit, now)
      ensures msg.Cancel? ==> timerPriorities == old(timerPriorities) && nextTimerIndex == old(nextTimerIndex)
      ensures msg.Cancel? && msg.timerName == "" ==> timerStates == old(timerStates) - {msg.timerID}
      ensures msg.Cancel? && msg.timerName != "" ==>
                timerStates == old(timerStates) - (set i | i in old(timerStates) && old(timerStates)[i].timerDef.timerName == msg.timerName)
      ensures msg.Set? ==> forall k :: Named(old(timerStates), k, msg.timerDef.timerName) ==>
                && timerStates == old(timerStates)[k := TimerState(true, msg.timerDef)]
                && timerPriorities == old(timerPriorities) && nextTimerIndex == old(nextTimerIndex)
      ensures msg.Set? && (forall k :: !Named(old(timerStates), k, msg.timerDef.timerName)) ==>
                var i := old(nextTimerIndex);
                && timerStates == old(timerStates)[i := TimerState(true, msg.timerDef)] && nextTimerIndex == i + 1
                && timerPriorities == old(timerPriorities) + [Entry(now + msg.timerDef.timeInterval, i)]
    {
      hit := Search(msg);
      if msg.Cancel? {
        CancelTakes(Abstract(), msg, hit, now);
      } else {
        SetPuts(Abstract(), msg.timerDef, hit, now);
      }
      StepKeepsInv(Abstract(), Process(msg, hit, now));
      ActOn(msg, hit, now);
    }

    method ActOn(msg: Message, hit: Option<TimerID>, now: nat)
      requires Finds(timerStates, msg, hit)
      modifies this
      ensures Abstract() == Processed(old(Abstract()), msg, hit, now)
    {
      Record(msg, hit, now);
      match msg
      case Set(def) =>
        if hit.Some? {
          timerStates := timerStates[hit.value := TimerState(true, def)];
        } else {
          timerStates := timerStates[nextTimerIndex := TimerState(true, def)];
          timerPriorities := timerPriorities + [Entry(now + def.timeInterval, nextTimerIndex)];
          nextTimerIndex := nextTimerIndex + 1;
        }
      case Cancel(_, _) =>
        if hit.Some? {
          timerStates := timerStates - {hit.value};
        }
    }

    /** Histories only. */
    ghost method Record(msg: Message, hit: Option<TimerID>, now: nat)
      requires Finds(timerStates, msg, hit)
      modifies this`clock, this`pasts
      ensures clock == now && pasts == Processed(old(Abstract()), msg, hit, now).pasts
    {
      pasts := Processed(Abstract(), msg, hit, now).pasts;
      clock := now;
    }

    /** The callback is made; the entry comes back with its next beat, or not at all. */
    method OnTimerDue(entry: Entry, now: nat) returns (action: TimerAction, next: Entry)
      requires entry.timerIndex in timerStates ==> entry.timerIndex in pasts
      modifies this`timerStates, this`pasts, this`fired
      ensures next.timerIndex == entry.timerIndex
      ensures var i := entry.timerIndex;
              if i !in old(timerStates) then action == Remove && unchanged(this)
              else
                var timer, past := old(timerStates)[i], old(pasts)[i];
                && fired == old(fired) + [Firing(i, entry.nextBeat, now, past, timer.timerDef)]
                && pasts == old(pasts)[i := past.(beats := past.beats + 1, sinceSet := past.sinceSet + 1)]
                && if !timer.recalibrate && !timer.timerDef.repeatingTimer then action == Remove && timerStates == old(timerStates) - {i}
                   else action == Reinsert && next.nextBeat == entry.nextBeat + timer.timerDef.timeInterval
                        && timerStates == old(timerStates)[i := timer.(recalibrate := false)]
    {
      next, action := entry, Reinsert;
      var i := entry.timerIndex;
      if i !in timerStates {
        return Remove, entry;
      }
      fired := fired + [Firing(i, entry.nextBeat, now, pasts[i], timerStates[i].timerDef)];
      pasts := pasts[i := pasts[i].(beats := pasts[i].beats + 1, sinceSet := pasts[i].sinceSet + 1)];
      var timer := timerStates[i];
      if !timer.recalibrate && !timer.timerDef.repeatingTimer {
        action := Remove;
        timerStates := timerStates - {i};
      } else {
        next := entry.(nextBeat := entry.nextBeat + timer.timerDef.timeInterval);
        timerStates := timerStates[i := timer.(recalibrate := false)];
      }
    }

    /** One entry at most: the top one, if it is due. */
    method ServeTop(now: nat) returns (due: bool, ghost j: nat)
      requires Valid() && clock <= now && timerPriorities != []
      modifies this
      ensures IsTop(old(timerPriorities), j) && (due <==> old(timerPriorities)[j].nextBeat <= now)
      ensures Valid() && Abstract() == if due then Served(old(Abstract()), j, now) else old(Abstract())
      ensures if due then Fired(j) else unchanged(this)
    {
      var k := Top();
      j := k;
      due := now >= timerPriorities[k].nextBeat;
      if due {
        FireTop(k, now);
      }
    }

    method Top() returns (k: nat)
      requires timerPriorities != []
      ensures IsTop(timerPriorities, k)
    {
      TopExists(timerPriorities);
      k :| 0 <= k < |timerPriorities| && IsTop(timerPriorities, k);
    }

    method FireTop(k: nat, now: nat)
      requires Valid() && clock <= now && IsTop(timerPriorities, k) && timerPriorities[k].nextBeat <= now
      modifies this
      ensures Valid() && Abstract() == Served(old(Abstract()), k, now)
      ensures Fired(k)
    {
      TopIsServed(Abstract(), k, now);
      Fire(k, now);
    }

    /** What the k-th entry, due and served, leaves: it is out of the queue; its timer, if
        there still is one, has had a callback for it, and comes back with the next beat or goes. */
    twostate predicate Fired(k: nat)
      requires k < |old(timerPriorities)|
      reads this
    {
      var top, rest := old(timerPriorities)[k], old(timerPriorities)[..k] + old(timerPriorities)[k + 1..];
      var i := top.timerIndex;
      if i !in old(timerStates) then timerPriorities == rest && timerStates == old(timerStates) && fired == old(fired)
      else
        var timer := old(timerStates)[i];
        && |fired| == |old(fired)| + 1 && fired[|old(fired)|].timer == i && fired[|old(fired)|].beat == top.nextBeat
        && if timer.recalibrate || timer.timerDef.repeatingTimer then
             && timerStates == old(timerStates)[i := TimerState(false, timer.timerDef)]
             && timerPriorities == rest + [Entry(top.nextBeat + timer.timerDef.timeInterval, i)]
           else timerStates == old(timerStates) - {i} && timerPriorities == rest
    }

    method Fire(k: nat, now: nat)
      requires IsTop(timerPriorities, k)
      requires timerPriorities[k].timerIndex in timerStates ==> timerPriorities[k].timerIndex in pasts
      modifies this
      ensures Abstract() == Served(old(Abstract()), k, now)
      ensures Fired(k)
    {
      var action, next := OnTimerDue(timerPriorities[k], now);
      timerPriorities := Without(timerPriorities, k);
      if action == Reinsert {
        timerPriorities := timerPriorities + [next];
      }
      clock := now;
    }
  }

  lemma {:induction false} TopExists(queue: seq<Entry>)
    requires queue != []
    ensures exists j :: 0 <= j < |queue| && IsTop(queue, j)
    decreases |queue|
  {
    if |queue| == 1 {
      assert IsTop(queue, 0);
    } else {
      var front := queue[..|queue| - 1];
      TopExists(front);
      var j :| 0 <= j < |front| && IsTop(front, j);
      assert if front[j].nextBeat <= queue[|front|].nextBeat then IsTop(queue, j) else IsTop(queue, |front|);
    }
  }
}
