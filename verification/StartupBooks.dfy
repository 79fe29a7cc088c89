/** Holder/StartupTaskManager: what one action does to the calls of OnTaskReady and to
    m_waitingTasks, and what follows for any number of actions in a row. */
module StartupBooks {
  import opened Collections
  import opened StartupState
  import opened StartupNames
  import opened StartupSteps

  // ----- one action -----

  ghost predicate NewlyReleased(a: Tasks, b: Tasks, t: TaskID) {
    t in b && Released(b[t].state) && !(t in a && Released(a[t].state))
  }

  /** The failed tasks that came back to life. */
  ghost function Revivals(a: Tasks, b: Tasks): set<TaskID> {
    set t | t in a && t in b && a[t].state == Failed && b[t].state != Failed
  }

  /** OnTaskReady was called once for every task that was released, and for no other. */
  ghost predicate Announces(a: Tasks, b: Tasks, log: seq<TaskID>, log': seq<TaskID>) {
    && |log| <= |log'| && log'[..|log|] == log && NoDup(log'[|log|..])
    && forall t :: t in log'[|log|..] <==> NewlyReleased(a, b, t)
  }

  /** The counter follows the tasks that are not terminal, but does not notice those that
      were failed and are not any more. */
  ghost predicate Counts(a: Tasks, b: Tasks, waiting: int, waiting': int) {
    waiting' - waiting == |NonTerminal(b)| - |NonTerminal(a)| - |Revivals(a, b)|
  }

  ghost predicate Booked(a: Tasks, b: Tasks, log: seq<TaskID>, log': seq<TaskID>, waiting: int, waiting': int) {
    Announces(a, b, log, log') && Counts(a, b, waiting, waiting')
  }

  /** Nobody was released or revived. */
  lemma QuietlyBooked(a: Tasks, b: Tasks, log: seq<TaskID>, waiting: int, waiting': int)
    requires a.Keys <= b.Keys
    requires forall t :: t in b && Released(b[t].state) ==> t in a && Released(a[t].state)
    requires forall t :: t in a && a[t].state == Failed ==> b[t].state == Failed
    requires waiting' - waiting == |NonTerminal(b)| - |NonTerminal(a)|
    ensures Booked(a, b, log, log, waiting, waiting')
  {
    assert log[|log|..] == [];
    assert Revivals(a, b) == {};
  }

  lemma DefinitionBooked(names: Names, a: Tasks, id: TaskID, n: string, log: seq<TaskID>, waiting: int)
    requires Mid(a) && NameEdges(names, a) && id !in a
    ensures Booked(a, ResolvedTasks(a, id, n, WaitingOn(names, n)), log, log, waiting, waiting + 1)
  {
    var w := WaitingOn(names, n);
    var b := ResolvedTasks(a, id, n, w);
    forall t | t in a ensures b[t].state == a[t].state {
      assert b[t] == ResolvedTask(a, id, n, w, t);
    }
    ResolvedRest(names, a, id, n, {});
    assert |NonTerminal(a) + {id}| == |NonTerminal(a)| + 1;
    QuietlyBooked(a, b, log, waiting, waiting + 1);
  }

  lemma RunBooked(a: Tasks, id: TaskID, log: seq<TaskID>, waiting: int)
    requires id in a && a[id].state == Ready
    ensures Booked(a, a[id := a[id].(state := Running)], log, log, waiting, waiting)
  {
    NonTerminalAfter(a, id, a[id].(state := Running));
    QuietlyBooked(a, a[id := a[id].(state := Running)], log, waiting, waiting);
  }

  lemma FailureBooked(a: Tasks, x: TaskID, b: Tasks, silent: set<TaskID>, log: seq<TaskID>, waiting: int, waiting': int)
    requires FailsTo(a, x, b, silent) && Failable(a[x].state)
    requires waiting' - |NonTerminal(b)| == waiting - |NonTerminal(a)|
    ensures Booked(a, b, log, log, waiting, waiting')
  {
    var a1 := a[x := a[x].(state := Failed)];
    FailureAbsorbs(a, x, b, silent);
    forall t | t in b && Released(b[t].state) ensures t in a && Released(a[t].state) {
      assert b[t].state == a1[t].state || NewlyFailed(a1, b, t);
    }
    QuietlyBooked(a, b, log, waiting, waiting');
  }

  lemma SettingStates(names: Names, a: Tasks, id: TaskID, deps: set<string>, c: Tasks, runs: TaskID -> bool, silent: set<TaskID>, t: TaskID)
    requires id in a && Settable(a[id].state) && SetDependenciesTo(names, a, id, deps, c, runs, silent) && t in a
    ensures t in c && (NewlyReleased(a, c, t) <==> t == id && NewlyReady(names, a, id, deps) == [id])
  {
    var ids, undefined := RecordedIds(names, deps), RecordedUndefined(names, deps);
    var b := RewiredTasks(a, id, ids, undefined);
    EvaluatedShape(b, id, c, runs, silent);
    assert b[t] == RewiredTask(a, id, ids, undefined, t);
    assert b[id] == RewiredTask(a, id, ids, undefined, id);
    if HasFailedDep(b, id) {
      assert c[t].state == b[t].state || NewlyFailed(b, c, t);
      assert NewlyFailed(b, c, t) ==> CausedBy(b, c, {id}, t, silent);
    }
  }

  lemma SettingBooked(names: Names, a: Tasks, id: TaskID, deps: set<string>, c: Tasks, runs: TaskID -> bool, silent: set<TaskID>,
                      log: seq<TaskID>, log': seq<TaskID>, waiting: int, waiting': int)
    requires id in a && Settable(a[id].state) && SetDependenciesTo(names, a, id, deps, c, runs, silent)
    requires log' == log + NewlyReady(names, a, id, deps)
    requires waiting' - |NonTerminal(c)| == waiting - |NonTerminal(a)|
    ensures Booked(a, c, log, log', waiting, waiting')
  {
    SetDependenciesAbsorbs(names, a, id, deps, c, runs, silent);
    assert Revivals(a, c) == {};
    assert log'[|log|..] == NewlyReady(names, a, id, deps) && log'[..|log|] == log;
    forall t ensures t in log'[|log|..] <==> NewlyReleased(a, c, t) {
      if t in a {
        SettingStates(names, a, id, deps, c, runs, silent, t);
      }
    }
  }

  lemma CompletionStates(a: Tasks, x: TaskID, b: Tasks, runs: TaskID -> bool, t: TaskID)
    requires Mid(a) && CompletesTo(a, x, b, runs) && t in a
    ensures t in b
    ensures NewlyReleased(a, b, t) <==> t in a[x].dependedOnBy && AllDone(a[x := a[x].(state := Completed)], t)
    ensures t in NonTerminal(b) <==> (t in NonTerminal(a) && t != x) || t in Revivals(a, b)
  {
    var a1 := a[x := a[x].(state := Completed)];
    CompletesToShape(a, x, b, runs);
    NotItsOwnDependent(a, x);
    assert b[t].state == if t in a[x].dependedOnBy && AllDone(a1, t) then ReadyState(runs, t) else a1[t].state;
    if t in a[x].dependedOnBy {
      DependentOfUnfinished(a, x, t);
    }
  }

  lemma CompletionBooked(a: Tasks, x: TaskID, b: Tasks, runs: TaskID -> bool, log: seq<TaskID>, log': seq<TaskID>, waiting: int)
    requires Mid(a) && CompletesTo(a, x, b, runs)
    requires Announced(a[x := a[x].(state := Completed)], a[x].dependedOnBy, log, log')
    ensures Booked(a, b, log, log', waiting, waiting - 1)
  {
    CompletesToShape(a, x, b, runs);
    forall t | t in a
      ensures NewlyReleased(a, b, t) <==> t in a[x].dependedOnBy && AllDone(a[x := a[x].(state := Completed)], t)
      ensures t in NonTerminal(b) <==> (t in NonTerminal(a) && t != x) || t in Revivals(a, b)
    {
      CompletionStates(a, x, b, runs, t);
    }
    assert a.Keys == b.Keys;
    assert x in NonTerminal(a) && NonTerminal(a) !! Revivals(a, b);
    assert NonTerminal(b) == (NonTerminal(a) - {x}) + Revivals(a, b);
  }

  // ----- the executor with its log and its counter -----

  /** log: the calls of OnTaskReady so far. waiting: m_waitingTasks. */
  datatype Book = Book(now: Snapshot, log: seq<TaskID>, waiting: int)

  ghost predicate BookTo(s: Book, action: Action, s': Book, runs: TaskID -> bool) {
    && (action.DefineTask? ==> action.id !in s.now.tasks)
    && ActsTo(s.now, action, s'.now, runs)
    && Booked(s.now.tasks, s'.now.tasks, s.log, s'.log, s.waiting, s'.waiting)
  }

  lemma RefusedBooked(a: Tasks, log: seq<TaskID>, waiting: int)
    ensures Booked(a, a, log, log, waiting, waiting)
  {
    QuietlyBooked(a, a, log, waiting, waiting);
  }

  lemma DefinitionActs(s: Book, id: TaskID, name: string, s': Book, runs: TaskID -> bool)
    requires Sound(s.now) && Sound(s'.now) && id !in s.now.tasks
    requires !Definable(s.now.names, name) ==> s' == s
    requires Definable(s.now.names, name) ==>
      s' == Book(s.now.(names := s.now.names[name := Defined(id)], tasks := ResolvedTasks(s.now.tasks, id, name, WaitingOn(s.now.names, name))),
                 s.log, s.waiting + 1)
    ensures BookTo(s, DefineTask(id, name), s', runs)
    ensures KeepsCompleted(s.now.tasks, s'.now.tasks) && KeepsFailed(s.now.tasks, s'.now.tasks)
  {
    if Definable(s.now.names, name) {
      DefinitionBooked(s.now.names, s.now.tasks, id, name, s.log, s.waiting);
      DefinitionAbsorbs(s.now.tasks, s.now.names, id, name);
    } else {
      RefusedBooked(s.now.tasks, s.log, s.waiting);
    }
  }

  lemma RunActs(s: Book, id: TaskID, s': Book, runs: TaskID -> bool)
    requires Sound(s.now) && Sound(s'.now)
    requires s' == if id in s.now.tasks && s.now.tasks[id].state == Ready
                   then s.(now := s.now.(tasks := s.now.tasks[id := s.now.tasks[id].(state := Running)])) else s
    ensures BookTo(s, RunTask(id), s', runs)
    ensures KeepsCompleted(s.now.tasks, s'.now.tasks) && KeepsFailed(s.now.tasks, s'.now.tasks)
  {
    if s' == s {
      RefusedBooked(s.now.tasks, s.log, s.waiting);
    } else {
      RunBooked(s.now.tasks, id, s.log, s.waiting);
    }
  }

  /** What the handler of SetDependencies does. */
  ghost predicate SetTo(s: Book, id: TaskID, deps: set<string>, s': Book, runs: TaskID -> bool) {
    && Mid(s'.now.tasks) && Flags(s'.now.tasks, s'.now.told, Context(s.now.told, s'.now.byRequest)) && s'.now.byRequest == s.now.byRequest
    && if id in s.now.tasks && Settable(s.now.tasks[id].state) then
         && s'.now.names == RewiredNames(WithNewNames(s.now.names, deps), id, RecordedUndefined(s.now.names, deps))
         && SetDependenciesTo(s.now.names, s.now.tasks, id, deps, s'.now.tasks, runs, s.now.told)
         && s'.log == s.log + NewlyReady(s.now.names, s.now.tasks, id, deps)
         && s'.waiting - |NonTerminal(s'.now.tasks)| == s.waiting - |NonTerminal(s.now.tasks)|
       else s' == s
  }

  lemma SettingActs(s: Book, id: TaskID, deps: set<string>, s': Book, runs: TaskID -> bool)
    requires SetTo(s, id, deps, s', runs)
    ensures BookTo(s, SetDependencies(id, deps), s', runs)
    ensures KeepsCompleted(s.now.tasks, s'.now.tasks) && KeepsFailed(s.now.tasks, s'.now.tasks) && s'.now.tasks.Keys == s.now.tasks.Keys
  {
    if id in s.now.tasks && Settable(s.now.tasks[id].state) {
      SetDependenciesAbsorbs(s.now.names, s.now.tasks, id, deps, s'.now.tasks, runs, s.now.told);
      SettingBooked(s.now.names, s.now.tasks, id, deps, s'.now.tasks, runs, s.now.told, s.log, s'.log, s.waiting, s'.waiting);
    } else {
      RefusedBooked(s.now.tasks, s.log, s.waiting);
    }
  }

  lemma CompletionActs(s: Book, id: TaskID, success: bool, s': Book, runs: TaskID -> bool)
    requires Sound(s.now) && Mid(s'.now.tasks) && Flags(s'.now.tasks, s'.now.told, Context(s.now.told, s'.now.byRequest))
    requires s'.now.names == s.now.names
    requires !Accepted(s.now, CompleteTask(id, success)) ==> s' == s
    requires Accepted(s.now, CompleteTask(id, success)) && success ==>
      && CompletesTo(s.now.tasks, id, s'.now.tasks, runs) && s'.now.byRequest == s.now.byRequest
      && Announced(s.now.tasks[id := s.now.tasks[id].(state := Completed)], s.now.tasks[id].dependedOnBy, s.log, s'.log)
      && s'.waiting == s.waiting - 1
    requires Accepted(s.now, CompleteTask(id, success)) && !success ==>
      && FailsTo(s.now.tasks, id, s'.now.tasks, s.now.told) && s'.now.byRequest == s.now.byRequest + {id}
      && s'.log == s.log && s'.waiting - |NonTerminal(s'.now.tasks)| == s.waiting - |NonTerminal(s.now.tasks)|
    ensures BookTo(s, CompleteTask(id, success), s', runs)
    ensures KeepsCompleted(s.now.tasks, s'.now.tasks) && s'.now.tasks.Keys == s.now.tasks.Keys
    ensures FailuresJustified(s.now.tasks) ==> KeepsFailed(s.now.tasks, s'.now.tasks)
  {
    if !Accepted(s.now, CompleteTask(id, success)) {
      RefusedBooked(s.now.tasks, s.log, s.waiting);
    } else if success {
      CompletionAbsorbs(s.now.tasks, id, s'.now.tasks, runs);
      CompletionBooked(s.now.tasks, id, s'.now.tasks, runs, s.log, s'.log, s.waiting);
    } else {
      FailureAbsorbs(s.now.tasks, id, s'.now.tasks, s.now.told);
      FailureBooked(s.now.tasks, id, s'.now.tasks, s.now.told, s.log, s.waiting, s'.waiting);
    }
  }

  ghost predicate InOrder(s: Book) { Orderly(s.now.tasks, s.log, s.waiting) }

  /** A request to fail a waiting task that may not fail yet. */
  ghost predicate OutOfTurn(s: Snapshot, action: Action) { FailsWaiting(s.tasks, action, s.told) }

  lemma ActAbsorbs(s: Snapshot, action: Action, s': Snapshot, runs: TaskID -> bool)
    requires Sound(s) && ActsTo(s, action, s', runs) && (action.DefineTask? ==> action.id !in s.tasks)
    ensures KeepsCompleted(s.tasks, s'.tasks)
    ensures FailuresJustified(s.tasks) ==> KeepsFailed(s.tasks, s'.tasks)
  {
    if Accepted(s, action) {
      match action
      case DefineTask(id, name) => DefinitionAbsorbs(s.tasks, s.names, id, name);
      case SetDependencies(id, deps) => SetDependenciesAbsorbs(s.names, s.tasks, id, deps, s'.tasks, runs, s.told);
      case RunTask(id) =>
      case CompleteTask(id, success) =>
        if success {
          CompletionAbsorbs(s.tasks, id, s'.tasks, runs);
        } else {
          FailureAbsorbs(s.tasks, id, s'.tasks, s.told);
        }
    }
  }

  lemma ActKeepsJustified(s: Snapshot, action: Action, s': Snapshot, runs: TaskID -> bool)
    requires Sound(s) && ActsTo(s, action, s', runs) && (action.DefineTask? ==> action.id !in s.tasks)
    requires FailuresJustified(s.tasks) && !OutOfTurn(s, action)
    ensures FailuresJustified(s'.tasks)
  {
    if Accepted(s, action) {
      match action
      case DefineTask(id, name) => ResolvedRest(s.names, s.tasks, id, name, s.told);
      case SetDependencies(id, deps) =>
        RecordedIdsExist(s.names, s.tasks, deps);
        SetDependenciesJustified(s.tasks, id, RecordedIds(s.names, deps), RecordedUndefined(s.names, deps), s'.tasks, runs, s.told);
      case RunTask(id) =>
        assert NamesTracked(s.names, s.tasks, map[], map[]);
        RunKeeps(s.tasks, s'.tasks, id, s.names, map[], map[], s.told);
      case CompleteTask(id, success) =>
        if success {
          CompletionKeepsJustified(s.tasks, id, s'.tasks, runs);
        } else {
          FailureJustifiedIff(s.tasks, id, s'.tasks, s.told);
        }
    }
  }

  /** Without revivals every call of OnTaskReady is for a task that never had one. */
  lemma AnnouncesOnce(a: Tasks, b: Tasks, log: seq<TaskID>, log': seq<TaskID>)
    requires OncePerTask(a, log) && Announces(a, b, log, log') && KeepsFailed(a, b)
    requires forall t :: t in a && Released(a[t].state) ==> Released(b[t].state) || b[t].state == Failed
    ensures OncePerTask(b, log')
  {
    var added := log'[|log|..];
    assert log' == log + added;
    forall t | t in added ensures t !in log {
      assert NewlyReleased(a, b, t);
    }
    NoDupConcat(log, added);
    forall t | t in log' ensures t in b && b[t].state != DepsUnknown && b[t].state != WaitingForDeps {
      assert t in log || t in added;
    }
  }

  lemma ReleasedStays(s: Snapshot, action: Action, s': Snapshot, runs: TaskID -> bool, t: TaskID)
    requires Sound(s) && ActsTo(s, action, s', runs) && (action.DefineTask? ==> action.id !in s.tasks)
    requires t in s.tasks && Released(s.tasks[t].state)
    ensures t in s'.tasks && (Released(s'.tasks[t].state) || s'.tasks[t].state == Failed)
  {
    if Accepted(s, action) {
      match action
      case DefineTask(id, name) => assert s'.tasks[t] == ResolvedTask(s.tasks, id, name, WaitingOn(s.names, name), t);
      case SetDependencies(id, deps) => SettingKeepsReleased(s, id, deps, s', runs, t);
      case RunTask(id) =>
      case CompleteTask(id, success) =>
        if success {
          CompletionStates(s.tasks, id, s'.tasks, runs, t);
          var a1 := s.tasks[id := s.tasks[id].(state := Completed)];
          assert s'.tasks[t].state == if t in s.tasks[id].dependedOnBy && AllDone(a1, t) then ReadyState(runs, t) else a1[t].state;
        } else {
          var a1 := s.tasks[id := s.tasks[id].(state := Failed)];
          FailsToShape(s.tasks, id, s'.tasks, s.told);
          assert !NewlyFailed(a1, s'.tasks, t);
        }
    }
  }

  lemma SettingKeepsReleased(s: Snapshot, id: TaskID, deps: set<string>, s': Snapshot, runs: TaskID -> bool, t: TaskID)
    requires ActsTo(s, SetDependencies(id, deps), s', runs) && Accepted(s, SetDependencies(id, deps))
    requires t in s.tasks && Released(s.tasks[t].state)
    ensures t in s'.tasks && s'.tasks[t].state == s.tasks[t].state
  {
    var ids, undefined := RecordedIds(s.names, deps), RecordedUndefined(s.names, deps);
    var b := RewiredTasks(s.tasks, id, ids, undefined);
    EvaluatedShape(b, id, s'.tasks, runs, s.told);
    assert b[t] == RewiredTask(s.tasks, id, ids, undefined, t);
    assert !NewlyFailed(b, s'.tasks, t);
  }

  /** An action that is not out of turn keeps failures explained, announcements unique and the
      counter exact, and leaves every failed task failed. */
  lemma BookKeepsOrder(s: Book, action: Action, s': Book, runs: TaskID -> bool)
    requires Sound(s.now) && BookTo(s, action, s', runs) && InOrder(s) && !OutOfTurn(s.now, action)
    ensures InOrder(s') && KeepsFailed(s.now.tasks, s'.now.tasks)
  {
    ActAbsorbs(s.now, action, s'.now, runs);
    ActKeepsJustified(s.now, action, s'.now, runs);
    forall t | t in s.now.tasks && Released(s.now.tasks[t].state) ensures Released(s'.now.tasks[t].state) || s'.now.tasks[t].state == Failed {
      ReleasedStays(s.now, action, s'.now, runs, t);
    }
    AnnouncesOnce(s.now.tasks, s'.now.tasks, s.log, s'.log);
    assert Revivals(s.now.tasks, s'.now.tasks) == {};
  }

  /** The log and the counter can always follow. */
  lemma CanBeBooked(s: Book, action: Action, now: Snapshot, runs: TaskID -> bool) returns (s': Book)
    requires Sound(s.now) && ActsTo(s.now, action, now, runs) && (action.DefineTask? ==> action.id !in s.now.tasks)
    ensures s'.now == now && BookTo(s, action, s', runs)
  {
    var added := ListSet(set t | t in now.tasks && NewlyReleased(s.now.tasks, now.tasks, t));
    s' := Book(now, s.log + added, s.waiting + |NonTerminal(now.tasks)| - |NonTerminal(s.now.tasks)| - |Revivals(s.now.tasks, now.tasks)|);
    assert s'.log[|s.log|..] == added && s'.log[..|s.log|] == s.log;
    forall t ensures t in added <==> NewlyReleased(s.now.tasks, now.tasks, t) {
      assert t in added <==> t in Range(added);
    }
  }

  /** Failed tasks come back to life when the last dependency they have completes, and in no
      other way. */
  lemma RevivalsAre(s: Snapshot, action: Action, s': Snapshot, runs: TaskID -> bool)
    requires Sound(s) && ActsTo(s, action, s', runs) && (action.DefineTask? ==> action.id !in s.tasks)
    ensures Revivals(s.tasks, s'.tasks) == if action.CompleteTask? && action.success && Accepted(s, action)
                                           then set t | t in s.tasks && Revived(s.tasks, action.id, t) else {}
  {
    if Accepted(s, action) {
      match action
      case DefineTask(id, name) => DefinitionAbsorbs(s.tasks, s.names, id, name);
      case SetDependencies(id, deps) => SetDependenciesAbsorbs(s.names, s.tasks, id, deps, s'.tasks, runs, s.told);
      case RunTask(id) =>
      case CompleteTask(id, success) =>
        if success {
          CompletesToShape(s.tasks, id, s'.tasks, runs);
          forall t | t in s.tasks && s.tasks[t].state == Failed ensures s'.tasks[t].state != Failed <==> Revived(s.tasks, id, t) {
            FailedIsLeftIff(s.tasks, id, s'.tasks, runs, t);
          }
        } else {
          FailureAbsorbs(s.tasks, id, s'.tasks, s.told);
        }
    }
  }

  // ----- any number of actions -----

  /** marks: the services whose flags are set from outside before the action. */
  datatype Event = Event(marks: set<TaskID>, action: Action)

  function Marked(s: Book, e: Event): Book {
    s.(now := s.now.(told := s.now.told + e.marks))
  }

  ghost predicate StepAt(books: seq<Book>, events: seq<Event>, runs: TaskID -> bool, i: nat) {
    i < |events| < |books| && BookTo(Marked(books[i], events[i]), events[i].action, books[i + 1], runs)
  }

  /** books[i + 1] follows from books[i] by events[i]. */
  ghost predicate Pass(books: seq<Book>, events: seq<Event>, runs: TaskID -> bool) {
    && |books| == |events| + 1
    && forall i: nat {:trigger StepAt(books, events, runs, i)} :: i < |events| ==> StepAt(books, events, runs, i)
  }

  ghost predicate OutOfTurnAt(books: seq<Book>, events: seq<Event>, i: nat) {
    i < |events| < |books| && OutOfTurn(Marked(books[i], events[i]).now, events[i].action)
  }

  /** No request fails a waiting task that may not fail yet. */
  ghost predicate InTurn(books: seq<Book>, events: seq<Event>) {
    forall i: nat {:trigger OutOfTurnAt(books, events, i)} :: !OutOfTurnAt(books, events, i)
  }

  ghost predicate ReentersAt(books: seq<Book>, events: seq<Event>, i: nat) {
    i < |events| < |books| && ActionReenters(Marked(books[i], events[i]).now, events[i].action)
  }

  ghost predicate Reentered(books: seq<Book>, events: seq<Event>) {
    exists i: nat {:trigger ReentersAt(books, events, i)} :: ReentersAt(books, events, i)
  }

  /** A definition of a name that is defined already. */
  ghost predicate ThrowsAt(books: seq<Book>, events: seq<Event>, i: nat) {
    i < |events| < |books| && events[i].action.DefineTask? && !Accepted(Marked(books[i], events[i]).now, events[i].action)
  }

  lemma MarkedSound(s: Book, e: Event)
    requires Sound(s.now)
    ensures Sound(Marked(s, e).now)
  {
    MarkingKeeps(s.now.tasks, s.now.told, s.now.byRequest, e.marks);
  }

  /** What one action of a pass keeps. */
  lemma PassStep(books: seq<Book>, events: seq<Event>, runs: TaskID -> bool, i: nat)
    requires Pass(books, events, runs) && i < |events| && Sound(books[i].now)
    ensures Sound(books[i + 1].now) && KeepsCompleted(books[i].now.tasks, books[i + 1].now.tasks)
    ensures InOrder(books[i]) && InTurn(books, events) ==> InOrder(books[i + 1]) && KeepsFailed(books[i].now.tasks, books[i + 1].now.tasks)
  {
    var e := events[i];
    var s := Marked(books[i], e);
    assert StepAt(books, events, runs, i);
    MarkedSound(books[i], e);
    ActKeepsSound(s.now, e.action, books[i + 1].now, runs);
    ActAbsorbs(s.now, e.action, books[i + 1].now, runs);
    if InOrder(books[i]) && InTurn(books, events) {
      assert !OutOfTurnAt(books, events, i);
      BookKeepsOrder(s, e.action, books[i + 1], runs);
    }
  }

  lemma {:induction false} PassKeepsSound(books: seq<Book>, events: seq<Event>, runs: TaskID -> bool, k: nat)
    requires Pass(books, events, runs) && Sound(books[0].now) && k <= |events|
    ensures Sound(books[k].now)
  {
    if k > 0 {
      PassKeepsSound(books, events, runs, k - 1);
      PassStep(books, events, runs, k - 1);
    }
  }

  lemma PassStepCompleted(books: seq<Book>, events: seq<Event>, runs: TaskID -> bool, k: nat)
    requires Pass(books, events, runs) && Sound(books[0].now) && k < |events|
    ensures KeepsCompleted(books[k].now.tasks, books[k + 1].now.tasks)
  {
    PassKeepsSound(books, events, runs, k);
    PassStep(books, events, runs, k);
  }

  lemma CompletedTrans(a: Tasks, b: Tasks, c: Tasks)
    requires KeepsCompleted(a, b) && KeepsCompleted(b, c)
    ensures KeepsCompleted(a, c)
  {
  }

  lemma FailedTrans(a: Tasks, b: Tasks, c: Tasks)
    requires KeepsFailed(a, b) && KeepsFailed(b, c)
    ensures KeepsFailed(a, c)
  {
  }

  /** Completed is absorbing. */
  lemma {:induction false} PassKeepsCompleted(books: seq<Book>, events: seq<Event>, runs: TaskID -> bool, i: nat, k: nat)
    requires Pass(books, events, runs) && Sound(books[0].now) && i <= k <= |events|
    ensures KeepsCompleted(books[i].now.tasks, books[k].now.tasks)
  {
    if i < k {
      PassKeepsCompleted(books, events, runs, i, k - 1);
      PassStepCompleted(books, events, runs, k - 1);
      CompletedTrans(books[i].now.tasks, books[k - 1].now.tasks, books[k].now.tasks);
    }
  }

  /** If every request is in turn, failures stay explained, every task is announced at most
      once, and the counter is exact. */
  lemma {:induction false} PassKeepsOrder(books: seq<Book>, events: seq<Event>, runs: TaskID -> bool, k: nat)
    requires Pass(books, events, runs) && Sound(books[0].now) && InOrder(books[0]) && InTurn(books, events) && k <= |events|
    ensures InOrder(books[k])
  {
    if k > 0 {
      PassKeepsOrder(books, events, runs, k - 1);
      PassKeepsSound(books, events, runs, k - 1);
      PassStep(books, events, runs, k - 1);
    }
  }

  lemma PassStepFailed(books: seq<Book>, events: seq<Event>, runs: TaskID -> bool, k: nat)
    requires Pass(books, events, runs) && Sound(books[0].now) && InOrder(books[0]) && InTurn(books, events) && k < |events|
    ensures KeepsFailed(books[k].now.tasks, books[k + 1].now.tasks)
  {
    PassKeepsSound(books, events, runs, k);
    PassKeepsOrder(books, events, runs, k);
    PassStep(books, events, runs, k);
  }

  /** If every request is in turn, Failed is absorbing. */
  lemma {:induction false} PassKeepsFailed(books: seq<Book>, events: seq<Event>, runs: TaskID -> bool, i: nat, k: nat)
    requires Pass(books, events, runs) && Sound(books[0].now) && InOrder(books[0]) && InTurn(books, events) && i <= k <= |events|
    ensures KeepsFailed(books[i].now.tasks, books[k].now.tasks)
  {
    if i < k {
      PassKeepsFailed(books, events, runs, i, k - 1);
      PassStepFailed(books, events, runs, k - 1);
      FailedTrans(books[i].now.tasks, books[k - 1].now.tasks, books[k].now.tasks);
    }
  }

  /** Requests that fail no task are in turn. */
  lemma NoFailureIsInTurn(books: seq<Book>, events: seq<Event>)
    requires forall i: nat :: i < |events| ==> !(events[i].action.CompleteTask? && !events[i].action.success)
    ensures InTurn(books, events)
  {
  }

  /** How often a failed task came back to life. */
  ghost function RevivalsIn(books: seq<Book>, k: nat): nat
    requires k < |books|
  {
    if k == 0 then 0 else RevivalsIn(books, k - 1) + |Revivals(books[k - 1].now.tasks, books[k].now.tasks)|
  }

  /** Without any discipline, the counter lags behind by exactly the revivals. */
  lemma {:induction false} PassCounts(books: seq<Book>, events: seq<Event>, runs: TaskID -> bool, k: nat)
    requires Pass(books, events, runs) && k <= |events|
    ensures books[k].waiting - |NonTerminal(books[k].now.tasks)| == books[0].waiting - |NonTerminal(books[0].now.tasks)| - RevivalsIn(books, k)
  {
    if k > 0 {
      PassCounts(books, events, runs, k - 1);
      assert StepAt(books, events, runs, k - 1);
    }
  }

  /** events are the back of the queue, from its last action on, with the marks before each. */
  ghost predicate HandledFrom(incoming: seq<Action>, marks: seq<set<TaskID>>, events: seq<Event>) {
    && |events| <= |incoming| == |marks|
    && forall i {:trigger events[i]} :: 0 <= i < |events| ==>
         events[i] == Event(marks[|incoming| - 1 - i], incoming[|incoming| - 1 - i])
  }

  /** Only the last event may throw, and threw says whether it did. */
  ghost predicate ThrowsLast(books: seq<Book>, events: seq<Event>, threw: bool) {
    forall i: nat {:trigger ThrowsAt(books, events, i)} :: ThrowsAt(books, events, i) <==> threw && i == |events| - 1
  }

  /** One more action at the end of a pass. */
  lemma PassNext(books: seq<Book>, events: seq<Event>, runs: TaskID -> bool, e: Event, s: Book)
    requires Pass(books, events, runs) && BookTo(Marked(books[|events|], e), e.action, s, runs)
    ensures Pass(books + [s], events + [e], runs)
    ensures Reentered(books + [s], events + [e]) <==> Reentered(books, events) || ActionReenters(Marked(books[|events|], e).now, e.action)
    ensures ThrowsLast(books, events, false) ==>
      ThrowsLast(books + [s], events + [e], e.action.DefineTask? && !Accepted(Marked(books[|events|], e).now, e.action))
  {
    var books', events' := books + [s], events + [e];
    var n := |events|;
    forall i: nat | i < n + 1 ensures StepAt(books', events', runs, i) {
      assert i < n ==> StepAt(books, events, runs, i);
    }
    forall i: nat
      ensures ReentersAt(books', events', i) <==> ReentersAt(books, events, i) || (i == n && ActionReenters(Marked(books[n], e).now, e.action))
      ensures ThrowsAt(books', events', i)
              <==> ThrowsAt(books, events, i) || (i == n && e.action.DefineTask? && !Accepted(Marked(books[n], e).now, e.action))
    {
    }
    if ActionReenters(Marked(books[n], e).now, e.action) {
      assert ReentersAt(books', events', n);
    }
    if Reentered(books, events) {
      var i: nat :| ReentersAt(books, events, i);
      assert ReentersAt(books', events', i);
    }
  }

  /** The back of what is left of the queue is handled next. */
  lemma HandledNext(incoming: seq<Action>, marks: seq<set<TaskID>>, events: seq<Event>, queue: seq<Action>)
    requires HandledFrom(incoming, marks, events) && |events| < |incoming| && queue == incoming[..|incoming| - |events|]
    ensures HandledFrom(incoming, marks, events + [Event(marks[|queue| - 1], queue[|queue| - 1])])
    ensures queue[..|queue| - 1] == incoming[..|incoming| - |events| - 1]
  {
  }
}
