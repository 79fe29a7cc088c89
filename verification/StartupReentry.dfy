/** Holder/BaseService.h, OnDependencyFailed: a listener holds its mutex while it fails its own
    task, and the failures that this causes may call it again. When they do, and when not. */
module StartupReentry {
  import Graphs
  import opened StartupState

  /** A failed dependency that the task's listener has not been told of. The entry is made only
      when the listener has returned. */
  ghost predicate Unreported(tasks: Tasks, t: TaskID)
    requires t in tasks
  {
    exists d :: d in tasks[t].dependsOn && d in tasks && tasks[d].state == Failed && d !in tasks[t].failuresReported
  }

  /** held: the listeners on the call stack. Each has failed its task because of a dependency
      that is not entered yet. */
  ghost predicate HeldOk(tasks: Tasks, held: set<TaskID>) {
    forall h {:trigger h in held} :: h in held ==> h in tasks && tasks[h].state == Failed && Unreported(tasks, h)
  }

  /** t is on a cycle of waiting tasks. */
  ghost predicate WaitsForItself(tasks: Tasks, t: TaskID, silent: set<TaskID>) {
    t in tasks && Doomed(tasks, t, t, silent)
  }

  ghost predicate HeldDependent(tasks: Tasks, t: TaskID, held: set<TaskID>) {
    t in tasks && exists h :: h in held && h in tasks[t].dependedOnBy
  }

  ghost predicate Caught(tasks: Tasks, t: TaskID, held: set<TaskID>, silent: set<TaskID>) {
    HeldDependent(tasks, t, held) || WaitsForItself(tasks, t, silent)
  }

  ghost predicate CaughtBefore(tasks: Tasks, t: TaskID, d: TaskID, held: set<TaskID>, silent: set<TaskID>) {
    WaitsFor(tasks, t, d, silent) && Caught(tasks, t, held, silent)
  }

  /** Telling d of a failure enters a listener that is on the stack: d's own, or that of
      somebody who depends on a task that fails together with d, or one on a waiting cycle. */
  ghost predicate Reenters(tasks: Tasks, d: TaskID, held: set<TaskID>, silent: set<TaskID>) {
    d in held || exists t :: CaughtBefore(tasks, t, d, held, silent)
  }

  ghost predicate AnyReenters(tasks: Tasks, roots: set<TaskID>, held: set<TaskID>, silent: set<TaskID>) {
    exists r :: r in roots && Reenters(tasks, r, held, silent)
  }

  // ----- chains -----

  lemma ChainIntro(tasks: Tasks, p: seq<TaskID>, silent: set<TaskID>)
    requires WaitChain(tasks, p, silent)
    ensures WaitsFor(tasks, p[0], p[|p| - 1], silent)
  {
  }

  lemma SubChain(tasks: Tasks, p: seq<TaskID>, i: nat, j: nat, silent: set<TaskID>)
    requires WaitChain(tasks, p, silent) && i < j <= |p|
    ensures WaitChain(tasks, p[i..j], silent) && WaitsFor(tasks, p[i], p[j - 1], silent)
  {
    var q := p[i..j];
    assert q[0] == p[i] && q[|q| - 1] == p[j - 1];
  }

  lemma Concat(tasks: Tasks, p: seq<TaskID>, q: seq<TaskID>, silent: set<TaskID>)
    requires WaitChain(tasks, p, silent) && WaitChain(tasks, q, silent) && q[0] in tasks[p[|p| - 1]].dependsOn
    ensures WaitChain(tasks, p + q, silent) && WaitsFor(tasks, p[0], q[|q| - 1], silent)
  {
    var r := p + q;
    assert r[0] == p[0] && r[|r| - 1] == q[|q| - 1];
  }

  lemma WaitsForTrans(tasks: Tasks, t: TaskID, u: TaskID, x: TaskID, silent: set<TaskID>)
    requires WaitsFor(tasks, t, u, silent) && WaitsFor(tasks, u, x, silent)
    ensures WaitsFor(tasks, t, x, silent)
  {
    var p :| WaitChain(tasks, p, silent) && p[0] == t && p[|p| - 1] == u;
    var q :| WaitChain(tasks, q, silent) && q[0] == u && q[|q| - 1] == x;
    if |q| > 1 {
      SubChain(tasks, q, 1, |q|, silent);
      Concat(tasks, p, q[1..], silent);
    }
  }

  /** What still waits after a cascade still waits for the same; the rest waited for a root. */
  lemma StillWaitsOrFailed(a: Tasks, c: Tasks, s: set<TaskID>, t: TaskID, r: TaskID, silent: set<TaskID>)
    requires Cascade(a, c, s, silent) && WaitsFor(a, t, r, silent)
    ensures WaitsFor(c, t, r, silent) || exists x :: x in s && WaitsFor(a, t, x, silent)
  {
    var p :| WaitChain(a, p, silent) && p[0] == t && p[|p| - 1] == r;
    if i: nat :| i < |p| && NewlyFailed(a, c, p[i]) {
      assert CausedBy(a, c, s, p[i], silent);
      var x :| x in s && WaitsFor(a, p[i], x, silent);
      SubChain(a, p, 0, i + 1, silent);
      WaitsForTrans(a, t, p[i], x, silent);
    } else {
      forall i | 0 <= i < |p| ensures p[i] in c && c[p[i]].state == WaitingForDeps && SameTask(a[p[i]], c[p[i]]) {
        assert !NewlyFailed(a, c, p[i]);
      }
      assert WaitChain(c, p, silent);
    }
  }

  // ----- the dependents one after the other -----

  lemma EarlierReentry(a: Tasks, c: Tasks, s: set<TaskID>, r: TaskID, held: set<TaskID>, silent: set<TaskID>)
    requires Cascade(a, c, s, silent) && Reenters(c, r, held, silent)
    ensures Reenters(a, r, held, silent)
  {
    if r !in held {
      var t :| CaughtBefore(c, t, r, held, silent);
      EarlierChain(a, c, s, t, r, silent);
      assert t in a && SameTask(a[t], c[t]);
      if HeldDependent(c, t, held) {
        var h :| h in held && h in c[t].dependedOnBy;
        assert h in a[t].dependedOnBy;
        assert HeldDependent(a, t, held);
      } else {
        var q :| q in c[t].dependedOnBy && WaitsFor(c, t, q, silent);
        EarlierChain(a, c, s, t, q, silent);
        assert q in a[t].dependedOnBy;
      }
      assert CaughtBefore(a, t, r, held, silent);
    }
  }

  lemma LaterReentry(a: Tasks, c: Tasks, s: set<TaskID>, r: TaskID, held: set<TaskID>, silent: set<TaskID>)
    requires Cascade(a, c, s, silent) && Reenters(a, r, held, silent)
    ensures Reenters(c, r, held, silent) || AnyReenters(a, s, held, silent)
  {
    if r !in held {
      var t :| CaughtBefore(a, t, r, held, silent);
      StillWaitsOrFailed(a, c, s, t, r, silent);
      if x :| x in s && WaitsFor(a, t, x, silent) {
        assert CaughtBefore(a, t, x, held, silent);
        assert Reenters(a, x, held, silent);
      } else {
        assert t in a && SameTask(a[t], c[t]);
        if HeldDependent(a, t, held) {
          var h :| h in held && h in a[t].dependedOnBy;
          assert h in c[t].dependedOnBy;
          assert HeldDependent(c, t, held);
        } else {
          var q :| q in a[t].dependedOnBy && WaitsFor(a, t, q, silent);
          StillWaitsOrFailed(a, c, s, t, q, silent);
          assert q in c[t].dependedOnBy;
        }
        assert CaughtBefore(c, t, r, held, silent);
      }
    }
  }

  /** After the dependents s, with result c, comes r: the order does not matter. */
  lemma NextDependent(a: Tasks, c: Tasks, s: set<TaskID>, r: TaskID, held: set<TaskID>, silent: set<TaskID>)
    requires Cascade(a, c, s, silent)
    ensures AnyReenters(a, s + {r}, held, silent) <==> AnyReenters(a, s, held, silent) || Reenters(c, r, held, silent)
  {
    if Reenters(c, r, held, silent) {
      EarlierReentry(a, c, s, r, held, silent);
      assert r in s + {r};
    }
    if AnyReenters(a, s, held, silent) {
      var x :| x in s && Reenters(a, x, held, silent);
      assert x in s + {r};
    }
    if AnyReenters(a, s + {r}, held, silent) {
      var x :| x in s + {r} && Reenters(a, x, held, silent);
      if x == r {
        LaterReentry(a, c, s, r, held, silent);
      }
    }
  }

  // ----- one listener fails its own task -----

  function FailedIn(tasks: Tasks, d: TaskID): Tasks
    requires d in tasks
  {
    tasks[d := tasks[d].(state := Failed)]
  }

  /** A chain that does not meet d is not affected by the failure of d. */
  lemma ChainWithout(b: Tasks, d: TaskID, p: seq<TaskID>, silent: set<TaskID>)
    requires d in b && WaitChain(b, p, silent) && d !in p
    ensures WaitChain(FailedIn(b, d), p, silent)
  {
  }

  lemma {:induction false} FirstMeeting(p: seq<TaskID>, d: TaskID) returns (i: nat)
    requires d in p
    ensures i < |p| && p[i] == d && d !in p[..i]
  {
    if p[0] == d {
      i := 0;
    } else {
      var j := FirstMeeting(p[1..], d);
      i := j + 1;
      assert p[..i] == [p[0]] + p[1..][..j];
    }
  }

  lemma {:induction false} LastMeeting(p: seq<TaskID>, d: TaskID) returns (i: nat)
    requires d in p
    ensures i < |p| && p[i] == d && d !in p[i + 1..]
  {
    if p[|p| - 1] == d {
      i := |p| - 1;
    } else {
      i := LastMeeting(p[..|p| - 1], d);
      assert p[i + 1..] == p[..|p| - 1][i + 1..] + [p[|p| - 1]];
    }
  }

  /** Who waits for d waits, after d failed, for one of its dependents. */
  lemma WaitsForDependent(b: Tasks, d: TaskID, t: TaskID, silent: set<TaskID>) returns (r: TaskID)
    requires Edges(b) && d in b && t != d && WaitsFor(b, t, d, silent)
    ensures r in b[d].dependedOnBy && WaitsFor(FailedIn(b, d), t, r, silent)
  {
    var p :| WaitChain(b, p, silent) && p[0] == t && p[|p| - 1] == d;
    var i := FirstMeeting(p, d);
    r := p[i - 1];
    SubChain(b, p, 0, i, silent);
    ChainWithout(b, d, p[..i], silent);
    ChainIntro(FailedIn(b, d), p[..i], silent);
    assert d in b[r].dependsOn;
  }

  lemma BeforeFailure(b: Tasks, d: TaskID, t: TaskID, r: TaskID, silent: set<TaskID>)
    requires d in b && WaitsFor(FailedIn(b, d), t, r, silent)
    ensures WaitsFor(b, t, r, silent)
  {
    WaitsForBefore(b, d, t, r, silent);
  }

  /** A cycle through f that meets d is a cycle through d. */
  lemma CycleThrough(b: Tasks, f: TaskID, p: seq<TaskID>, d: TaskID, silent: set<TaskID>)
    requires Edges(b) && WaitChain(b, p, silent) && p[0] == f && f in b && p[|p| - 1] in b[f].dependedOnBy && d in p
    ensures WaitsForItself(b, d, silent)
  {
    var i := FirstMeeting(p, d);
    if i > 0 {
      SubChain(b, p, i, |p|, silent);
      SubChain(b, p, 0, i, silent);
      assert f in b[p[|p| - 1]].dependsOn;
      Concat(b, p[i..], p[..i], silent);
      var q := p[i - 1];
      assert d in b[q].dependsOn && q in b[d].dependedOnBy;
      assert WaitsFor(b, d, q, silent);
    } else {
      ChainIntro(b, p, silent);
    }
  }

  /** d waits for itself: failing it leads back to its listener. */
  lemma OwnCycleReenters(b: Tasks, d: TaskID, held: set<TaskID>, silent: set<TaskID>)
    requires Edges(b) && WaitsForItself(b, d, silent)
    ensures AnyReenters(FailedIn(b, d), b[d].dependedOnBy, held + {d}, silent)
  {
    var b1, held1 := FailedIn(b, d), held + {d};
    var q :| q in b[d].dependedOnBy && WaitsFor(b, d, q, silent);
    var p :| WaitChain(b, p, silent) && p[0] == d && p[|p| - 1] == q;
    var i := LastMeeting(p, d);
    if i == |p| - 1 {
      assert q in held1 && Reenters(b1, q, held1, silent);
    } else {
      var u := p[i + 1];
      SubChain(b, p, i + 1, |p|, silent);
      assert p[i + 1..|p|] == p[i + 1..];
      ChainWithout(b, d, p[i + 1..], silent);
      ChainIntro(b1, p[i + 1..], silent);
      assert u in b[p[i]].dependsOn;
      assert d in held1 && d in b1[u].dependedOnBy;
      assert HeldDependent(b1, u, held1);
      assert CaughtBefore(b1, u, q, held1, silent);
      assert Reenters(b1, q, held1, silent);
    }
  }

  lemma EntryToDependents(b: Tasks, d: TaskID, held: set<TaskID>, silent: set<TaskID>)
    requires Edges(b) && d in b && d !in held && Reenters(b, d, held, silent)
    ensures AnyReenters(FailedIn(b, d), b[d].dependedOnBy, held + {d}, silent)
  {
    var b1, held1 := FailedIn(b, d), held + {d};
    var f :| CaughtBefore(b, f, d, held, silent);
    if WaitsForItself(b, d, silent) {
      OwnCycleReenters(b, d, held, silent);
    } else if f == d {
      var h :| h in held && h in b[d].dependedOnBy;
      assert h in held1 && Reenters(b1, h, held1, silent);
    } else {
      var r := WaitsForDependent(b, d, f, silent);
      if HeldDependent(b, f, held) {
        var h :| h in held && h in b[f].dependedOnBy;
        assert h in held1 && h in b1[f].dependedOnBy;
        assert HeldDependent(b1, f, held1);
      } else {
        CycleAvoids(b, f, d, silent);
      }
      assert CaughtBefore(b1, f, r, held1, silent);
      assert Reenters(b1, r, held1, silent);
    }
  }

  lemma CycleAvoids(b: Tasks, f: TaskID, d: TaskID, silent: set<TaskID>)
    requires Edges(b) && d in b && f != d && WaitsForItself(b, f, silent) && !WaitsForItself(b, d, silent)
    ensures WaitsForItself(FailedIn(b, d), f, silent)
  {
    var q :| q in b[f].dependedOnBy && WaitsFor(b, f, q, silent);
    var p :| WaitChain(b, p, silent) && p[0] == f && p[|p| - 1] == q;
    if d in p {
      CycleThrough(b, f, p, d, silent);
    }
    ChainWithout(b, d, p, silent);
    ChainIntro(FailedIn(b, d), p, silent);
    assert q in FailedIn(b, d)[f].dependedOnBy;
  }

  lemma DependentsToEntry(b: Tasks, d: TaskID, held: set<TaskID>, silent: set<TaskID>)
    requires Edges(b) && d in b && b[d].state == WaitingForDeps && d !in silent
    requires AnyReenters(FailedIn(b, d), b[d].dependedOnBy, held + {d}, silent)
    ensures Reenters(b, d, held, silent)
  {
    var b1, held1 := FailedIn(b, d), held + {d};
    var r :| r in b[d].dependedOnBy && Reenters(b1, r, held1, silent);
    WaitsForSelf(b, d, silent);
    if r == d {
      assert CaughtBefore(b, d, d, held, silent);
    } else if r in held {
      assert HeldDependent(b, d, held);
      assert CaughtBefore(b, d, d, held, silent);
    } else {
      var f :| CaughtBefore(b1, f, r, held1, silent);
      CaughtFromDependent(b, d, f, r, held, silent);
    }
  }

  lemma CaughtFromDependent(b: Tasks, d: TaskID, f: TaskID, r: TaskID, held: set<TaskID>, silent: set<TaskID>)
    requires Edges(b) && d in b && b[d].state == WaitingForDeps && d !in silent
    requires r in b[d].dependedOnBy && CaughtBefore(FailedIn(b, d), f, r, held + {d}, silent)
    ensures Reenters(b, d, held, silent)
  {
    var b1 := FailedIn(b, d);
    BeforeFailure(b, d, f, r, silent);
    var p :| WaitChain(b, p, silent) && p[0] == f && p[|p| - 1] == r;
    WaitsForSelf(b, d, silent);
    assert d in b[r].dependsOn;
    assert WaitChain(b, [d], silent);
    Concat(b, p, [d], silent);
    if HeldDependent(b1, f, held + {d}) {
      var h :| h in held + {d} && h in b1[f].dependedOnBy;
      if h == d {
        assert f in b[d].dependsOn;
        WaitsForPrepend(b, d, f, r, silent);
        assert CaughtBefore(b, d, d, held, silent);
      } else {
        assert HeldDependent(b, f, held);
        assert CaughtBefore(b, f, d, held, silent);
      }
    } else {
      var q :| q in b1[f].dependedOnBy && WaitsFor(b1, f, q, silent);
      BeforeFailure(b, d, f, q, silent);
      assert CaughtBefore(b, f, d, held, silent);
    }
  }

  /** Failing a waiting task from its listener enters a listener on the stack exactly if
      evaluating its dependents, with that listener on the stack as well, does. */
  lemma EntryIff(b: Tasks, d: TaskID, held: set<TaskID>, silent: set<TaskID>)
    requires Edges(b) && d in b && b[d].state == WaitingForDeps && d !in silent && d !in held
    ensures AnyReenters(FailedIn(b, d), b[d].dependedOnBy, held + {d}, silent) <==> Reenters(b, d, held, silent)
  {
    if Reenters(b, d, held, silent) { EntryToDependents(b, d, held, silent); }
    if AnyReenters(FailedIn(b, d), b[d].dependedOnBy, held + {d}, silent) { DependentsToEntry(b, d, held, silent); }
  }

  /** A task that is not waiting, or whose listener is silent, fails nothing. */
  lemma NothingToFail(b: Tasks, d: TaskID, held: set<TaskID>, silent: set<TaskID>)
    requires d in b && (b[d].state != WaitingForDeps || d in silent)
    ensures Reenters(b, d, held, silent) <==> d in held
  {
    forall t ensures !WaitsFor(b, t, d, silent) {
      forall p | WaitChain(b, p, silent) ensures p[|p| - 1] != d { }
    }
  }

  // ----- whole actions, which begin with an empty call stack -----

  /** With x failed, some task that waits for x is on a cycle of waiting tasks. */
  ghost predicate DoomedCycle(a: Tasks, x: TaskID, silent: set<TaskID>)
    requires x in a
  {
    exists t :: WaitsForItself(FailedIn(a, x), t, silent) && Doomed(FailedIn(a, x), t, x, silent)
  }

  /** Some task that waits for x, or x itself, is on a cycle of waiting tasks. */
  ghost predicate WaitingCycle(a: Tasks, x: TaskID, silent: set<TaskID>) {
    exists t :: WaitsForItself(a, t, silent) && WaitsFor(a, t, x, silent)
  }

  lemma EntryWithoutStack(a: Tasks, x: TaskID, silent: set<TaskID>)
    ensures Reenters(a, x, {}, silent) <==> WaitingCycle(a, x, silent)
  {
    if Reenters(a, x, {}, silent) {
      var t :| CaughtBefore(a, t, x, {}, silent);
      assert WaitsForItself(a, t, silent);
    }
    if WaitingCycle(a, x, silent) {
      var t :| WaitsForItself(a, t, silent) && WaitsFor(a, t, x, silent);
      assert CaughtBefore(a, t, x, {}, silent);
    }
  }

  lemma FailureWithoutStack(a: Tasks, x: TaskID, silent: set<TaskID>)
    requires x in a
    ensures AnyReenters(FailedIn(a, x), a[x].dependedOnBy, {}, silent) <==> DoomedCycle(a, x, silent)
  {
    var a1 := FailedIn(a, x);
    if AnyReenters(a1, a[x].dependedOnBy, {}, silent) {
      var r :| r in a[x].dependedOnBy && Reenters(a1, r, {}, silent);
      EntryWithoutStack(a1, r, silent);
      var t :| WaitsForItself(a1, t, silent) && WaitsFor(a1, t, r, silent);
      assert Doomed(a1, t, x, silent);
    }
    if DoomedCycle(a, x, silent) {
      var t :| WaitsForItself(a1, t, silent) && Doomed(a1, t, x, silent);
      var r :| r in a1[x].dependedOnBy && WaitsFor(a1, t, r, silent);
      EntryWithoutStack(a1, r, silent);
    }
  }

  lemma WaitingCycleIsACycle(a: Tasks, t: TaskID, silent: set<TaskID>)
    requires Edges(a) && WaitsForItself(a, t, silent)
    ensures Graphs.OnCycle(DependencyGraph(a), t)
  {
    var r :| r in a[t].dependedOnBy && WaitsFor(a, t, r, silent);
    var p :| WaitChain(a, p, silent) && p[0] == t && p[|p| - 1] == r;
    var g, q := DependencyGraph(a), p + [t];
    assert t in a[r].dependsOn;
    assert Graphs.IsPath(g, q);
    assert Graphs.IsCycle(g, q) && q[0] == t;
  }

  /** With no dependency cycle at all, every listener returns before it is called again. */
  lemma AcyclicNeverReenters(a: Tasks, x: TaskID, silent: set<TaskID>)
    requires Edges(a) && forall t :: !Graphs.OnCycle(DependencyGraph(a), t)
    ensures !WaitingCycle(a, x, silent) && (x in a ==> !DoomedCycle(a, x, silent))
  {
    if t :| WaitsForItself(a, t, silent) {
      WaitingCycleIsACycle(a, t, silent);
    }
    if x in a {
      var a1 := FailedIn(a, x);
      EdgesSameShape(a, a1);
      assert DependencyGraph(a1) == DependencyGraph(a);
      if t :| WaitsForItself(a1, t, silent) {
        WaitingCycleIsACycle(a1, t, silent);
      }
    }
  }

  // ----- the smallest input -----

  /** 0 waits for 1, and 1 for 0 and for the running task 2. */
  ghost predicate ThreeTasks(a: Tasks) {
    && a.Keys == {0, 1, 2}
    && a[0] == TaskDesc("a", WaitingForDeps, {}, {1}, {1}, {})
    && a[1] == TaskDesc("b", WaitingForDeps, {}, {0, 2}, {0}, {})
    && a[2] == TaskDesc("c", Running, {}, {}, {1}, {})
  }

  lemma ThreeTasksEdges(a: Tasks)
    requires ThreeTasks(a)
    ensures Edges(a)
  {
  }

  lemma ThreeTasksAtRest(a: Tasks)
    requires ThreeTasks(a)
    ensures Mid(a) && AtRest(a, {}) && Flags(a, {}, Context({}, {}))
  {
    ThreeTasksEdges(a);
    forall t | t in a ensures WaitOk(a, t, {}) && TaskOk(a, t) {
      assert 0 in a[1].dependsOn && 1 in a[0].dependsOn;
    }
  }

  lemma CycleOfTwo(a: Tasks, t: TaskID, u: TaskID)
    requires t in a && u in a && a[t].state == WaitingForDeps && a[u].state == WaitingForDeps
    requires u in a[t].dependsOn && u in a[t].dependedOnBy
    ensures WaitsForItself(a, t, {})
  {
    assert WaitChain(a, [t, u], {});
    ChainIntro(a, [t, u], {});
  }

  /** The failure of 2 reaches the listener of 1 a second time. */
  lemma ThreeTasksReenter(a: Tasks)
    requires ThreeTasks(a)
    ensures DoomedCycle(a, 2, {})
  {
    var a1 := FailedIn(a, 2);
    assert a1[0] == a[0] && a1[1] == a[1];
    CycleOfTwo(a1, 1, 0);
    WaitsForSelf(a1, 1, {});
    assert 1 in a1[2].dependedOnBy;
    assert Doomed(a1, 1, 2, {});
  }
}
