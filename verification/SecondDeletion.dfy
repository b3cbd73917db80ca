/** Why "each item is deleted at most once" is an assumption: the routines do not ensure it.  A debuggee's
    termination hands its session to dbg_delayed_term_event; if the debugger then terminates too, its
    dbg_process_terminated deletes the session first. */
module SecondDeletion {
  import opened Words
  import opened DbgItem
  import opened Sessions

  datatype Trace = Trace(states: seq<State>, actions: seq<Action>)

  ghost predicate Possible(tr: Trace) {
    IsRun(tr.states, tr.actions)
  }

  function Now(tr: Trace): State
    requires tr.states != []
  {
    tr.states[|tr.states| - 1]
  }

  predicate Continues(tr: Trace, tr': Trace) {
    tr.states <= tr'.states && tr.actions <= tr'.actions
  }

  lemma Then(tr: Trace, a: ActId, mv: Move) returns (tr': Trace)
    requires Possible(tr) && Enabled(Now(tr), a, mv)
    ensures Possible(tr') && Now(tr') == Step(Now(tr), a, mv) && Continues(tr, tr')
  {
    hide Step, Enabled;
    var s := Step(Now(tr), a, mv);
    tr' := Trace(tr.states + [s], tr.actions + [Action(a, mv)]);
    forall i | 0 <= i < |tr'.actions| ensures StepOf(tr'.states[i], tr'.actions[i], tr'.states[i + 1]) {
      if i < |tr.actions| {
        assert StepOf(tr.states[i], tr.actions[i], tr.states[i + 1]);
      }
    }
  }

  ghost predicate OthersSame(s: State, s': State, a: ActId) {
    forall b :: b != a ==> At(s', b) == At(s, b)
  }

  /** The only item, with some fields of interest. */
  predicate OneItem(s: State, me: Process, target: Process) {
    |s.items| == 1 && s.items[0].debugger == me && s.items[0].debugged == target && s.items[0].linked
  }

  lemma Attaches(tr: Trace, me: Process, target: Process) returns (tr': Trace)
    requires Possible(tr) && Now(tr) == EMPTY && me != target
    ensures Possible(tr') && OneItem(Now(tr'), me, target)
    ensures var it := Now(tr').items[0]; it.active && it.refCount == 1 && it.deleter.None? && it.listRef
    ensures forall b :: At(Now(tr'), b).pc.Done?
  {
    tr' := Then(tr, 1, Start(Attach(me, target)));
    tr' := Then(tr', 1, Go);
    tr' := Then(tr', 1, Go);
    tr' := AttachFinishes(tr', me, target);
  }

  lemma AttachFinishes(tr: Trace, me: Process, target: Process) returns (tr': Trace)
    requires Possible(tr) && OneItem(Now(tr), me, target) && At(Now(tr), 1) == Act(Attach(me, target), With(0, SetChan))
    requires Now(tr).items[0].refCount == 2 && Now(tr).items[0].deleter.None? && Now(tr).items[0].listRef
    requires forall b :: b != 1 ==> At(Now(tr), b).pc.Done?
    ensures Possible(tr') && OneItem(Now(tr'), me, target)
    ensures var it := Now(tr').items[0]; it.active && it.refCount == 1 && it.deleter.None? && it.listRef
    ensures forall b :: At(Now(tr'), b).pc.Done?
  {
    tr' := Then(tr, 1, Go);
    tr' := Then(tr', 1, Go);
    tr' := Then(tr', 1, Go);
    forall b ensures At(Now(tr'), b).pc.Done? {
      assert b != 1 ==> At(Now(tr'), b) == At(Now(tr), b);
    }
  }

  lemma OnlyFound(s: State, me: Process, target: Process, q: Query)
    requires OneItem(s, me, target) && s.items[0].active
    ensures Find(s.items, q) == if Matches(q, s.items[0]) then Some(0) else None
  {
  }

  /** The debuggee terminates; thread 3 gets the session and its reference. */
  lemma HandsOver(tr: Trace, me: Process, target: Process) returns (tr': Trace)
    requires Possible(tr) && OneItem(Now(tr), me, target) && me != target && Now(tr).items[0].active
    requires forall b :: At(Now(tr), b).pc.Done?
    ensures Possible(tr') && OneItem(Now(tr'), me, target)
    ensures Now(tr').items[0] == Now(tr).items[0].(refCount := Now(tr).items[0].refCount + 1)
    ensures At(Now(tr'), 3) == Act(Delayed, With(0, Using)) && forall b :: b != 3 ==> At(Now(tr'), b).pc.Done?
  {
    hide Find;
    OnlyFound(Now(tr), me, target, Query(Some(target), None));
    OnlyFound(Now(tr), me, target, Query(None, Some(target)));
    tr' := Then(tr, 2, Start(Terminated(target, true)));
    tr' := Then(tr', 2, Go);
    tr' := Then(tr', 2, Go);
    assert At(Now(tr'), 3) == At(Now(tr), 3) && At(Now(tr), 3).pc.Done?;
    tr' := Then(tr', 2, Spawn(3));
    forall b | b != 3 ensures At(Now(tr'), b).pc.Done? {
      assert b != 2 ==> At(Now(tr'), b) == At(Now(tr), b);
    }
  }

  /** The debugger terminates; thread 4 deletes the session and drops its own reference. */
  lemma DeletesFirst(tr: Trace, me: Process, target: Process) returns (tr': Trace)
    requires Possible(tr) && OneItem(Now(tr), me, target) && Now(tr).items[0].active && At(Now(tr), 4).pc.Done?
    requires Now(tr).items[0].deleter.None? && Now(tr).items[0].refCount == 2
    ensures Possible(tr') && OneItem(Now(tr'), me, target) && OthersSame(Now(tr), Now(tr'), 4)
    ensures var it := Now(tr').items[0]; it.deleter == Some(4) && it.refCount == 1 && !it.listRef
    ensures At(Now(tr'), 4).pc.Finding?
  {
    hide Find;
    OnlyFound(Now(tr), me, target, Query(Some(me), None));
    tr' := Then(tr, 4, Start(Terminated(me, true)));
    tr' := Then(tr', 4, Go);
    tr' := DeletionRuns(tr', me, target);
  }

  lemma DeletionRuns(tr: Trace, me: Process, target: Process) returns (tr': Trace)
    requires Possible(tr) && OneItem(Now(tr), me, target) && At(Now(tr), 4) == Act(Terminated(me, true), With(0, Deactivate))
    requires Now(tr).items[0].deleter.None? && Now(tr).items[0].refCount == 3
    ensures Possible(tr') && OneItem(Now(tr'), me, target) && OthersSame(Now(tr), Now(tr'), 4)
    ensures var it := Now(tr').items[0]; it.deleter == Some(4) && it.refCount == 1 && !it.listRef
    ensures At(Now(tr'), 4).pc.Finding?
  {
    tr' := Then(tr, 4, Go);
    tr' := Then(tr', 4, Go);
    tr' := Then(tr', 4, Go);
    tr' := Then(tr', 4, Go);
  }

  /** The delayed event is sent, and its thread goes on to delete the session. */
  lemma DeletesAgain(tr: Trace, me: Process, target: Process) returns (tr': Trace)
    requires Possible(tr) && OneItem(Now(tr), me, target) && At(Now(tr), 3) == Act(Delayed, With(0, Using))
    ensures Possible(tr') && OthersSame(Now(tr), Now(tr'), 3) && |Now(tr').items| == 1
    ensures Now(tr').items[0] == Now(tr).items[0] && At(Now(tr'), 3) == Act(Delayed, With(0, Deactivate))
  {
    tr' := Then(tr, 3, Go);
    tr' := Then(tr', 3, Go);
    tr' := Then(tr', 3, Go);
  }

  /** A run in which a routine is about to delete an item that another one has deleted: a single reference
      is left, its own, but it is going to drop two, the list's first. */
  lemma SecondDeletionIsReachable(me: Process, target: Process) returns (tr: Trace)
    requires me != target
    ensures Possible(tr) && |Now(tr).items| == 1
    ensures At(Now(tr), 3) == Act(Delayed, With(0, Deactivate)) && Now(tr).items[0].deleter == Some(4)
    ensures Now(tr).items[0].refCount == 1 && !Now(tr).items[0].listRef
  {
    hide IsRun, Step, Find;
    tr := Trace([EMPTY], []);
    NothingYet();
    tr := Attaches(tr, me, target);
    tr := HandsOver(tr, me, target);
    tr := DeletesFirst(tr, me, target);
    tr := DeletesAgain(tr, me, target);
  }

  lemma NothingYet()
    ensures Possible(Trace([EMPTY], []))
  {
  }
}
