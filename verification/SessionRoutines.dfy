/** Which sessions the concurrent routines act on, and how far each of them goes. */
module SessionRoutines {
  import opened Words
  import opened DbgItem
  import opened Sessions

  /** The session is one that the routine is for. */
  predicate IsFor(it: Item, r: Routine) {
    match r
    case Attach(_, target) => it.debugged == target
    case UserCall(me, target) => it.debugger == me && it.debugged == target
    case Hook(target) => it.debugged == target
    case Terminated(process, looping) => if looping then it.debugger == process else it.debugged == process
    case Delayed => true
  }

  /** A routine has deleted the item before it drops its own reference. */
  predicate DeletedFirst(it: Item, a: ActId, op: Op) {
    op.Drop? || FreeingOp(op) ==> it.deleter == Some(a) && it.released
  }

  /** What a routine does with its item: attaching never enters a channel, calls and hooks do nothing else,
      and only the loop over a debugger's sessions and dbg_delayed_term_event delete. */
  predicate MayDo(it: Item, a: ActId, r: Routine, op: Op) {
    match r
    case Attach(me, _) => (op.SetChan? || op.SetActive? ==> it.debugger == me) && (op.SetChan? || op.SetActive? || op.Drop? || FreeingOp(op))
    case UserCall(_, _) => op.Using? || op.InChannel? || op.Used? || op.Drop? || FreeingOp(op)
    case Hook(_) => op.Using? || op.InChannel? || op.Used? || op.Drop? || FreeingOp(op)
    case Terminated(_, looping) =>
      if looping then (op.Deactivate? || op.ReleaseChan? || op.DropList? || op.Drop? || FreeingOp(op)) && DeletedFirst(it, a, op)
      else op.Using? || op.Drop? || FreeingOp(op)
    case Delayed => !op.SetChan? && !op.SetActive? && DeletedFirst(it, a, op)
  }

  predicate Assigned(items: seq<Item>, a: ActId, act: Act) {
    && (act.pc.With? ==>
          act.pc.i < |items|
          && IsFor(items[act.pc.i], act.routine) && MayDo(items[act.pc.i], a, act.routine, act.pc.op)
          && (act.pc.op.DropList? ==> items[act.pc.i].released))
    && (act.pc.Done? && act.routine.Terminated? ==> !act.routine.looping)
    && (act.pc.Finding? ==> !act.routine.Delayed?)
  }

  ghost predicate AllAssigned(s: State) {
    forall a :: Assigned(s.items, a, At(s, a))
  }

  /** What no operation changes. */
  predicate Persists(it: Item, it': Item) {
    && it'.debugger == it.debugger && it'.debugged == it.debugged
    && (it.released ==> it'.released) && (it.deleter.Some? ==> it'.deleter == it.deleter)
  }

  lemma OwnAssigned(it: Item, a: ActId, r: Routine, op: Op)
    requires ItemOk(it) && OpClaim(it, a, r, op) && OpEnabled(it, r, op)
    requires IsFor(it, r) && MayDo(it, a, r, op) && (op.DropList? ==> it.released)
    ensures Persists(it, ItemAfter(it, a, op))
    ensures Assigned([ItemAfter(it, a, op)], a, Act(r, PcAfter(it, r, 0, op)))
  {
    match op
    case SetChan => case SetActive => case Using => case InChannel => case Used => case Deactivate =>
    case ReleaseChan => case DropList => case Drop => case Unlink => case FreeChan => case FreeItem =>
  }

  lemma OthersAssigned(items: seq<Item>, items': seq<Item>, b: ActId, act: Act)
    requires Assigned(items, b, act) && |items'| >= |items|
    requires forall i :: 0 <= i < |items| ==> Persists(items[i], items'[i])
    ensures Assigned(items', b, act)
  {
    if act.pc.With? {
      assert Persists(items[act.pc.i], items'[act.pc.i]);
    }
  }

  lemma FoundIsFor(items: seq<Item>, r: Routine)
    requires !r.Delayed?
    ensures var found := Find(items, QueryOf(r)); found.Some? ==> IsFor(items[found.value], r)
  {
  }

  lemma StepPersists(s: State, a: ActId, mv: Move)
    requires Inv(s) && AllAssigned(s) && Enabled(s, a, mv)
    ensures var s' := Step(s, a, mv);
      |s'.items| >= |s.items| && forall i :: 0 <= i < |s.items| ==> Persists(s.items[i], s'.items[i])
  {
    assert Claim(s.items, a, At(s, a)) && Assigned(s.items, a, At(s, a));
    if mv.Go? && At(s, a).pc.With? {
      assert ItemOk(s.items[At(s, a).pc.i]);
      OwnAssigned(s.items[At(s, a).pc.i], a, At(s, a).routine, At(s, a).pc.op);
    }
  }

  lemma OnItemAssigned(s: State, a: ActId)
    requires Inv(s) && AllAssigned(s) && Enabled(s, a, Go) && At(s, a).pc.With?
    ensures var s' := GoStep(s, a); Assigned(s'.items, a, At(s', a))
  {
    hide ItemAfter, MayDo, IsFor, OpClaim, FreeingOp;
    var act := At(s, a);
    assert Claim(s.items, a, act) && Assigned(s.items, a, act) && ItemOk(s.items[act.pc.i]);
    OwnAssigned(s.items[act.pc.i], a, act.routine, act.pc.op);
  }

  lemma GoAssigned(s: State, a: ActId)
    requires Inv(s) && AllAssigned(s) && Enabled(s, a, Go)
    ensures var s' := GoStep(s, a); Assigned(s'.items, a, At(s', a))
  {
    hide ItemAfter, PcAfter;
    var act := At(s, a);
    assert Claim(s.items, a, act) && Assigned(s.items, a, act);
    match act.pc
    case Finding => FoundIsFor(s.items, act.routine);
    case Creating =>
    case With(_, _) => OnItemAssigned(s, a);
    case Done =>
  }

  lemma StepAssigned(s: State, a: ActId, mv: Move)
    requires Inv(s) && AllAssigned(s) && Enabled(s, a, mv)
    ensures AllAssigned(Step(s, a, mv))
  {
    var s' := Step(s, a, mv);
    StepPersists(s, a, mv);
    assert Claim(s.items, a, At(s, a)) && Assigned(s.items, a, At(s, a));
    forall b ensures Assigned(s'.items, b, At(s', b)) {
      assert Assigned(s.items, b, At(s, b));
      if b != a && At(s', b) == At(s, b) {
        OthersAssigned(s.items, s'.items, b, At(s, b));
      } else if mv.Go? {
        GoAssigned(s, a);
      }
    }
  }

  lemma {:induction false} AssignedInRuns(states: seq<State>, actions: seq<Action>, k: nat)
    requires IsRun(states, actions) && k < |states|
    ensures AllAssigned(states[k])
  {
    if k > 0 {
      AssignedInRuns(states, actions, k - 1);
      InvInRuns(states, actions, k - 1);
      assert StepOf(states[k - 1], actions[k - 1], states[k]);
      StepAssigned(states[k - 1], actions[k - 1].act, actions[k - 1].move);
    }
  }

  /** In every run, a routine works on a session that it is for, and does to it only what it is there to
      do. */
  lemma ActsOnOwnSession(states: seq<State>, actions: seq<Action>, k: nat, a: ActId)
    requires IsRun(states, actions) && k < |states| && At(states[k], a).pc.With?
    ensures var s, act := states[k], At(states[k], a);
      act.pc.i < |s.items| && IsFor(s.items[act.pc.i], act.routine) && MayDo(s.items[act.pc.i], a, act.routine, act.pc.op)
  {
    AssignedInRuns(states, actions, k);
    assert Assigned(states[k].items, a, At(states[k], a));
  }

  /** dbg_process_terminated leaves its loop only when no session of the terminated debugger is listed, and
      only then looks for the session that debugs the terminated process itself. */
  lemma LoopClearsAll(states: seq<State>, actions: seq<Action>, k: nat, process: Process, j: ItemId)
    requires IsRun(states, actions) && k < |actions| && j < |states[k].items|
    requires At(states[k], actions[k].act).routine == Terminated(process, true)
    requires At(states[k + 1], actions[k].act).routine != Terminated(process, true)
    ensures !(states[k].items[j].active && states[k].items[j].debugger == process)
    ensures At(states[k + 1], actions[k].act) == Act(Terminated(process, false), Finding)
  {
    var s, a := states[k], actions[k].act;
    InvInRuns(states, actions, k);
    AssignedInRuns(states, actions, k);
    assert StepOf(s, actions[k], states[k + 1]) && Assigned(s.items, a, At(s, a)) && Claim(s.items, a, At(s, a));
    ListedWhileActive(s, j);
    assert Find(s.items, Query(Some(process), None)).None?;
    assert !Listed(Query(Some(process), None), s.items[j]);
  }

  lemma ListedWhileActive(s: State, j: ItemId)
    requires Inv(s) && j < |s.items|
    ensures s.items[j].active ==> s.items[j].linked
  {
    assert ItemOk(s.items[j]) && Counted(s, j);
  }

  // ----------------------------------------------------------------------------------------------
  // One session for each process

  /** Between dbg_attach_call's search, which found nothing, and its activation of the new item. */
  predicate Attaching(act: Act, target: Process) {
    act.routine.Attach? && act.routine.target == target
    && (act.pc.Creating? || (act.pc.With? && (act.pc.op.SetChan? || act.pc.op.SetActive?)))
  }

  /** No two routines attach to the same process at the same time. */
  ghost predicate AttachesApart(s: State) {
    forall a, b, t :: Attaching(At(s, a), t) && Attaching(At(s, b), t) ==> a == b
  }

  ghost predicate OneEach(s: State) {
    && (forall i, j :: 0 <= i < j < |s.items| && s.items[i].active && s.items[j].active ==> s.items[i].debugged != s.items[j].debugged)
    && (forall a, i, t :: 0 <= i < |s.items| && Attaching(At(s, a), t) && s.items[i].active ==> s.items[i].debugged != t)
  }

  lemma OnlySetActiveActivates(it: Item, a: ActId, op: Op)
    ensures ItemAfter(it, a, op).active ==> it.active || op.SetActive?
  {
  }

  /** Nobody starts attaching, and at most one item becomes active, by the routine that was attaching. */
  lemma KeepsOneEach(s: State, s': State, a: ActId, x: ItemId)
    requires OneEach(s) && AttachesApart(s) && |s'.items| >= |s.items|
    requires forall i :: 0 <= i < |s.items| ==> s'.items[i].debugged == s.items[i].debugged
    requires forall i :: 0 <= i < |s'.items| && s'.items[i].active ==>
      i < |s.items| && (s.items[i].active || (i == x && Attaching(At(s, a), s.items[i].debugged) && !Attaching(At(s', a), s.items[i].debugged)))
    requires forall b, t :: Attaching(At(s', b), t) ==> Attaching(At(s, b), t)
    ensures OneEach(s')
  {
  }

  lemma OnItemKeepsOneEach(s: State, a: ActId)
    requires Inv(s) && AllAssigned(s) && OneEach(s) && Enabled(s, a, Go) && At(s, a).pc.With? && AttachesApart(s)
    ensures OneEach(GoStep(s, a))
  {
    hide OneEach, AttachesApart, Inv, MayDo;
    var s', act := GoStep(s, a), At(s, a);
    AssignedMeans(s, a);
    StepPersists(s, a, Go);
    OnlySetActiveActivates(s.items[act.pc.i], a, act.pc.op);
    if act.pc.op.SetActive? {
      NotAttachingAfter(s, a);
    }
    forall b, t | Attaching(At(s', b), t) ensures Attaching(At(s, b), t) {
      if b == a {
        StillAttaching(s.items[act.pc.i], act.routine, act.pc.i, act.pc.op, t);
      }
    }
    KeepsOneEach(s, s', a, act.pc.i);
  }

  lemma AssignedMeans(s: State, a: ActId)
    requires AllAssigned(s) && At(s, a).pc.With?
    ensures var act := At(s, a);
      act.pc.i < |s.items| && (act.pc.op.SetActive? ==> Attaching(act, s.items[act.pc.i].debugged))
  {
    assert Assigned(s.items, a, At(s, a));
  }

  /** An operation on an item leads into attaching only from within it. */
  lemma StillAttaching(it: Item, r: Routine, i: ItemId, op: Op, t: Process)
    requires Attaching(Act(r, PcAfter(it, r, i, op)), t)
    ensures Attaching(Act(r, With(i, op)), t)
  {
  }

  lemma NotAttachingAfter(s: State, a: ActId)
    requires Enabled(s, a, Go) && At(s, a).pc.With? && At(s, a).pc.op.SetActive?
    ensures forall t :: !Attaching(At(GoStep(s, a), a), t)
  {
  }

  lemma FindingKeepsOneEach(s: State, a: ActId)
    requires Inv(s) && OneEach(s) && At(s, a).pc.Finding?
    ensures OneEach(GoStep(s, a))
  {
    var s', act := GoStep(s, a), At(s, a);
    var found := Find(s.items, QueryOf(act.routine));
    forall b, i, t | 0 <= i < |s'.items| && Attaching(At(s', b), t) && s'.items[i].active ensures s'.items[i].debugged != t {
      ListedWhileActive(s, i);
      if b == a {
        assert found.None? && !Listed(Query(None, Some(t)), s.items[i]);
      }
    }
  }

  lemma StepKeepsOneEach(s: State, a: ActId, mv: Move)
    requires Inv(s) && AllAssigned(s) && OneEach(s) && Enabled(s, a, mv) && AttachesApart(s)
    ensures OneEach(Step(s, a, mv))
  {
    hide ItemAfter, PcAfter, Find, FindFrom, Inv, OneEach, AttachesApart;
    if mv.Go? && At(s, a).pc.With? {
      OnItemKeepsOneEach(s, a);
    } else if mv.Go? && At(s, a).pc.Finding? {
      FindingKeepsOneEach(s, a);
    } else {
      KeepsOneEach(s, Step(s, a, mv), a, 0);
    }
  }

  /** A process has at most one active session as long as no two attaches to it have overlapped between
      their search and their activation. */
  lemma {:induction false} OneSessionEach(states: seq<State>, actions: seq<Action>, k: nat)
    requires IsRun(states, actions) && k < |states|
    requires forall m :: 0 <= m < k ==> AttachesApart(states[m])
    ensures OneEach(states[k])
  {
    if k > 0 {
      OneSessionEach(states, actions, k - 1);
      InvInRuns(states, actions, k - 1);
      AssignedInRuns(states, actions, k - 1);
      assert StepOf(states[k - 1], actions[k - 1], states[k]);
      StepKeepsOneEach(states[k - 1], actions[k - 1].act, actions[k - 1].move);
    }
  }
}
