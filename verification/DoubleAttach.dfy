/** Two attaches to one process that overlap end in two sessions for it: dbg_attach_call searches the list and
    adds to it in two steps. */
module DoubleAttach {
  import opened DbgItem
  import opened Sessions
  import opened SessionRoutines
  import opened SecondDeletion

  /** a has one operation less to go until its item is active. */
  lemma AttachGoes(tr: Trace, a: ActId, t: Process) returns (tr': Trace, i: ItemId)
    requires Possible(tr) && Attaching(At(Now(tr), a), t)
    ensures Possible(tr') && Continues(tr, tr') && OthersSame(Now(tr), Now(tr'), a) && Grows(Now(tr), Now(tr'))
    ensures i < |Now(tr').items| && Now(tr').items[i].debugged == t && (i < |Now(tr).items| ==> !Now(tr).items[i].active)
    ensures if At(Now(tr), a).pc.Creating? then At(Now(tr'), a) == At(Now(tr), a).(pc := With(i, SetChan))
            else if At(Now(tr), a).pc.op.SetChan? then At(Now(tr'), a) == At(Now(tr), a).(pc := With(i, SetActive))
            else Now(tr').items[i].active
  {
    hide Find, FindFrom;
    var s := Now(tr);
    InvInRuns(tr.states, tr.actions, |tr.actions|);
    AssignedInRuns(tr.states, tr.actions, |tr.actions|);
    assert Claim(s.items, a, At(s, a)) && Assigned(s.items, a, At(s, a));
    i := if At(s, a).pc.Creating? then |s.items| else At(s, a).pc.i;
    assert i < |s.items| ==> ItemOk(s.items[i]);
    tr' := Then(tr, a, Go);
  }

  /** Active items stay as they are. */
  predicate Grows(s: State, s': State) {
    |s'.items| >= |s.items| && forall j :: 0 <= j < |s.items| && s.items[j].active ==> s'.items[j] == s.items[j]
  }

  lemma AttachEnds(tr: Trace, a: ActId, t: Process) returns (tr': Trace, i: ItemId)
    requires Possible(tr) && Attaching(At(Now(tr), a), t)
    ensures Possible(tr') && Continues(tr, tr') && OthersSame(Now(tr), Now(tr'), a) && Grows(Now(tr), Now(tr'))
    ensures i < |Now(tr').items| && Now(tr').items[i].active && Now(tr').items[i].debugged == t
    ensures i < |Now(tr).items| ==> !Now(tr).items[i].active
    decreases if At(Now(tr), a).pc.Creating? then 2 else if At(Now(tr), a).pc.op.SetChan? then 1 else 0
  {
    hide Step, Enabled;
    tr', i := AttachGoes(tr, a, t);
    if !Now(tr').items[i].active {
      tr', i := AttachEnds(tr', a, t);
    }
  }

  /** Wherever two routines are attaching to one process, the run can go on to two active sessions for it. */
  lemma OverlapBreaks(tr: Trace, a: ActId, b: ActId, t: Process) returns (tr': Trace, i: ItemId, j: ItemId)
    requires Possible(tr) && a != b && Attaching(At(Now(tr), a), t) && Attaching(At(Now(tr), b), t)
    ensures Possible(tr') && Continues(tr, tr') && i < |Now(tr').items| && j < |Now(tr').items| && i != j
    ensures var s := Now(tr'); s.items[i].active && s.items[j].active && s.items[i].debugged == s.items[j].debugged == t
  {
    hide Step, Enabled;
    tr', i := AttachEnds(tr, a, t);
    tr', j := AttachEnds(tr', b, t);
  }

  /** And two routines can come to that: they both search before either has added its item. */
  lemma AttachesOverlap(me: Process, other: Process, t: Process) returns (tr: Trace)
    requires me != t && other != t
    ensures Possible(tr) && Attaching(At(Now(tr), 0), t) && Attaching(At(Now(tr), 1), t)
  {
    tr := Trace([EMPTY], []);
    tr := Then(tr, 0, Start(Attach(me, t)));
    tr := Then(tr, 1, Start(Attach(other, t)));
    tr := Then(tr, 0, Go);
    tr := Then(tr, 1, Go);
  }
}
