/** A release can be missed: recv_event is manual-reset, and a receiver that has just taken a message clears
    it without looking at the release flag again. */
module MissedRelease {
  import opened Channel
  import opened ChannelObject
  import opened StaleDelivery

  ghost predicate Valid(tr: Trace) {
    IsRun(tr.states, tr.actions)
  }

  /** One more step, of any kind. */
  lemma Goes(tr: Trace, t: ThreadId, mv: Move) returns (tr': Trace)
    requires Valid(tr) && Ready(Now(tr), t, mv)
    ensures Valid(tr') && Now(tr') == Step(Now(tr), t, mv) && OthersSame(Now(tr), Now(tr'), t)
  {
    hide LocalStep;
    var s := Step(Now(tr), t, mv);
    tr' := Trace(tr.states + [s], tr.actions + [Action(t, mv)]);
    RunExtends(tr.states, tr.actions, Action(t, mv), s);
  }

  /** A message is offered and a receiver wakes up. */
  lemma MessageWaits(receiver: ThreadId, sender: ThreadId) returns (tr: Trace)
    requires receiver != sender
    ensures Valid(tr) && At(Now(tr), receiver).pc == RecvEntry(RCas) && OnlyThese(Now(tr), {receiver, sender})
    ensures Now(tr).chan.word.Sent? && Now(tr).chan.owner.None?
  {
    var rs := {receiver};
    tr := Trace([Alloc([], [])], []);
    tr := SenderComes(rs, tr, sender, []);
    tr := SenderWins(rs, tr, sender);
    tr := SenderOffers(rs, tr, sender);
    tr := ReceiverWakes(rs, tr, receiver);
  }

  /** Nobody else has called yet. */
  ghost predicate OnlyThese(s: State, ts: set<ThreadId>) {
    forall u :: u !in ts ==> At(s, u) == REST
  }

  /** The receiver takes the turn, as far as its clear of recv_event. */
  lemma ReceiverOwns(tr: Trace, t: ThreadId) returns (tr': Trace)
    requires Valid(tr) && At(Now(tr), t).pc == RecvEntry(RCas) && Now(tr).chan.word.Sent? && Now(tr).chan.owner.None?
    ensures Valid(tr') && OthersSame(Now(tr), Now(tr'), t) && At(Now(tr'), t).pc == Taking(RClear)
  {
    tr' := Goes(tr, t, Proceed);
    tr' := Goes(tr', t, Proceed);
  }

  lemma ReleaserComes(tr: Trace, t: ThreadId) returns (tr': Trace)
    requires Valid(tr) && At(Now(tr), t).pc.Idle?
    ensures Valid(tr') && OthersSame(Now(tr), Now(tr'), t)
    ensures Now(tr').chan.released && At(Now(tr'), t).role.Releaser? && At(Now(tr'), t).pc == Releasing(XRecv)
  {
    tr' := Goes(tr, t, Call(Release));
    tr' := Goes(tr', t, Proceed);
    tr' := Goes(tr', t, Proceed);
  }

  lemma ReleaserLeaves(tr: Trace, t: ThreadId) returns (tr': Trace)
    requires Valid(tr) && At(Now(tr), t).pc == Releasing(XRecv)
    ensures Valid(tr') && OthersSame(Now(tr), Now(tr'), t)
    ensures Now(tr').chan.released == Now(tr).chan.released && At(Now(tr'), t) == At(Now(tr), t).(pc := Idle)
  {
    tr' := Goes(tr, t, Proceed);
    tr' := Goes(tr', t, Proceed);
    tr' := Goes(tr', t, Proceed);
  }

  /** The receiver returns with its message. */
  lemma ReceiverReturns(tr: Trace, t: ThreadId) returns (tr': Trace)
    requires Valid(tr) && At(Now(tr), t).pc == Taking(RClear)
    ensures Valid(tr') && OthersSame(Now(tr), Now(tr'), t) && At(Now(tr'), t).pc.Idle? && !Now(tr').chan.recvEvent
    ensures Now(tr').chan.released == Now(tr).chan.released
  {
    tr' := Goes(tr, t, Proceed);
    tr' := Goes(tr', t, Proceed);
    tr' := Goes(tr', t, Proceed);
    tr' := Goes(tr', t, Proceed);
  }

  /** A release that overtakes a receiver in front of its clear of recv_event is undone by that clear: the
      receiver's next channel_recv waits, on a released channel, for an event that is not set. */
  lemma ReleaseCanBeMissed(receiver: ThreadId, sender: ThreadId, releaser: ThreadId) returns (states: seq<State>, actions: seq<Action>)
    requires receiver != sender && receiver != releaser && sender != releaser
    ensures IsRun(states, actions)
    ensures var s := states[|actions|];
      && s.chan.released && At(s, releaser).role.Releaser? && At(s, releaser).pc.Idle?
      && At(s, receiver).pc == RecvEntry(RWait) && !Enabled(s.chan, At(s, receiver).pc, Proceed)
  {
    var tr := MessageWaits(receiver, sender);
    tr := ReceiverOwns(tr, receiver);
    tr := ReleaserComes(tr, releaser);
    tr := ReleaserLeaves(tr, releaser);
    tr := ReceiverReturns(tr, receiver);
    tr := Goes(tr, receiver, Call(Recv));
    tr := Goes(tr, receiver, Proceed);
    return tr.states, tr.actions;
  }
}
