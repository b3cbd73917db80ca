/** Why the content guarantees are for one receiving thread: recv_event is manual-reset, so it can wake
    two receivers for one message, and the late one can take the next sender's turn before that sender
    has copied its message in. */
module StaleDelivery {
  import opened Words
  import opened Channel
  import opened ChannelInvariant
  import opened ChannelObject
  import opened Rendezvous

  datatype Trace = Trace(states: seq<State>, actions: seq<Action>)

  ghost predicate Calm(tr: Trace) {
    IsRun(tr.states, tr.actions) && AllowedRun(CalmRun, tr.actions)
  }

  function Now(tr: Trace): State
    requires tr.states != []
  {
    tr.states[|tr.states| - 1]
  }

  /** Calls of channel_recv and channel_send come from these threads only. */
  ghost predicate ReceiversIn(receivers: set<ThreadId>, actions: seq<Action>) {
    forall i :: 0 <= i < |actions| ==> ReceivesIn(receivers, actions[i])
  }

  predicate ReceivesIn(receivers: set<ThreadId>, a: Action) {
    a.move.Call? && (a.move.op.Recv? || a.move.op.Send?) ==> a.thread in receivers
  }

  /** One more step of the run. */
  lemma Then(rs: set<ThreadId>, tr: Trace, t: ThreadId, mv: Move) returns (tr': Trace)
    requires Calm(tr) && ReceiversIn(rs, tr.actions) && Ready(Now(tr), t, mv) && Allowed(CalmRun, t, mv) && ReceivesIn(rs, Action(t, mv))
    ensures Calm(tr') && ReceiversIn(rs, tr'.actions) && Now(tr') == Step(Now(tr), t, mv)
  {
    hide LocalStep;
    var s := Step(Now(tr), t, mv);
    tr' := Trace(tr.states + [s], tr.actions + [Action(t, mv)]);
    RunExtends(tr.states, tr.actions, Action(t, mv), s);
  }

  lemma Next(rs: set<ThreadId>, tr: Trace, t: ThreadId) returns (tr': Trace)
    requires Calm(tr) && ReceiversIn(rs, tr.actions) && Ready(Now(tr), t, Proceed)
    ensures Calm(tr') && ReceiversIn(rs, tr'.actions) && Now(tr') == Step(Now(tr), t, Proceed)
  {
    tr' := Then(rs, tr, t, Proceed);
  }

  ghost predicate OthersSame(s: State, s': State, t: ThreadId) {
    forall u :: u != t ==> At(s', u) == At(s, u)
  }

  /** A sender gets as far as its compare-and-swap. */
  lemma SenderComes(rs: set<ThreadId>, tr: Trace, t: ThreadId, msg: Bytes) returns (tr': Trace)
    requires Calm(tr) && ReceiversIn(rs, tr.actions) && At(Now(tr), t).pc.Idle? && Now(tr).chan.sendEvent && !Now(tr).chan.released
    ensures Calm(tr') && ReceiversIn(rs, tr'.actions) && OthersSame(Now(tr), Now(tr'), t)
    ensures Now(tr').chan == Now(tr).chan.(waiters := Now(tr).chan.waiters + 1)
    ensures At(Now(tr'), t) == REST.(pc := SendEntry(SCas), role := Sender, arg := msg)
  {
    tr' := Then(rs, tr, t, Call(SendRecv(msg)));
    tr' := Next(rs, tr', t);
    tr' := Next(rs, tr', t);
    tr' := Next(rs, tr', t);
  }

  /** It wins the compare-and-swap. */
  lemma SenderWins(rs: set<ThreadId>, tr: Trace, t: ThreadId) returns (tr': Trace)
    requires Calm(tr) && ReceiversIn(rs, tr.actions) && At(Now(tr), t).pc == SendEntry(SCas) && Now(tr).chan.word.Null?
    ensures Calm(tr') && ReceiversIn(rs, tr'.actions) && OthersSame(Now(tr), Now(tr'), t)
    ensures var c := Now(tr).chan;
      Now(tr').chan == c.(word := Sent, hist := c.hist.(offers := c.hist.offers + [Offer(t, At(Now(tr), t).arg)]))
    ensures At(Now(tr'), t).pc == Offering(SClear) && At(Now(tr'), t).arg == At(Now(tr), t).arg
  {
    tr' := Next(rs, tr, t);
  }

  /** It offers its message. */
  lemma SenderOffers(rs: set<ThreadId>, tr: Trace, t: ThreadId) returns (tr': Trace)
    requires Calm(tr) && ReceiversIn(rs, tr.actions) && At(Now(tr), t).pc == Offering(SClear)
    ensures Calm(tr') && ReceiversIn(rs, tr'.actions) && OthersSame(Now(tr), Now(tr'), t)
    ensures Now(tr').chan == Now(tr).chan.(sendEvent := false, request := At(Now(tr), t).arg, recvEvent := true)
    ensures At(Now(tr'), t).pc == Offering(SAwait)
  {
    tr' := Next(rs, tr, t);
    tr' := Next(rs, tr', t);
    tr' := Next(rs, tr', t);
  }

  /** A receiver is woken and gets as far as its compare-and-swap. */
  lemma ReceiverWakes(rs: set<ThreadId>, tr: Trace, t: ThreadId) returns (tr': Trace)
    requires Calm(tr) && ReceiversIn(rs, tr.actions) && t in rs && At(Now(tr), t).pc.Idle? && Now(tr).chan.recvEvent && !Now(tr).chan.released
    ensures Calm(tr') && ReceiversIn(rs, tr'.actions) && OthersSame(Now(tr), Now(tr'), t)
    ensures Now(tr').chan == Now(tr).chan.(waiters := Now(tr).chan.waiters + 1)
    ensures At(Now(tr'), t).pc == RecvEntry(RCas)
  {
    tr' := Then(rs, tr, t, Call(Recv));
    tr' := Next(rs, tr', t);
    tr' := Next(rs, tr', t);
    tr' := Next(rs, tr', t);
  }

  /** It takes the turn and copies what is in the buffer. */
  lemma ReceiverTakes(rs: set<ThreadId>, tr: Trace, t: ThreadId) returns (tr': Trace)
    requires Calm(tr) && ReceiversIn(rs, tr.actions) && At(Now(tr), t).pc == RecvEntry(RCas) && Now(tr).chan.word.Sent? && Now(tr).chan.owner.None?
    ensures Calm(tr') && ReceiversIn(rs, tr'.actions) && OthersSame(Now(tr), Now(tr'), t)
    ensures var c := Now(tr).chan;
      Now(tr').chan == c.(word := Recved, taker := t, owner := Some(t), recvEvent := false,
                          hist := c.hist.(delivered := c.hist.delivered + [c.request]))
    ensures At(Now(tr'), t).pc == Taking(RSignal)
  {
    tr' := Next(rs, tr, t);
    tr' := Next(rs, tr', t);
    tr' := Next(rs, tr', t);
    tr' := Next(rs, tr', t);
  }

  /** It returns. */
  lemma ReceiverLeaves(rs: set<ThreadId>, tr: Trace, t: ThreadId) returns (tr': Trace)
    requires Calm(tr) && ReceiversIn(rs, tr.actions) && At(Now(tr), t).pc == Taking(RSignal)
    ensures Calm(tr') && ReceiversIn(rs, tr'.actions) && OthersSame(Now(tr), Now(tr'), t)
    ensures Now(tr').chan == Now(tr).chan.(rcvdEvent := true, waiters := Now(tr).chan.waiters - 1)
    ensures At(Now(tr'), t).pc == Idle
  {
    tr' := Next(rs, tr, t);
    tr' := Next(rs, tr', t);
  }

  /** It comes back with a reply, as far as its compare-and-swap. */
  lemma ReplierComes(rs: set<ThreadId>, tr: Trace, t: ThreadId, reply: Bytes) returns (tr': Trace)
    requires Calm(tr) && ReceiversIn(rs, tr.actions) && t in rs && At(Now(tr), t).pc.Idle? && Now(tr).chan.rcvdEvent && Now(tr).chan.owner == Some(t)
    requires !Now(tr).chan.released
    ensures Calm(tr') && ReceiversIn(rs, tr'.actions) && OthersSame(Now(tr), Now(tr'), t)
    ensures Now(tr').chan == Now(tr).chan.(waiters := Now(tr).chan.waiters + 1)
    ensures At(Now(tr'), t).pc == ReplyEntry(PCas) && At(Now(tr'), t).arg == reply
  {
    tr' := Then(rs, tr, t, Call(Send(reply)));
    tr' := Next(rs, tr', t);
    tr' := Next(rs, tr', t);
    tr' := Next(rs, tr', t);
    tr' := Next(rs, tr', t);
  }

  /** It answers. */
  lemma ReplierAnswers(rs: set<ThreadId>, tr: Trace, t: ThreadId) returns (tr': Trace)
    requires Calm(tr) && ReceiversIn(rs, tr.actions) && At(Now(tr), t).pc == ReplyEntry(PCas) && Now(tr).chan.word.Recved?
    ensures Calm(tr') && ReceiversIn(rs, tr'.actions) && OthersSame(Now(tr), Now(tr'), t)
    ensures var c, reply := Now(tr).chan, At(Now(tr), t).arg;
      Now(tr').chan == c.(word := Replayed, rcvdEvent := false, reply := reply, replEvent := true,
                          hist := c.hist.(replies := c.hist.replies + [reply]))
  {
    tr' := Next(rs, tr, t);
    tr' := Next(rs, tr', t);
    tr' := Next(rs, tr', t);
    tr' := Next(rs, tr', t);
  }

  /** The sender copies the reply out. */
  lemma SenderCollects(rs: set<ThreadId>, tr: Trace, t: ThreadId) returns (tr': Trace)
    requires Calm(tr) && ReceiversIn(rs, tr.actions) && At(Now(tr), t).pc == Offering(SAwait) && Now(tr).chan.replEvent
    ensures Calm(tr') && ReceiversIn(rs, tr'.actions) && OthersSame(Now(tr), Now(tr'), t)
    ensures var c := Now(tr).chan;
      Now(tr').chan == c.(hist := c.hist.(results := c.hist.results + [Outcome(t, c.reply)]))
    ensures At(Now(tr'), t).pc == Collecting(SClearRepl)
  {
    tr' := Next(rs, tr, t);
    tr' := Next(rs, tr', t);
    tr' := Next(rs, tr', t);
  }

  /** It frees the channel. */
  lemma SenderResets(rs: set<ThreadId>, tr: Trace, t: ThreadId) returns (tr': Trace)
    requires Calm(tr) && ReceiversIn(rs, tr.actions) && At(Now(tr), t).pc == Collecting(SClearRepl)
    ensures Calm(tr') && ReceiversIn(rs, tr'.actions) && OthersSame(Now(tr), Now(tr'), t)
    ensures Now(tr').chan == Now(tr).chan.(word := Null, owner := None, replEvent := false)
  {
    tr' := Next(rs, tr, t);
    tr' := Next(rs, tr', t);
    tr' := Next(rs, tr', t);
  }

  /** With two receivers, no aborted wait and no release, a receiver can copy out the message of the turn
      before its own, whichever two threads they are and whichever other two send. */
  lemma TwoReceiversCanBeHandedAStaleMessage(r: ThreadId, late: ThreadId, s: ThreadId, u: ThreadId, first: Bytes, second: Bytes)
    returns (tr: Trace)
    requires first != second && r != late && s != u && s != r && s != late && u != r && u != late
    ensures Calm(tr) && ReceiversIn({r, late}, tr.actions)
    ensures var h := Now(tr).chan.hist;
      |h.offers| == |h.delivered| == 2 && h.offers[1].msg == second && h.delivered[1] == first
  {
    hide Calm, IsRun, Step, ReceiversIn;
    tr := Trace([Alloc([], [])], []);
    CalmStart({r, late});
    tr := SenderComes({r, late}, tr, u, second);
    tr := SenderComes({r, late}, tr, s, first);
    tr := SenderWins({r, late}, tr, s);
    tr := SenderOffers({r, late}, tr, s);
    tr := ReceiverWakes({r, late}, tr, late);
    tr := ReceiverWakes({r, late}, tr, r);
    tr := ReceiverTakes({r, late}, tr, r);
    tr := ReceiverLeaves({r, late}, tr, r);
    tr := ReplierComes({r, late}, tr, r, []);
    tr := ReplierAnswers({r, late}, tr, r);
    tr := SenderCollects({r, late}, tr, s);
    tr := SenderResets({r, late}, tr, s);
    tr := SenderWins({r, late}, tr, u);
    tr := ReceiverTakes({r, late}, tr, late);
  }

  lemma CalmStart(rs: set<ThreadId>)
    ensures Calm(Trace([Alloc([], [])], [])) && ReceiversIn(rs, [])
  {
  }

  /** In every run without aborted waits and release in which only these threads receive, messages and replies
      match. */
  ghost predicate ContentsMatch(receivers: set<ThreadId>) {
    forall states, actions :: CalmRunOf(receivers, states, actions) ==> AlwaysAgrees(states)
  }

  ghost predicate CalmRunOf(receivers: set<ThreadId>, states: seq<State>, actions: seq<Action>) {
    IsRun(states, actions) && AllowedRun(CalmRun, actions) && ReceiversIn(receivers, actions)
  }

  ghost predicate AlwaysAgrees(states: seq<State>) {
    forall i :: 0 <= i < |states| ==> Agrees(states[i].chan.hist)
  }

  /** Message contents can be relied upon exactly if at most one thread receives. */
  lemma ContentsMatchIff(receivers: set<ThreadId>)
    ensures ContentsMatch(receivers) <==> |receivers| <= 1
  {
    if |receivers| <= 1 {
      forall states, actions | CalmRunOf(receivers, states, actions) ensures AlwaysAgrees(states) {
        OneReceiver(receivers, states, actions);
      }
    } else {
      var r :| r in receivers;
      var late := Another(receivers, r);
      var s, u := TwoMore(r, late);
      var tr := TwoReceiversCanBeHandedAStaleMessage(r, late, s, u, [], [0]);
      StaleDisagrees(tr);
      MoreReceivers({r, late}, receivers, tr.actions);
      assert CalmRunOf(receivers, tr.states, tr.actions) && !AlwaysAgrees(tr.states);
    }
  }

  lemma OneReceiver(receivers: set<ThreadId>, states: seq<State>, actions: seq<Action>)
    requires |receivers| <= 1 && CalmRunOf(receivers, states, actions)
    ensures AlwaysAgrees(states)
  {
    var r := TheOnly(receivers);
    forall i | 0 <= i < |actions| ensures Allowed(SoleReceiver(r), actions[i].thread, actions[i].move) {
      assert ReceivesIn(receivers, actions[i]) && Allowed(CalmRun, actions[i].thread, actions[i].move);
    }
    forall i | 0 <= i < |states| ensures Agrees(states[i].chan.hist) {
      MessagesAndRepliesMatch(r, states, actions, i);
    }
  }

  lemma TheOnly(receivers: set<ThreadId>) returns (r: ThreadId)
    requires |receivers| <= 1
    ensures forall t :: t in receivers ==> t == r
  {
    if receivers == {} {
      r := 0;
    } else {
      r :| r in receivers;
      assert |receivers - {r}| == 0;
      forall t | t in receivers ensures t == r {
        assert t !in receivers - {r};
      }
    }
  }

  lemma Another(receivers: set<ThreadId>, r: ThreadId) returns (t: ThreadId)
    requires |receivers| >= 2 && r in receivers
    ensures t in receivers && t != r
  {
    assert |receivers - {r}| >= 1;
    t :| t in receivers - {r};
  }

  lemma TwoMore(a: ThreadId, b: ThreadId) returns (s: ThreadId, u: ThreadId)
    ensures s != u && s != a && s != b && u != a && u != b
  {
    s := a + b + 1;
    u := s + 1;
  }

  lemma StaleDisagrees(tr: Trace)
    requires Calm(tr)
    requires var h := Now(tr).chan.hist; |h.offers| == |h.delivered| == 2 && h.delivered[1] != h.offers[1].msg
    ensures !AlwaysAgrees(tr.states)
  {
    hide StepOf;
    assert |tr.states| == |tr.actions| + 1;
    assert !Agrees(tr.states[|tr.actions|].chan.hist);
  }

  lemma MoreReceivers(few: set<ThreadId>, many: set<ThreadId>, actions: seq<Action>)
    requires few <= many && ReceiversIn(few, actions)
    ensures ReceiversIn(many, actions)
  {
    forall i | 0 <= i < |actions| ensures ReceivesIn(many, actions[i]) {
      assert ReceivesIn(few, actions[i]);
    }
  }
}
