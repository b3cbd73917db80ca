/** Exclusion and wake-up guarantees of the channel, over whole runs. */
module ChannelTheorems {
  import opened Words
  import opened Channel
  import opened ChannelInvariant
  import opened Rendezvous
  import opened ChannelReturns

  lemma MovesInRuns(m: Mode, states: seq<State>, actions: seq<Action>, i: nat)
    requires IsRun(states, actions) && AllowedRun(m, actions) && i < |actions|
    ensures var s, t := states[i], actions[i].thread;
            Moves(s.chan, t, At(s, t), Result(states[i + 1].chan, At(states[i + 1], t)))
    ensures forall u :: u != actions[i].thread ==> At(states[i + 1], u) == At(states[i], u)
  {
    var s, t, mv := states[i], actions[i].thread, actions[i].move;
    InvInRuns(m, states, actions, i);
    assert StepOf(s, actions[i], states[i + 1]);
    assert Claim(m, s.chan, t, At(s, t)) && Claim(m, s.chan, t + 1, At(s, t + 1));
    LocalStepKeeps(m, s.chan, t, At(s, t), t + 1, At(s, t + 1), mv);
  }

  lemma WordInRuns(m: Mode, states: seq<State>, actions: seq<Action>, i: nat)
    requires IsRun(states, actions) && AllowedRun(m, actions) && i < |actions|
    ensures WordMoves(states[i].chan, actions[i].thread, At(states[i], actions[i].thread), states[i + 1].chan)
  {
    MovesInRuns(m, states, actions, i);
  }

  lemma SendEventInRuns(states: seq<State>, actions: seq<Action>, i: nat, u: ThreadId)
    requires IsRun(states, actions) && i < |actions| && !states[i + 1].chan.sendEvent
    requires states[i].chan.sendEvent || MustAnnounce(At(states[i], u).pc)
    ensures MustAnnounce(At(states[i + 1], if states[i].chan.sendEvent then actions[i].thread else u).pc)
  {
    MovesInRuns(AnyRun, states, actions, i);
  }

  // ----------------------------------------------------------------------------------------------
  // Senders

  /** In every run, aborted waits, releases and any number of receivers included: the word differs
      from CH_NULL exactly while one sender is between its compare-and-swap and its store of CH_NULL,
      so no two senders are ever at their buffer copies. */
  lemma SendersExcludeEachOther(states: seq<State>, actions: seq<Action>, i: nat)
    requires IsRun(states, actions) && i < |states|
    ensures states[i].chan.word.Null? <==> forall t :: !InTransaction(At(states[i], t).pc)
    ensures forall t, u :: InTransaction(At(states[i], t).pc) && InTransaction(At(states[i], u).pc) ==> t == u
  {
    var s := states[i];
    InvInRuns(AnyRun, states, actions, i);
    if !s.chan.word.Null? {
      var holder := Last(s.chan).sender;
      assert Claim(AnyRun, s.chan, holder, At(s, holder)) && Holds(s.chan, holder);
    }
    forall t ensures InTransaction(At(s, t).pc) <==> Holds(s.chan, t) {
      assert Claim(AnyRun, s.chan, t, At(s, t));
    }
  }

  lemma RunsStartSet(states: seq<State>, actions: seq<Action>)
    requires IsRun(states, actions)
    ensures |states| == |actions| + 1 && states[0].chan.sendEvent
  {
  }

  /** In every run, send_event is clear only while some sender is between its clear and its final set. */
  lemma {:induction false} SendEventWillBeSet(states: seq<State>, actions: seq<Action>, i: nat) returns (u: ThreadId)
    requires IsRun(states, actions) && i < |states| && !states[i].chan.sendEvent
    ensures MustAnnounce(At(states[i], u).pc)
  {
    RunsStartSet(states, actions);
    hide IsRun, MustAnnounce;
    if states[i - 1].chan.sendEvent {
      SendEventInRuns(states, actions, i - 1, 0);
      u := actions[i - 1].thread;
    } else {
      u := SendEventWillBeSet(states, actions, i - 1);
      SendEventInRuns(states, actions, i - 1, u);
    }
  }

  // ----------------------------------------------------------------------------------------------
  // Receivers

  /** Between winning the compare-and-swap of channel_recv and the reply, in or out of a call. */
  predicate Engaged(c: Chan, t: ThreadId, l: Local) {
    l.pc.Taking? || l.pc.Answering? || (c.word.Recved? && c.owner == Some(t))
  }

  /** Any number of receivers, no aborted wait, no release: at most one is engaged, and the
      compare-and-swap of the owner word finds it empty. */
  lemma ReceiversExcludeEachOther(states: seq<State>, actions: seq<Action>, i: nat)
    requires IsRun(states, actions) && AllowedRun(CalmRun, actions) && i < |states|
    ensures forall t, u ::
      Engaged(states[i].chan, t, At(states[i], t)) && Engaged(states[i].chan, u, At(states[i], u)) ==> t == u
    ensures forall t :: At(states[i], t).pc == Taking(ROwn) ==> states[i].chan.owner.None?
  {
    var s := states[i];
    InvInRuns(CalmRun, states, actions, i);
    forall t | Engaged(s.chan, t, At(s, t)) ensures t == s.chan.taker {
      assert Claim(CalmRun, s.chan, t, At(s, t));
    }
    forall t | At(s, t).pc == Taking(ROwn) ensures s.chan.owner.None? {
      assert Claim(CalmRun, s.chan, t, At(s, t));
    }
  }

  /** The state in which the pending message was taken. */
  lemma {:induction false} TakenBy(m: Mode, states: seq<State>, actions: seq<Action>, i: nat) returns (j: nat)
    requires IsRun(states, actions) && AllowedRun(m, actions) && i < |states| && states[i].chan.word.Recved?
    ensures j < i && states[j].chan.word.Sent? && actions[j].thread == states[i].chan.taker
    ensures forall k :: j < k <= i ==> states[k].chan.word.Recved?
  {
    WordInRuns(m, states, actions, i - 1);
    if states[i - 1].chan.word.Recved? {
      j := TakenBy(m, states, actions, i - 1);
    } else {
      j := i - 1;
    }
  }

  /** The step from CH_RECVED to CH_REPLAYED is taken by the thread that took the step from CH_SENT
      to CH_RECVED, and the word was CH_RECVED all the time in between. */
  lemma ReplierIsReceiver(states: seq<State>, actions: seq<Action>, i: nat) returns (j: nat)
    requires IsRun(states, actions) && AllowedRun(CalmRun, actions) && i < |actions|
    requires states[i].chan.word.Recved? && states[i + 1].chan.word.Replayed?
    ensures j < i && states[j].chan.word.Sent? && actions[j].thread == actions[i].thread
    ensures forall k :: j < k <= i ==> states[k].chan.word.Recved?
  {
    var s, t := states[i], actions[i].thread;
    j := TakenBy(CalmRun, states, actions, i);
    InvInRuns(CalmRun, states, actions, i);
    WordInRuns(CalmRun, states, actions, i);
    assert Claim(CalmRun, s.chan, t, At(s, t));
  }

  // ----------------------------------------------------------------------------------------------
  // Wake-ups

  /** One receiving thread r, no aborted wait, no release: no event that somebody waits for is lost.
      An offered message keeps recv_event set until it is taken; a taken one whose channel_recv has
      returned keeps rcvd_event set; a reply whose channel_send has returned keeps repl_event set
      until it is copied out. */
  lemma NoLostWakeUps(r: ThreadId, states: seq<State>, actions: seq<Action>, i: nat, t: ThreadId)
    requires IsRun(states, actions) && AllowedRun(SoleReceiver(r), actions) && i < |states|
    ensures At(states[i], t).pc == Offering(SAwait) && states[i].chan.word.Sent? ==> states[i].chan.recvEvent
    ensures states[i].chan.word.Recved? && !At(states[i], r).pc.Taking? ==> states[i].chan.rcvdEvent
    ensures states[i].chan.word.Replayed? && !At(states[i], r).pc.Answering? ==>
      states[i].chan.replEvent || |states[i].chan.hist.results| == |states[i].chan.hist.offers|
  {
    var s := states[i];
    InvInRuns(SoleReceiver(r), states, actions, i);
    assert Claim(SoleReceiver(r), s.chan, t, At(s, t)) && Claim(SoleReceiver(r), s.chan, r, At(s, r));
  }

  /** Hence nobody is stuck behind a transaction.  While the word is not CH_NULL, its sender can move, or r
      can move, or r is idle or waits for a turn to send; or r waits in the wrong one of its two calls; or r
      is that sender itself, waiting for a reply to a message that only r could receive. */
  lemma SomebodyCanMove(r: ThreadId, states: seq<State>, actions: seq<Action>, i: nat) returns (holder: ThreadId)
    requires IsRun(states, actions) && AllowedRun(SoleReceiver(r), actions) && i < |states|
    requires !states[i].chan.word.Null?
    ensures Holds(states[i].chan, holder) && InTransaction(At(states[i], holder).pc)
    ensures var c, pc := states[i].chan, At(states[i], r).pc;
            || Enabled(c, At(states[i], holder).pc, Proceed)
            || Enabled(c, pc, Proceed)
            || pc.Idle?
            || (pc == RecvEntry(RWait) && c.word.Recved?)
            || (pc == ReplyEntry(PWait) && c.word.Sent?)
            || pc == SendEntry(SWait)
            || (holder == r && pc == Offering(SAwait) && c.word.Sent?)
  {
    var s := states[i];
    InvInRuns(SoleReceiver(r), states, actions, i);
    holder := Last(s.chan).sender;
    assert Holds(s.chan, holder);
    assert Claim(SoleReceiver(r), s.chan, holder, At(s, holder)) && Claim(SoleReceiver(r), s.chan, r, At(s, r));
  }

  // ----------------------------------------------------------------------------------------------
  // Returned values

  /** channel_send_recv returns 1 exactly when its compare-and-swap won; then the bytes in its
      buffer are the reply to its own message, and that message is what the receiver was given. */
  lemma SenderReturns(r: ThreadId, states: seq<State>, actions: seq<Action>, i: nat, t: ThreadId)
    requires IsRun(states, actions) && AllowedRun(SoleReceiver(r), actions) && i < |states|
    requires At(states[i], t).pc.Leaving? && At(states[i], t).role.Sender?
    ensures var l, h := At(states[i], t), states[i].chan.hist;
            && (l.succs <==> l.won)
            && (l.succs ==> l.slot < |h.results| <= |h.replies| <= |h.delivered| <= |h.offers|
                            && h.offers[l.slot] == Offer(t, l.arg)
                            && h.delivered[l.slot] == l.arg
                            && h.replies[l.slot] == l.out)
  {
    var s := states[i];
    ReturnsInRuns(SoleReceiver(r), states, actions, i);
    assert ReturnClaim(SoleReceiver(r), s.chan.hist, t, At(s, t));
    MessagesAndRepliesMatch(r, states, actions, i);
  }

  /** channel_recv returns 1, and the bytes in its buffer are the message of the winner of its turn. */
  lemma ReceiverReturns(r: ThreadId, states: seq<State>, actions: seq<Action>, i: nat, t: ThreadId)
    requires IsRun(states, actions) && AllowedRun(SoleReceiver(r), actions) && i < |states|
    requires At(states[i], t).pc.Leaving? && At(states[i], t).role.Receiver?
    ensures var l, h := At(states[i], t), states[i].chan.hist;
            l.succs && l.slot < |h.delivered| <= |h.offers| && h.offers[l.slot].msg == l.out
  {
    var s := states[i];
    ReturnsInRuns(SoleReceiver(r), states, actions, i);
    assert ReturnClaim(SoleReceiver(r), s.chan.hist, t, At(s, t));
    MessagesAndRepliesMatch(r, states, actions, i);
  }

  /** The step that copied the n-th delivered message out. */
  lemma {:induction false} DeliveryStep(states: seq<State>, actions: seq<Action>, i: nat, n: nat) returns (j: nat)
    requires IsRun(states, actions) && i < |states| && n < |states[i].chan.hist.delivered|
    ensures j < i && actions[j].move.Proceed? && At(states[j], actions[j].thread).pc == Taking(RCopy)
    ensures |states[j].chan.hist.delivered| == n && states[j].chan.request == states[i].chan.hist.delivered[n]
  {
    var s, a := states[i - 1], actions[i - 1];
    assert StepOf(s, a, states[i]);
    StepRecords(s.chan, a.thread, At(s, a.thread), a.move);
    if n < |s.chan.hist.delivered| {
      j := DeliveryStep(states, actions, i - 1, n);
    } else {
      j := i - 1;
    }
  }

  /** channel_send returns 1, and its bytes are the reply of the transaction whose message the same thread
      copied out, at step j, of the channel. */
  lemma ReplierReturns(r: ThreadId, states: seq<State>, actions: seq<Action>, i: nat, t: ThreadId) returns (j: nat)
    requires IsRun(states, actions) && AllowedRun(SoleReceiver(r), actions) && i < |states|
    requires At(states[i], t).pc.Leaving? && At(states[i], t).role.Replier?
    ensures var l, h := At(states[i], t), states[i].chan.hist;
      l.succs && l.slot < |h.replies| <= |h.delivered| <= |h.offers| && h.replies[l.slot] == l.arg
    ensures var l, h := At(states[i], t), states[i].chan.hist;
      && j < i && actions[j].move.Proceed? && At(states[j], actions[j].thread).pc == Taking(RCopy)
      && |states[j].chan.hist.delivered| == l.slot && states[j].chan.request == h.offers[l.slot].msg
      && actions[j].thread == t
  {
    var s, l, h := states[i], At(states[i], t), states[i].chan.hist;
    ReturnsInRuns(SoleReceiver(r), states, actions, i);
    assert ReturnClaim(SoleReceiver(r), h, t, l);
    MessagesAndRepliesMatch(r, states, actions, i);
    j := DeliveryStep(states, actions, i, l.slot);
    InvInRuns(SoleReceiver(r), states, actions, j);
    assert Claim(SoleReceiver(r), states[j].chan, actions[j].thread, At(states[j], actions[j].thread));
    RepliersCall(r, states, actions, i, t);
  }

  /** Only r replies. */
  lemma {:induction false} RepliersCall(r: ThreadId, states: seq<State>, actions: seq<Action>, i: nat, t: ThreadId)
    requires IsRun(states, actions) && AllowedRun(SoleReceiver(r), actions) && i < |states| && At(states[i], t).role.Replier?
    ensures t == r
  {
    assert StepOf(states[i - 1], actions[i - 1], states[i]);
    if At(states[i - 1], t).role.Replier? {
      RepliersCall(r, states, actions, i - 1, t);
    } else {
      RolesAreCalled(states[i - 1].chan, t, At(states[i - 1], t));
    }
  }

  lemma RolesAreCalled(c: Chan, t: ThreadId, l: Local)
    ensures !l.pc.Idle? ==> Statement(c, t, l).local.role == l.role
  {
    match l.pc
    case Idle =>
    case SendEntry(_) => match l.pc.se { case SInc => case SWait => case SCheck => case SCas => }
    case Offering(_) => match l.pc.so { case SClear => case SCopy => case SSignal => case SAwait => }
    case Collecting(_) => match l.pc.sc { case SStatus => case STake => case SClearRepl => case SDisown => case SReset => }
    case Announcing =>
    case RecvEntry(_) => match l.pc.re { case RInc => case RWait => case RCheck => case RCas => }
    case Taking(_) => match l.pc.rt { case ROwn => case RClear => case RCopy => case RSignal => }
    case ReplyEntry(_) => match l.pc.pe { case PInc => case PWait => case PCheck => case POwner => case PCas => }
    case Answering(_) => match l.pc.pa { case PClear => case PCopy => case PSignal => }
    case Leaving =>
    case Releasing(_) => match l.pc.x { case XFlag => case XSend => case XRecv => case XRcvd => case XRepl => }
  }

  // ----------------------------------------------------------------------------------------------
  // The waiter count

  function InsideThreads(s: State): set<ThreadId> {
    set t | t in s.locals && Inside(At(s, t).pc)
  }

  function One(b: bool): int {
    if b then 1 else 0
  }

  lemma InsideMeans(s: State, u: ThreadId)
    ensures u in InsideThreads(s) <==> Inside(At(s, u).pc)
  {
  }

  lemma OthersStay(s: State, t: ThreadId, s': State)
    requires forall u :: u != t ==> At(s', u) == At(s, u)
    ensures InsideThreads(s') - {t} == InsideThreads(s) - {t}
  {
    forall u | u != t ensures u in InsideThreads(s') <==> u in InsideThreads(s) {
      InsideMeans(s, u);
      InsideMeans(s', u);
      assert At(s', u) == At(s, u);
    }
  }

  lemma StepCounts(s: State, t: ThreadId, s': State)
    requires forall u :: u != t ==> At(s', u) == At(s, u)
    ensures |InsideThreads(s')| - One(Inside(At(s', t).pc)) == |InsideThreads(s)| - One(Inside(At(s, t).pc))
  {
    OthersStay(s, t, s');
    CountOthers(InsideThreads(s), t);
    CountOthers(InsideThreads(s'), t);
    InsideMeans(s, t);
    InsideMeans(s', t);
  }

  lemma CountOthers(a: set<ThreadId>, t: ThreadId)
    ensures |a - {t}| == |a| - One(t in a)
  {
    if t !in a {
      assert a - {t} == a;
    }
  }

  lemma WaitersInRuns(states: seq<State>, actions: seq<Action>, i: nat)
    requires IsRun(states, actions) && i < |actions|
    ensures states[i + 1].chan.waiters - |InsideThreads(states[i + 1])| == states[i].chan.waiters - |InsideThreads(states[i])|
  {
    MovesInRuns(AnyRun, states, actions, i);
    StepCounts(states[i], actions[i].thread, states[i + 1]);
  }

  /** In every run `waiters` counts the threads that may still touch the channel, so channel_free's
      loop ends only when there are none. */
  lemma {:induction false} WaitersCountThreadsInside(states: seq<State>, actions: seq<Action>, i: nat)
    requires IsRun(states, actions) && i < |states|
    ensures states[i].chan.waiters == |InsideThreads(states[i])|
    ensures states[i].chan.waiters == 0 ==> forall t :: !Inside(At(states[i], t).pc)
  {
    if i > 0 {
      WaitersCountThreadsInside(states, actions, i - 1);
      WaitersInRuns(states, actions, i - 1);
    } else {
      assert InsideThreads(states[0]) == {};
    }
    NobodyInside(states[i]);
  }

  lemma NobodyInside(s: State)
    ensures |InsideThreads(s)| == 0 ==> forall t :: !Inside(At(s, t).pc)
  {
    if |InsideThreads(s)| == 0 {
      forall t ensures !Inside(At(s, t).pc) {
        assert t !in InsideThreads(s);
      }
    }
  }
}
