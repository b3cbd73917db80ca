/** What calls on the channel return in every run, aborted waits, releases and any number of receivers
    included. */
module BrokenCalls {
  import opened Channel
  import opened ChannelInvariant
  import opened ChannelReturns

  /** The tests that follow the four waits. */
  predicate Checks(pc: Pc) {
    match pc
    case SendEntry(e) => e.SCheck?
    case Collecting(e) => e.SStatus?
    case RecvEntry(e) => e.RCheck?
    case ReplyEntry(e) => e.PCheck?
    case _ => false
  }

  /** Some thread has executed the first statement of channel_release. */
  ghost predicate ReleaseBegun(states: seq<State>, actions: seq<Action>, i: nat)
    requires i <= |actions| && i < |states|
  {
    exists w :: 0 <= w < i && actions[w].move.Proceed? && At(states[w], actions[w].thread).pc == Releasing(XFlag)
  }

  /** The last thing t did was to have its wait aborted. */
  ghost predicate LastAborted(actions: seq<Action>, i: nat, t: ThreadId)
    requires i <= |actions|
  {
    exists w :: 0 <= w < i && actions[w] == Action(t, Abort) && forall k :: w < k < i ==> actions[k].thread != t
  }

  ghost predicate BrokenOff(states: seq<State>, actions: seq<Action>, i: nat, t: ThreadId)
    requires i <= |actions| && i < |states|
  {
    ReleaseBegun(states, actions, i) || LastAborted(actions, i, t)
  }

  // ----------------------------------------------------------------------------------------------
  // The flag and the aborted waits

  lemma FlagStays(c: Chan, t: ThreadId, l: Local)
    requires !l.pc.Idle? && !l.pc.Releasing?
    ensures Statement(c, t, l).chan.released == c.released
  {
    match l.pc
    case SendEntry(_) => match l.pc.se { case SInc => case SWait => case SCheck => case SCas => }
    case Offering(_) => match l.pc.so { case SClear => case SCopy => case SSignal => case SAwait => }
    case Collecting(_) => match l.pc.sc { case SStatus => case STake => case SClearRepl => case SDisown => case SReset => }
    case Announcing =>
    case RecvEntry(_) => match l.pc.re { case RInc => case RWait => case RCheck => case RCas => }
    case Taking(_) => match l.pc.rt { case ROwn => case RClear => case RCopy => case RSignal => }
    case ReplyEntry(_) => match l.pc.pe { case PInc => case PWait => case PCheck => case POwner => case PCas => }
    case Answering(_) => match l.pc.pa { case PClear => case PCopy => case PSignal => }
    case Leaving =>
  }

  lemma FlagChanges(c: Chan, t: ThreadId, l: Local)
    requires !l.pc.Idle?
    ensures Statement(c, t, l).chan.released <==> c.released || l.pc == Releasing(XFlag)
  {
    if l.pc.Releasing? {
      match l.pc.x case XFlag => case XSend => case XRecv => case XRcvd => case XRepl =>
    } else {
      FlagStays(c, t, l);
    }
  }

  lemma ReleasedStep(states: seq<State>, actions: seq<Action>, i: nat)
    requires IsRun(states, actions) && i < |actions|
    ensures states[i + 1].chan.released <==>
      states[i].chan.released || (actions[i].move.Proceed? && At(states[i], actions[i].thread).pc == Releasing(XFlag))
  {
    var s, a := states[i], actions[i];
    assert StepOf(s, a, states[i + 1]);
    if a.move.Proceed? {
      FlagChanges(s.chan, a.thread, At(s, a.thread));
    }
  }

  /** The flag says that a release has begun. */
  lemma {:induction false} ReleasedMeans(states: seq<State>, actions: seq<Action>, i: nat)
    requires IsRun(states, actions) && i < |states|
    ensures states[i].chan.released <==> ReleaseBegun(states, actions, i)
  {
    if i > 0 {
      ReleasedMeans(states, actions, i - 1);
      ReleasedStep(states, actions, i - 1);
    }
  }

  /** t's previous move. */
  lemma {:induction false} PreviousMove(states: seq<State>, actions: seq<Action>, i: nat, t: ThreadId) returns (k: nat)
    requires IsRun(states, actions) && i < |states| && At(states[i], t) != REST
    ensures k < i && actions[k].thread == t && At(states[k + 1], t) == At(states[i], t)
    ensures forall j :: k < j < i ==> actions[j].thread != t
    ensures forall j :: k < j <= i ==> At(states[j], t) == At(states[i], t)
  {
    assert StepOf(states[i - 1], actions[i - 1], states[i]);
    if actions[i - 1].thread == t {
      k := i - 1;
    } else {
      k := PreviousMove(states, actions, i - 1, t);
    }
  }

  /** Only a wait leads to a test. */
  lemma OthersDoNotCheck(c: Chan, t: ThreadId, l: Local)
    requires !l.pc.Idle? && !Waiting(l.pc)
    ensures !Checks(Statement(c, t, l).local.pc)
  {
    match l.pc
    case SendEntry(_) => match l.pc.se { case SInc => case SWait => case SCheck => case SCas => }
    case Offering(_) => match l.pc.so { case SClear => case SCopy => case SSignal => case SAwait => }
    case Collecting(_) =>
    case Announcing =>
    case RecvEntry(_) => match l.pc.re { case RInc => case RWait => case RCheck => case RCas => }
    case Taking(_) => match l.pc.rt { case ROwn => case RClear => case RCopy => case RSignal => }
    case ReplyEntry(_) => match l.pc.pe { case PInc => case PWait => case PCheck => case POwner => case PCas => }
    case Answering(_) =>
    case Leaving =>
    case Releasing(_) =>
  }

  lemma WaitsCheck(c: Chan, t: ThreadId, l: Local)
    requires Waiting(l.pc)
    ensures Statement(c, t, l).local.pc == AfterWait(l.pc) && !Statement(c, t, l).local.aborted
  {
  }

  lemma AbortedMeans(states: seq<State>, actions: seq<Action>, i: nat, t: ThreadId)
    requires IsRun(states, actions) && i < |states| && Checks(At(states[i], t).pc)
    ensures At(states[i], t).aborted <==> LastAborted(actions, i, t)
  {
    var k := PreviousMove(states, actions, i, t);
    var s, mv := states[k], actions[k].move;
    assert StepOf(s, actions[k], states[k + 1]);
    if mv.Proceed? {
      if Waiting(At(s, t).pc) {
        WaitsCheck(s.chan, t, At(s, t));
      } else {
        OthersDoNotCheck(s.chan, t, At(s, t));
      }
    }
    assert At(states[i], t).aborted <==> mv.Abort?;
    if mv.Abort? {
      assert actions[k] == Action(t, Abort);
    }
  }

  /** The tests behind the waits: a sender, receiver or replier that has not begun its transfer leaves
      exactly if the wait was aborted or a release has begun, and returns 0; a sender that waited for its
      reply notes success exactly if neither is the case. */
  lemma ChecksSeeBreakOff(states: seq<State>, actions: seq<Action>, i: nat, t: ThreadId)
    requires IsRun(states, actions) && i < |actions| && actions[i] == Action(t, Proceed) && Checks(At(states[i], t).pc)
    ensures var l, l' := At(states[i], t), At(states[i + 1], t);
      if l.pc.Collecting? then l'.succs <==> !BrokenOff(states, actions, i, t)
      else (l'.pc.Leaving? <==> BrokenOff(states, actions, i, t)) && !l'.succs
  {
    assert StepOf(states[i], actions[i], states[i + 1]);
    ReleasedMeans(states, actions, i);
    AbortedMeans(states, actions, i, t);
    ReturnsInRuns(AnyRun, states, actions, i);
    assert ReturnClaim(AnyRun, states[i].chan.hist, t, At(states[i], t));
  }

  /** The event that wakes a thread up for this test. */
  predicate WakesFor(c: Chan, check: Pc) {
    match check
    case SendEntry(_) => c.sendEvent
    case RecvEntry(_) => c.recvEvent
    case ReplyEntry(_) => c.rcvdEvent
    case _ => c.replEvent
  }

  /** Whoever tests was woken by its own event, or its wait was aborted: a sender by send_event, and then by
      repl_event, a receiver by recv_event and a replier by rcvd_event. */
  lemma WokenByItsEvent(states: seq<State>, actions: seq<Action>, i: nat, t: ThreadId) returns (w: nat)
    requires IsRun(states, actions) && i < |states| && Checks(At(states[i], t).pc)
    ensures w < i && actions[w].thread == t && Waiting(At(states[w], t).pc) && forall k :: w < k < i ==> actions[k].thread != t
    ensures actions[w].move.Abort? || WakesFor(states[w].chan, At(states[i], t).pc)
  {
    w := PreviousMove(states, actions, i, t);
    assert StepOf(states[w], actions[w], states[w + 1]);
    if actions[w].move.Proceed? {
      if Waiting(At(states[w], t).pc) {
        WaitsCheck(states[w].chan, t, At(states[w], t));
      } else {
        OthersDoNotCheck(states[w].chan, t, At(states[w], t));
      }
    }
  }

  // ----------------------------------------------------------------------------------------------
  // What every call returns

  /** A sender behind its status test. */
  predicate Tested(l: Local) {
    l.won && (l.pc.Leaving? || l.pc.Announcing? || (l.pc.Collecting? && !l.pc.sc.SStatus?))
  }

  /** Where a call that is about to return was decided. */
  predicate Decides(c: Chan, l: Local, l': Local) {
    match l.pc
    case SendEntry(SCheck) => l'.role.Sender? && !l'.succs
    case SendEntry(SCas) => l'.role.Sender? && !l'.succs && !c.word.Null?
    case Collecting(SStatus) => l'.role.Sender?
    case RecvEntry(RCheck) => l'.role.Receiver? && !l'.succs
    case Taking(RSignal) => l'.role.Receiver? && l'.succs
    case ReplyEntry(PCheck) => l'.role.Replier? && !l'.succs
    case Answering(PSignal) => l'.role.Replier? && l'.succs
    case _ => false
  }

  lemma TestedStep(c: Chan, t: ThreadId, l: Local)
    requires RoleClaim(l) && !l.pc.Idle? && Tested(Statement(c, t, l).local)
    ensures l.pc == Collecting(SStatus) || (Tested(l) && Statement(c, t, l).local.succs == l.succs)
  {
    match l.pc
    case SendEntry(_) =>
    case Offering(_) => match l.pc.so { case SClear => case SCopy => case SSignal => case SAwait => }
    case Collecting(_) => match l.pc.sc { case SStatus => case STake => case SClearRepl => case SDisown => case SReset => }
    case Announcing =>
    case RecvEntry(_) =>
    case Taking(_) =>
    case ReplyEntry(_) =>
    case Answering(_) =>
    case Leaving =>
    case Releasing(_) =>
  }

  lemma LeavingStep(c: Chan, t: ThreadId, l: Local)
    requires RoleClaim(l) && !l.pc.Idle? && Statement(c, t, l).local.pc.Leaving? && !Statement(c, t, l).local.won
    ensures Decides(c, l, Statement(c, t, l).local) && !l.pc.Collecting?
  {
    match l.pc
    case SendEntry(_) => match l.pc.se { case SInc => case SWait => case SCheck => case SCas => }
    case Offering(_) =>
    case Collecting(_) =>
    case Announcing =>
    case RecvEntry(_) => match l.pc.re { case RInc => case RWait => case RCheck => case RCas => }
    case Taking(_) => match l.pc.rt { case ROwn => case RClear => case RCopy => case RSignal => }
    case ReplyEntry(_) => match l.pc.pe { case PInc => case PWait => case PCheck => case POwner => case PCas => }
    case Answering(_) => match l.pc.pa { case PClear => case PCopy => case PSignal => }
    case Leaving =>
    case Releasing(_) =>
  }

  /** The statement that made t's registers what they are, and the claims it started from. */
  lemma MadeBy(states: seq<State>, actions: seq<Action>, i: nat, t: ThreadId) returns (k: nat)
    requires IsRun(states, actions) && i < |states| && (At(states[i], t).pc.Leaving? || Tested(At(states[i], t)))
    ensures k < i && actions[k] == Action(t, Proceed) && !At(states[k], t).pc.Idle?
    ensures At(states[i], t) == Statement(states[k].chan, t, At(states[k], t)).local
    ensures RoleClaim(At(states[k], t))
    ensures forall j :: k < j <= i ==> At(states[j], t) == At(states[i], t)
  {
    k := PreviousMove(states, actions, i, t);
    assert StepOf(states[k], actions[k], states[k + 1]);
    ReturnsInRuns(AnyRun, states, actions, k);
    assert ReturnClaim(AnyRun, states[k].chan.hist, t, At(states[k], t));
  }

  lemma {:induction false} StatusTest(states: seq<State>, actions: seq<Action>, i: nat, t: ThreadId) returns (k: nat)
    requires IsRun(states, actions) && i < |states| && Tested(At(states[i], t))
    ensures k < i && actions[k] == Action(t, Proceed) && At(states[k], t).pc == Collecting(SStatus)
    ensures At(states[k + 1], t).succs == At(states[i], t).succs
    ensures forall j :: k < j <= i ==> !At(states[j], t).pc.Idle?
  {
    k := MadeBy(states, actions, i, t);
    TestedStep(states[k].chan, t, At(states[k], t));
    if At(states[k], t).pc != Collecting(SStatus) {
      var here := k;
      k := StatusTest(states, actions, here, t);
    }
  }

  /** Every call that returns was decided by one of its statements.  It returned 0 because its wait was
      aborted or a release had begun, or, for a sender, because it lost the race for the word; otherwise it
      returned 1, and then its message and its reply are in the history under its own number. */
  lemma CallsReturn(states: seq<State>, actions: seq<Action>, i: nat, t: ThreadId) returns (k: nat)
    requires IsRun(states, actions) && i < |states| && At(states[i], t).pc.Leaving?
    ensures k < i && actions[k] == Action(t, Proceed) && Decides(states[k].chan, At(states[k], t), At(states[i], t))
    ensures forall j :: k < j <= i ==> !At(states[j], t).pc.Idle?
    ensures At(states[i], t).succs ==> !Checks(At(states[k], t).pc) || !BrokenOff(states, actions, k, t)
    ensures !At(states[i], t).succs ==> At(states[k], t).pc == SendEntry(SCas) || BrokenOff(states, actions, k, t)
    ensures var l, h := At(states[i], t), states[i].chan.hist;
      && (l.won ==> OwnReply(h, t, l))
      && (l.role.Receiver? && l.succs ==> l.slot < |h.delivered| && h.delivered[l.slot] == l.out)
      && (l.role.Replier? && l.succs ==> l.slot < |h.replies| && h.replies[l.slot] == l.arg)
  {
    var l := At(states[i], t);
    ReturnsInRuns(AnyRun, states, actions, i);
    assert ReturnClaim(AnyRun, states[i].chan.hist, t, l);
    if l.won {
      k := StatusTest(states, actions, i, t);
    } else {
      k := MadeBy(states, actions, i, t);
      LeavingStep(states[k].chan, t, At(states[k], t));
    }
    if Checks(At(states[k], t).pc) {
      ChecksSeeBreakOff(states, actions, k, t);
    }
  }

  // ----------------------------------------------------------------------------------------------
  // What a release wakes

  /** The statements that clear an event. */
  predicate Clears(pc: Pc) {
    pc == Offering(SClear) || pc == Collecting(SClearRepl) || pc == Taking(RClear) || pc == Answering(PClear)
  }

  predicate ClearsAt(s: State, a: Action) {
    a.move.Proceed? && Clears(At(s, a.thread).pc)
  }

  /** Events that are set stay set. */
  predicate EventsStay(c: Chan, c': Chan) {
    && (c.sendEvent ==> c'.sendEvent) && (c.recvEvent ==> c'.recvEvent)
    && (c.rcvdEvent ==> c'.rcvdEvent) && (c.replEvent ==> c'.replEvent)
  }

  lemma SendersClear(c: Chan, t: ThreadId, l: Local)
    requires (l.pc.SendEntry? || l.pc.Offering? || l.pc.Collecting? || l.pc.Announcing?) && !Clears(l.pc)
    ensures EventsStay(c, Statement(c, t, l).chan)
  {
    match l.pc
    case SendEntry(_) => match l.pc.se { case SInc => case SWait => case SCheck => case SCas => }
    case Offering(_) => match l.pc.so { case SCopy => case SSignal => case SAwait => case _ => }
    case Collecting(_) => match l.pc.sc { case SStatus => case STake => case SDisown => case SReset => case _ => }
    case Announcing =>
  }

  lemma ReceiversClear(c: Chan, t: ThreadId, l: Local)
    requires (l.pc.RecvEntry? || l.pc.Taking? || l.pc.ReplyEntry? || l.pc.Answering?) && !Clears(l.pc)
    ensures EventsStay(c, Statement(c, t, l).chan)
  {
    match l.pc
    case RecvEntry(_) => match l.pc.re { case RInc => case RWait => case RCheck => case RCas => }
    case Taking(_) => match l.pc.rt { case ROwn => case RCopy => case RSignal => case _ => }
    case ReplyEntry(_) => match l.pc.pe { case PInc => case PWait => case PCheck => case POwner => case PCas => }
    case Answering(_) => match l.pc.pa { case PCopy => case PSignal => case _ => }
  }

  lemma OnlyClearsClear(c: Chan, t: ThreadId, l: Local)
    requires !l.pc.Idle? && !Clears(l.pc)
    ensures EventsStay(c, Statement(c, t, l).chan)
  {
    hide SendEntryStep, OfferStep, CollectStep, RecvEntryStep, TakeStep, ReplyEntryStep, AnswerStep, Clears;
    match l.pc
    case SendEntry(_) => SendersClear(c, t, l);
    case Offering(_) => SendersClear(c, t, l);
    case Collecting(_) => SendersClear(c, t, l);
    case Announcing => SendersClear(c, t, l);
    case Leaving =>
    case Releasing(_) => match l.pc.x { case XFlag => case XSend => case XRecv => case XRcvd => case XRepl => }
    case _ => ReceiversClear(c, t, l);
  }

  /** How far a releasing thread has got. */
  predicate SetSoFar(c: Chan, pc: Pc) {
    && (pc == Releasing(XRecv) || pc == Releasing(XRcvd) || pc == Releasing(XRepl) ==> c.sendEvent)
    && (pc == Releasing(XRcvd) || pc == Releasing(XRepl) ==> c.recvEvent)
    && (pc == Releasing(XRepl) ==> c.rcvdEvent)
  }

  predicate AllSet(c: Chan) {
    c.sendEvent && c.recvEvent && c.rcvdEvent && c.replEvent
  }

  lemma ReleaserAdvances(c: Chan, t: ThreadId, l: Local)
    requires l.pc.Releasing? && SetSoFar(c, l.pc)
    ensures var r := Statement(c, t, l); SetSoFar(r.chan, r.local.pc)
    ensures l.pc == Releasing(XRepl) ==> AllSet(Statement(c, t, l).chan)
  {
    match l.pc.x case XFlag => case XSend => case XRecv => case XRcvd => case XRepl =>
  }

  lemma OthersDoNotRelease(c: Chan, t: ThreadId, l: Local)
    requires !l.pc.Idle? && !l.pc.Releasing?
    ensures !Statement(c, t, l).local.pc.Releasing?
  {
    match l.pc
    case SendEntry(_) => match l.pc.se { case SInc => case SWait => case SCheck => case SCas => }
    case Offering(_) => match l.pc.so { case SClear => case SCopy => case SSignal => case SAwait => }
    case Collecting(_) => match l.pc.sc { case SStatus => case STake => case SClearRepl => case SDisown => case SReset => }
    case Announcing =>
    case RecvEntry(_) => match l.pc.re { case RInc => case RWait => case RCheck => case RCas => }
    case Taking(_) => match l.pc.rt { case ROwn => case RClear => case RCopy => case RSignal => }
    case ReplyEntry(_) => match l.pc.pe { case PInc => case PWait => case PCheck => case POwner => case PCas => }
    case Answering(_) => match l.pc.pa { case PClear => case PCopy => case PSignal => }
    case Leaving =>
  }

  /** One step of a run without clearing statements, as t and the events see it. */
  lemma ReleaseStep(states: seq<State>, actions: seq<Action>, j: nat, t: ThreadId)
    requires IsRun(states, actions) && j < |actions| && !ClearsAt(states[j], actions[j])
    ensures EventsStay(states[j].chan, states[j + 1].chan)
    ensures SetSoFar(states[j].chan, At(states[j], t).pc) ==> SetSoFar(states[j + 1].chan, At(states[j + 1], t).pc)
    ensures SetSoFar(states[j].chan, At(states[j], t).pc) && actions[j] == Action(t, Proceed) && At(states[j], t).pc == Releasing(XRepl) ==>
      AllSet(states[j + 1].chan)
  {
    var s, a := states[j], actions[j];
    assert StepOf(s, a, states[j + 1]);
    if a.move.Proceed? {
      OnlyClearsClear(s.chan, a.thread, At(s, a.thread));
      if a.thread == t && At(s, t).pc.Releasing? && SetSoFar(s.chan, At(s, t).pc) {
        ReleaserAdvances(s.chan, t, At(s, t));
      } else if !At(s, a.thread).pc.Releasing? {
        OthersDoNotRelease(s.chan, a.thread, At(s, a.thread));
      }
    }
  }

  lemma RunLength(states: seq<State>, actions: seq<Action>)
    requires IsRun(states, actions)
    ensures |states| == |actions| + 1
  {
  }

  lemma {:induction false} ReleaserProgress(states: seq<State>, actions: seq<Action>, b: nat, i: nat, t: ThreadId)
    requires IsRun(states, actions) && b < i < |states|
    requires actions[b] == Action(t, Proceed) && At(states[b], t).pc == Releasing(XFlag)
    requires forall k :: b <= k < i ==> !ClearsAt(states[k], actions[k])
    ensures SetSoFar(states[i].chan, At(states[i], t).pc)
  {
    hide IsRun, ClearsAt, SetSoFar, EventsStay;
    RunLength(states, actions);
    if i - 1 > b {
      ReleaserProgress(states, actions, b, i - 1, t);
    } else {
      BeginsReleased(states[b].chan);
    }
    assert !ClearsAt(states[i - 1], actions[i - 1]);
    ReleaseStep(states, actions, i - 1, t);
  }

  lemma BeginsReleased(c: Chan)
    ensures SetSoFar(c, Releasing(XFlag))
  {
  }

  lemma {:induction false} EventsLast(states: seq<State>, actions: seq<Action>, e: nat, i: nat)
    requires IsRun(states, actions) && e <= i < |states| && AllSet(states[e].chan)
    requires forall k :: e <= k < i ==> !ClearsAt(states[k], actions[k])
    ensures AllSet(states[i].chan)
  {
    hide IsRun, ClearsAt;
    RunLength(states, actions);
    if i > e {
      EventsLast(states, actions, e, i - 1);
      assert !ClearsAt(states[i - 1], actions[i - 1]);
      ReleaseStep(states, actions, i - 1, 0);
    }
  }

  /** Once t has gone through channel_release, every thread that waits can move, unless some thread has
      cleared an event since the release began. */
  lemma ReleaseWakes(states: seq<State>, actions: seq<Action>, b: nat, e: nat, i: nat, t: ThreadId, u: ThreadId)
    requires IsRun(states, actions) && b < e < i < |states|
    requires actions[b] == Action(t, Proceed) && At(states[b], t).pc == Releasing(XFlag)
    requires actions[e] == Action(t, Proceed) && At(states[e], t).pc == Releasing(XRepl)
    requires forall k :: b <= k < i ==> !ClearsAt(states[k], actions[k])
    ensures ReleaseBegun(states, actions, i)
    ensures Waiting(At(states[i], u).pc) ==> Enabled(states[i].chan, At(states[i], u).pc, Proceed)
  {
    ReleaserProgress(states, actions, b, e, t);
    ReleaseStep(states, actions, e, t);
    EventsLast(states, actions, e + 1, i);
  }
}
