/** What a call of channel_send_recv, channel_recv or channel_send has returned: the value of `succs`, and the
    bytes in the caller's buffer. */
module ChannelReturns {
  import opened Channel
  import opened ChannelInvariant
  import opened Rendezvous

  /** The call has copied its reply out. */
  predicate Collected(l: Local) {
    l.won && (l.pc.Announcing? || l.pc.Leaving? || l.pc.Idle? || (l.pc.Collecting? && !l.pc.sc.SStatus? && !l.pc.sc.STake?))
  }

  /** The transaction the call won is its own: it offered the message, and got that slot's reply. */
  predicate OwnReply(h: History, u: ThreadId, l: Local) {
    && l.slot < |h.offers| && h.offers[l.slot] == Offer(u, l.arg)
    && l.slot < |h.results| && h.results[l.slot] == Outcome(u, l.out)
  }

  /** In any run: which operation a thread is in, and what it can have returned. */
  predicate RoleClaim(l: Local) {
    && (l.pc.SendEntry? ==> l.role.Sender? && !l.won && !l.succs)
    && (InTransaction(l.pc) || l.pc.Announcing? ==> l.role.Sender? && l.won)
    && (l.pc.Offering? || (l.pc.Collecting? && l.pc.sc.SStatus?) ==> !l.succs)
    && (l.won ==> l.role.Sender?)
    && (l.role.Sender? && l.succs ==> l.won)
    && (l.pc.RecvEntry? || l.pc.Taking? ==> l.role.Receiver? && !l.succs)
    && (l.pc.ReplyEntry? || l.pc.Answering? ==> l.role.Replier? && !l.succs)
    && (l.pc.Releasing? ==> l.role.Releaser?)
    && (l.pc.Leaving? ==> l.role.Sender? || l.role.Receiver? || l.role.Replier?)
  }

  /** What the registers hold of the history. */
  predicate RecordClaim(h: History, u: ThreadId, l: Local) {
    && (Collected(l) ==> OwnReply(h, u, l))
    && (l.role.Receiver? && ((l.pc.Taking? && l.pc.rt.RSignal?) || l.succs) ==>
          l.slot < |h.delivered| && h.delivered[l.slot] == l.out)
    && (l.role.Replier? && ((l.pc.Answering? && l.pc.pa.PSignal?) || l.succs) ==>
          l.slot < |h.replies| && h.replies[l.slot] == l.arg)
  }

  predicate AnyReturn(h: History, u: ThreadId, l: Local) {
    RoleClaim(l) && RecordClaim(h, u, l)
  }

  /** Without aborted waits and release: calls fail only by losing the race for the word. */
  predicate CalmReturn(l: Local) {
    && (l.won && l.pc.Collecting? && !l.pc.sc.SStatus? ==> l.succs)
    && (Collected(l) ==> l.succs)
    && (l.role.Sender? && (l.pc.Leaving? || l.pc.Idle?) ==> (l.succs <==> l.won))
    && ((l.role.Receiver? || l.role.Replier?) && (l.pc.Leaving? || l.pc.Idle?) ==> l.succs)
  }

  predicate ReturnClaim(m: Mode, h: History, u: ThreadId, l: Local) {
    AnyReturn(h, u, l) && (!m.AnyRun? ==> CalmReturn(l))
  }

  ghost predicate Returns(m: Mode, s: State) {
    forall u :: ReturnClaim(m, s.chan.hist, u, At(s, u))
  }

  predicate AnyPremises(c: Chan, t: ThreadId, l: Local) {
    AnyShared(c) && AnyClaim(c, t, l) && AnyReturn(c.hist, t, l)
  }

  lemma RoleKeeps(c: Chan, t: ThreadId, l: Local)
    requires RoleClaim(l) && !l.pc.Idle?
    ensures RoleClaim(Statement(c, t, l).local)
  {
    match l.pc
    case SendEntry(_) => match l.pc.se { case SInc => case SWait => case SCheck => case SCas => }
    case Offering(_) => match l.pc.so { case SClear => case SCopy => case SSignal => case SAwait => }
    case Collecting(_) => match l.pc.sc { case SStatus => case STake => case SClearRepl => case SDisown => case SReset => }
    case Announcing =>
    case RecvEntry(_) => match l.pc.re { case RInc => case RWait => case RCheck => case RCas => }
    case Taking(_) => match l.pc.rt { case ROwn => case RClear => case RCopy => case RSignal => }
    case ReplyEntry(_) => match l.pc.pe { case PInc => case PWait => case PCheck => case POwner => case PCas => }
    case Answering(_) => match l.pc.pa { case PClear => case PCopy => case PSignal => }
    case Leaving =>
    case Releasing(_) => match l.pc.x { case XFlag => case XSend => case XRecv => case XRcvd => case XRepl => }
  }

  lemma SendEntryReturns(c: Chan, t: ThreadId, l: Local)
    requires AnyPremises(c, t, l) && l.pc.SendEntry?
    ensures var r := SendEntryStep(c, t, l); RecordClaim(r.chan.hist, t, r.local)
  {
    hide AnyShared, AnyClaim;
    match l.pc.se case SInc => case SWait => case SCheck => case SCas =>
  }

  lemma OfferingReturns(c: Chan, t: ThreadId, l: Local)
    requires AnyPremises(c, t, l) && l.pc.Offering?
    ensures var r := OfferStep(c, l); RecordClaim(r.chan.hist, t, r.local)
  {
    hide AnyShared, AnyClaim;
    match l.pc.so case SClear => case SCopy => case SSignal => case SAwait =>
  }

  lemma TakeReplyReturns(c: Chan, t: ThreadId, l: Local)
    requires AnyPremises(c, t, l) && l.pc == Collecting(STake)
    ensures var r := CollectStep(c, t, l); RecordClaim(r.chan.hist, t, r.local)
  {
  }

  lemma CollectingReturns(c: Chan, t: ThreadId, l: Local)
    requires AnyPremises(c, t, l) && l.pc.Collecting?
    ensures var r := CollectStep(c, t, l); RecordClaim(r.chan.hist, t, r.local)
  {
    hide AnyShared, AnyClaim;
    match l.pc.sc case SStatus => case STake => TakeReplyReturns(c, t, l); case SClearRepl => case SDisown => case SReset =>
  }

  lemma RecvEntryReturns(c: Chan, t: ThreadId, l: Local)
    requires AnyPremises(c, t, l) && l.pc.RecvEntry?
    ensures var r := RecvEntryStep(c, t, l); RecordClaim(r.chan.hist, t, r.local)
  {
    hide AnyShared, AnyClaim;
    match l.pc.re case RInc => case RWait => case RCheck => case RCas =>
  }

  lemma TakingReturns(c: Chan, t: ThreadId, l: Local)
    requires AnyPremises(c, t, l) && l.pc.Taking?
    ensures var r := TakeStep(c, t, l); RecordClaim(r.chan.hist, t, r.local)
  {
    hide AnyShared, AnyClaim;
    match l.pc.rt case ROwn => case RClear => case RCopy => case RSignal =>
  }

  lemma ReplyEntryReturns(c: Chan, t: ThreadId, l: Local)
    requires AnyPremises(c, t, l) && l.pc.ReplyEntry?
    ensures var r := ReplyEntryStep(c, t, l); RecordClaim(r.chan.hist, t, r.local)
  {
    hide AnyShared, AnyClaim;
    match l.pc.pe case PInc => case PWait => case PCheck => case POwner => case PCas =>
  }

  lemma AnsweringReturns(c: Chan, t: ThreadId, l: Local)
    requires AnyPremises(c, t, l) && l.pc.Answering?
    ensures var r := AnswerStep(c, l); RecordClaim(r.chan.hist, t, r.local)
  {
    hide AnyShared, AnyClaim;
    match l.pc.pa case PClear => case PCopy => case PSignal =>
  }

  lemma QuietReturns(c: Chan, t: ThreadId, l: Local)
    requires AnyPremises(c, t, l) && (l.pc.Announcing? || l.pc.Leaving? || l.pc.Releasing?)
    ensures var r := Statement(c, t, l); RecordClaim(r.chan.hist, t, r.local)
  {
    hide AnyShared, AnyClaim;
    if l.pc.Releasing? {
      match l.pc.x case XFlag => case XSend => case XRecv => case XRcvd => case XRepl =>
    }
  }

  lemma StatementReturns(c: Chan, t: ThreadId, l: Local)
    requires AnyPremises(c, t, l) && !l.pc.Idle?
    ensures var r := Statement(c, t, l); RecordClaim(r.chan.hist, t, r.local)
  {
    hide AnyPremises, RecordClaim, SendEntryStep, OfferStep, CollectStep, RecvEntryStep, TakeStep, ReplyEntryStep, AnswerStep;
    match l.pc
    case SendEntry(_) => SendEntryReturns(c, t, l);
    case Offering(_) => OfferingReturns(c, t, l);
    case Collecting(_) => CollectingReturns(c, t, l);
    case Announcing => QuietReturns(c, t, l);
    case RecvEntry(_) => RecvEntryReturns(c, t, l);
    case Taking(_) => TakingReturns(c, t, l);
    case ReplyEntry(_) => ReplyEntryReturns(c, t, l);
    case Answering(_) => AnsweringReturns(c, t, l);
    case Leaving => QuietReturns(c, t, l);
    case Releasing(_) => QuietReturns(c, t, l);
  }

  lemma AbortReturns(c: Chan, t: ThreadId, l: Local)
    requires AnyPremises(c, t, l) && Waiting(l.pc)
    ensures AnyReturn(c.hist, t, l.(pc := AfterWait(l.pc), aborted := true))
  {
  }

  lemma CallReturns(h: History, t: ThreadId, op: Operation)
    ensures AnyReturn(h, t, Begin(op)) && CalmReturn(Begin(op))
  {
  }

  lemma CalmKeeps(c: Chan, t: ThreadId, l: Local)
    requires RoleClaim(l) && CalmReturn(l) && !c.released && !l.aborted && !l.pc.Idle? && !l.pc.Releasing?
    ensures CalmReturn(Statement(c, t, l).local)
  {
    match l.pc
    case SendEntry(_) => match l.pc.se { case SInc => case SWait => case SCheck => case SCas => }
    case Offering(_) => match l.pc.so { case SClear => case SCopy => case SSignal => case SAwait => }
    case Collecting(_) => match l.pc.sc { case SStatus => case STake => case SClearRepl => case SDisown => case SReset => }
    case Announcing =>
    case RecvEntry(_) => match l.pc.re { case RInc => case RWait => case RCheck => case RCas => }
    case Taking(_) => match l.pc.rt { case ROwn => case RClear => case RCopy => case RSignal => }
    case ReplyEntry(_) => match l.pc.pe { case PInc => case PWait => case PCheck => case POwner => case PCas => }
    case Answering(_) => match l.pc.pa { case PClear => case PCopy => case PSignal => }
    case Leaving =>
  }

  /** A longer history keeps what earlier calls returned. */
  lemma HistoryGrows(m: Mode, h: History, e: Event, u: ThreadId, l: Local)
    requires ReturnClaim(m, h, u, l)
    ensures ReturnClaim(m, Recorded(h, e), u, l)
  {
  }

  lemma StepKeepsReturns(m: Mode, s: State, t: ThreadId, mv: Move)
    requires Inv(m, s) && Returns(m, s) && Ready(s, t, mv) && Allowed(m, t, mv)
    ensures Returns(m, Step(s, t, mv))
  {
    var s', l := Step(s, t, mv), At(s, t);
    StepRecords(s.chan, t, l, mv);
    assert Claim(m, s.chan, t, l) && ReturnClaim(m, s.chan.hist, t, l);
    forall u ensures ReturnClaim(m, s'.chan.hist, u, At(s', u)) {
      if u != t {
        HistoryGrows(m, s.chan.hist, Shown(s.chan, t, l, mv), u, At(s, u));
      } else if mv.Proceed? {
        RoleKeeps(s.chan, t, l);
        StatementReturns(s.chan, t, l);
        if !m.AnyRun? {
          CalmKeeps(s.chan, t, l);
        }
      } else if mv.Abort? {
        AbortReturns(s.chan, t, l);
      } else {
        CallReturns(s.chan.hist, t, mv.op);
      }
    }
  }

  lemma {:induction false} ReturnsInRuns(m: Mode, states: seq<State>, actions: seq<Action>, i: nat)
    requires IsRun(states, actions) && AllowedRun(m, actions) && i < |states|
    ensures Returns(m, states[i])
  {
    if i > 0 {
      ReturnsInRuns(m, states, actions, i - 1);
      InvInRuns(m, states, actions, i - 1);
      assert StepOf(states[i - 1], actions[i - 1], states[i]);
      StepKeepsReturns(m, states[i - 1], actions[i - 1].thread, actions[i - 1].move);
    }
  }
}
