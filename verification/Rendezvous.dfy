/** With one receiving thread, no aborted wait and no release, the channel is an atomic
    request/reply server: the statements of all threads refine it, message for message. */
module Rendezvous {
  import opened Words
  import opened Channel
  import opened ChannelInvariant

  // ----------------------------------------------------------------------------------------------
  // The server

  datatype Exchange = Exchange(sender: ThreadId, msg: Bytes, reply: Bytes)

  datatype Phase =
    | Free
    | Offered(sender: ThreadId, msg: Bytes)
    | Delivered(sender: ThreadId, msg: Bytes)
    | Answered(sender: ThreadId, msg: Bytes, reply: Bytes)

  /** One request at a time, and the exchanges completed so far. */
  datatype Server = Server(phase: Phase, log: seq<Exchange>)

  /** What an observer of the two ends sees: a sender hands in a message, the receiver is handed one,
      the receiver hands in a reply, a sender is handed one. */
  datatype Event = Silent | Submit(t: ThreadId, msg: Bytes) | Deliver(msg: Bytes) | Answer(reply: Bytes) | Return(t: ThreadId, reply: Bytes)

  predicate Next(a: Server, e: Event, b: Server) {
    match e
    case Silent => b == a
    case Submit(t, m) => a.phase.Free? && b == a.(phase := Offered(t, m))
    case Deliver(m) => a.phase.Offered? && m == a.phase.msg && b == a.(phase := Delivered(a.phase.sender, m))
    case Answer(v) => a.phase.Delivered? && b == a.(phase := Answered(a.phase.sender, a.phase.msg, v))
    case Return(t, v) =>
      && a.phase.Answered? && t == a.phase.sender && v == a.phase.reply
      && b == Server(Free, a.log + [Exchange(t, a.phase.msg, v)])
  }

  // ----------------------------------------------------------------------------------------------
  // The channel seen as that server

  /** What a statement shows: the bytes are the ones it really copies. */
  function Shown(c: Chan, t: ThreadId, l: Local, mv: Move): Event {
    if !mv.Proceed? then Silent
    else match l.pc
      case SendEntry(SCas) => if c.word.Null? then Submit(t, l.arg) else Silent
      case Taking(RCopy) => Deliver(c.request)
      case Answering(PCopy) => Answer(l.arg)
      case Collecting(STake) => Return(t, c.reply)
      case _ => Silent
  }

  /** Each stage of a transaction is counted after the one before it, and at most one is open. */
  predicate Counted(h: History) {
    |h.results| <= |h.replies| <= |h.delivered| <= |h.offers| <= |h.results| + 1
  }

  /** Receivers were given the winners' messages in order; each winner was given its own reply. */
  predicate Agrees(h: History) {
    && Counted(h)
    && (forall i :: 0 <= i < |h.delivered| ==> h.delivered[i] == h.offers[i].msg)
    && (forall i :: 0 <= i < |h.results| ==> h.results[i] == Outcome(h.offers[i].sender, h.replies[i]))
  }

  function PhaseOf(h: History): Phase
    requires Counted(h)
  {
    if |h.results| == |h.offers| then Free
    else
      var o := h.offers[|h.offers| - 1];
      if |h.delivered| < |h.offers| then Offered(o.sender, o.msg)
      else if |h.replies| < |h.offers| then Delivered(o.sender, o.msg)
      else Answered(o.sender, o.msg, h.replies[|h.replies| - 1])
  }

  function Abstract(h: History): Server
    requires Counted(h)
  {
    Server(PhaseOf(h), seq(|h.results|, i requires 0 <= i < |h.results| => Exchange(h.offers[i].sender, h.offers[i].msg, h.replies[i])))
  }

  lemma SharedIsCounted(r: ThreadId, c: Chan)
    requires Shared(SoleReceiver(r), c)
    ensures Counted(c.hist)
  {
  }

  /** The history after a statement that shows event e. */
  function Recorded(h: History, e: Event): History {
    match e
    case Silent => h
    case Submit(t, m) => h.(offers := h.offers + [Offer(t, m)])
    case Deliver(m) => h.(delivered := h.delivered + [m])
    case Answer(v) => h.(replies := h.replies + [v])
    case Return(t, v) => h.(results := h.results + [Outcome(t, v)])
  }

  lemma SendEntryRecords(c: Chan, t: ThreadId, l: Local)
    requires l.pc.SendEntry?
    ensures SendEntryStep(c, t, l).chan.hist == Recorded(c.hist, Shown(c, t, l, Proceed))
  {
    match l.pc.se case SInc => case SWait => case SCheck => case SCas =>
  }

  lemma OfferingRecords(c: Chan, t: ThreadId, l: Local)
    requires l.pc.Offering?
    ensures OfferStep(c, l).chan.hist == Recorded(c.hist, Shown(c, t, l, Proceed))
  {
    match l.pc.so case SClear => case SCopy => case SSignal => case SAwait =>
  }

  lemma CollectingRecords(c: Chan, t: ThreadId, l: Local)
    requires l.pc.Collecting?
    ensures CollectStep(c, t, l).chan.hist == Recorded(c.hist, Shown(c, t, l, Proceed))
  {
    match l.pc.sc case SStatus => case STake => case SClearRepl => case SDisown => case SReset =>
  }

  lemma RecvEntryRecords(c: Chan, t: ThreadId, l: Local)
    requires l.pc.RecvEntry?
    ensures RecvEntryStep(c, t, l).chan.hist == Recorded(c.hist, Shown(c, t, l, Proceed))
  {
    match l.pc.re case RInc => case RWait => case RCheck => case RCas =>
  }

  lemma TakingRecords(c: Chan, t: ThreadId, l: Local)
    requires l.pc.Taking?
    ensures TakeStep(c, t, l).chan.hist == Recorded(c.hist, Shown(c, t, l, Proceed))
  {
    match l.pc.rt case ROwn => case RClear => case RCopy => case RSignal =>
  }

  lemma ReplyEntryRecords(c: Chan, t: ThreadId, l: Local)
    requires l.pc.ReplyEntry?
    ensures ReplyEntryStep(c, t, l).chan.hist == Recorded(c.hist, Shown(c, t, l, Proceed))
  {
    match l.pc.pe case PInc => case PWait => case PCheck => case POwner => case PCas =>
  }

  lemma AnsweringRecords(c: Chan, t: ThreadId, l: Local)
    requires l.pc.Answering?
    ensures AnswerStep(c, l).chan.hist == Recorded(c.hist, Shown(c, t, l, Proceed))
  {
    match l.pc.pa case PClear => case PCopy => case PSignal =>
  }

  lemma ReleasingRecords(c: Chan, t: ThreadId, l: Local)
    requires l.pc.Releasing?
    ensures ReleaseStep(c, l).chan.hist == Recorded(c.hist, Shown(c, t, l, Proceed))
  {
    match l.pc.x case XFlag => case XSend => case XRecv => case XRcvd => case XRepl =>
  }

  lemma StepRecords(c: Chan, t: ThreadId, l: Local, mv: Move)
    requires Enabled(c, l.pc, mv)
    ensures LocalStep(c, t, l, mv).chan.hist == Recorded(c.hist, Shown(c, t, l, mv))
  {
    if mv.Proceed? {
      match l.pc
      case SendEntry(_) => SendEntryRecords(c, t, l);
      case Offering(_) => OfferingRecords(c, t, l);
      case Collecting(_) => CollectingRecords(c, t, l);
      case Announcing =>
      case RecvEntry(_) => RecvEntryRecords(c, t, l);
      case Taking(_) => TakingRecords(c, t, l);
      case ReplyEntry(_) => ReplyEntryRecords(c, t, l);
      case Answering(_) => AnsweringRecords(c, t, l);
      case Leaving =>
      case Releasing(_) => ReleasingRecords(c, t, l);
    }
  }

  // ----------------------------------------------------------------------------------------------
  // Refinement

  predicate Premises(r: ThreadId, c: Chan, t: ThreadId, l: Local) {
    Shared(SoleReceiver(r), c) && Claim(SoleReceiver(r), c, t, l)
  }

  lemma SubmitRefines(r: ThreadId, c: Chan, t: ThreadId, l: Local)
    requires Premises(r, c, t, l) && l.pc == SendEntry(SCas) && c.word.Null?
    ensures var e := Submit(t, l.arg);
            var h := Recorded(c.hist, e);
            Counted(c.hist) && Counted(h) && Next(Abstract(c.hist), e, Abstract(h))
  {
    assert Abstract(Recorded(c.hist, Submit(t, l.arg))).log == Abstract(c.hist).log;
  }

  lemma DeliverRefines(r: ThreadId, c: Chan, t: ThreadId, l: Local)
    requires Premises(r, c, t, l) && l.pc == Taking(RCopy)
    ensures var e := Deliver(c.request);
            var h := Recorded(c.hist, e);
            Counted(c.hist) && Counted(h) && Next(Abstract(c.hist), e, Abstract(h))
  {
    assert Abstract(Recorded(c.hist, Deliver(c.request))).log == Abstract(c.hist).log;
  }

  lemma AnswerRefines(r: ThreadId, c: Chan, t: ThreadId, l: Local)
    requires Premises(r, c, t, l) && l.pc == Answering(PCopy)
    ensures var e := Answer(l.arg);
            var h := Recorded(c.hist, e);
            Counted(c.hist) && Counted(h) && Next(Abstract(c.hist), e, Abstract(h))
  {
    assert Abstract(Recorded(c.hist, Answer(l.arg))).log == Abstract(c.hist).log;
  }

  lemma ReturnRefines(r: ThreadId, c: Chan, t: ThreadId, l: Local)
    requires Premises(r, c, t, l) && l.pc == Collecting(STake)
    ensures var e := Return(t, c.reply);
            var h := Recorded(c.hist, e);
            Counted(c.hist) && Counted(h) && Next(Abstract(c.hist), e, Abstract(h))
  {
    var h := Recorded(c.hist, Return(t, c.reply));
    var n := |c.hist.offers|;
    assert h.offers[n - 1] == Offer(t, Last(c).msg) && h.replies[n - 1] == c.reply;
    assert Abstract(h).log == Abstract(c.hist).log + [Exchange(t, Last(c).msg, c.reply)];
  }

  /** Every statement is either invisible or one step of the server, showing the bytes it copies. */
  lemma StepRefines(r: ThreadId, c: Chan, t: ThreadId, l: Local, mv: Move)
    requires Premises(r, c, t, l) && Enabled(c, l.pc, mv)
    ensures var h := LocalStep(c, t, l, mv).chan.hist;
            Counted(c.hist) && Counted(h) && Next(Abstract(c.hist), Shown(c, t, l, mv), Abstract(h))
  {
    SharedIsCounted(r, c);
    StepRecords(c, t, l, mv);
    match Shown(c, t, l, mv)
    case Silent =>
    case Submit(_, _) => SubmitRefines(r, c, t, l);
    case Deliver(_) => DeliverRefines(r, c, t, l);
    case Answer(_) => AnswerRefines(r, c, t, l);
    case Return(_, _) => ReturnRefines(r, c, t, l);
  }

  /** The server's moves along a run: the one its i-th action shows. */
  function ShownAt(s: State, a: Action): Event {
    Shown(s.chan, a.thread, At(s, a.thread), a.move)
  }

  /** Every run is a run of the atomic server. */
  lemma RunRefinesServer(r: ThreadId, states: seq<State>, actions: seq<Action>)
    requires IsRun(states, actions) && AllowedRun(SoleReceiver(r), actions)
    ensures forall i :: 0 <= i < |states| ==> Counted(states[i].chan.hist)
    ensures Abstract(states[0].chan.hist) == Server(Free, [])
    ensures forall i :: 0 <= i < |actions| ==>
      Next(Abstract(states[i].chan.hist), ShownAt(states[i], actions[i]), Abstract(states[i + 1].chan.hist))
  {
    forall i | 0 <= i < |states| ensures Counted(states[i].chan.hist) {
      InvInRuns(SoleReceiver(r), states, actions, i);
      SharedIsCounted(r, states[i].chan);
    }
    forall i | 0 <= i < |actions|
      ensures Next(Abstract(states[i].chan.hist), ShownAt(states[i], actions[i]), Abstract(states[i + 1].chan.hist))
    {
      var s, a := states[i], actions[i];
      InvInRuns(SoleReceiver(r), states, actions, i);
      assert StepOf(s, a, states[i + 1]) && Claim(SoleReceiver(r), s.chan, a.thread, At(s, a.thread));
      StepRefines(r, s.chan, a.thread, At(s, a.thread), a.move);
    }
  }

  lemma EventKeepsAgreement(h: History, e: Event)
    requires Agrees(h) && Counted(Recorded(h, e)) && Next(Abstract(h), e, Abstract(Recorded(h, e)))
    ensures Agrees(Recorded(h, e))
  {
  }

  /** In every state of every run: receivers copied out exactly the winners' messages, in the order
      of their compare-and-swaps, and each winner that copied a reply copied out its own. */
  lemma {:induction false} MessagesAndRepliesMatch(r: ThreadId, states: seq<State>, actions: seq<Action>, i: nat)
    requires IsRun(states, actions) && AllowedRun(SoleReceiver(r), actions) && i < |states|
    ensures Agrees(states[i].chan.hist)
  {
    if i > 0 {
      var s, a := states[i - 1], actions[i - 1];
      MessagesAndRepliesMatch(r, states, actions, i - 1);
      RunRefinesServer(r, states, actions);
      assert StepOf(s, a, states[i]);
      StepRecords(s.chan, a.thread, At(s, a.thread), a.move);
      EventKeepsAgreement(s.chan.hist, ShownAt(s, a));
    }
  }
}
