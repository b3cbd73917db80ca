/** The debug-event channel as a step machine.

    Any number of threads run the bodies of channel_send_recv, channel_recv, channel_send and
    channel_release.  Every wait, compare-and-swap, event set or clear, memory copy and plain store
    of those bodies is one step; threads interleave freely.  The four events are manual-reset. */
module Channel {
  import opened Words

  type ThreadId = nat

  /** CH_NULL, CH_SENT, CH_RECVED, CH_REPLAYED. */
  datatype Word = Null | Sent | Recved | Replayed

  // The statements of each body, grouped by what the thread is entitled to while it is there.
  datatype SendEntryPc = SInc | SWait | SCheck | SCas
  datatype OfferPc = SClear | SCopy | SSignal | SAwait
  datatype CollectPc = SStatus | STake | SClearRepl | SDisown | SReset
  datatype RecvEntryPc = RInc | RWait | RCheck | RCas
  datatype TakePc = ROwn | RClear | RCopy | RSignal
  datatype ReplyEntryPc = PInc | PWait | PCheck | POwner | PCas
  datatype AnswerPc = PClear | PCopy | PSignal
  datatype ReleasePc = XFlag | XSend | XRecv | XRcvd | XRepl

  /** The statement a thread executes next. */
  datatype Pc =
    | Idle
    | SendEntry(se: SendEntryPc)    // channel_send_recv up to its compare-and-swap
    | Offering(so: OfferPc)         // ... after winning it, up to the wait for the reply
    | Collecting(sc: CollectPc)     // ... from there up to the store of CH_NULL
    | Announcing                    // ... its final set of send_event
    | RecvEntry(re: RecvEntryPc)    // channel_recv up to its compare-and-swap
    | Taking(rt: TakePc)            // ... after winning it
    | ReplyEntry(pe: ReplyEntryPc)  // channel_send up to its compare-and-swap
    | Answering(pa: AnswerPc)       // ... after winning it
    | Leaving                       // lock_dec(&chan->waiters) and return
    | Releasing(x: ReleasePc)       // channel_release

  datatype Operation = SendRecv(msg: Bytes) | Recv | Send(reply: Bytes) | Release

  /** The operation a thread last entered. */
  datatype Role = NoRole | Sender | Receiver | Replier | Releaser

  /** A thread's registers: its operation, the message it passes in, the one it copies out, the
      status of its last wait and the local `succs`.  `won` and `slot` are bookkeeping: whether this
      call won the transaction, and the number of the transaction in the history below. */
  datatype Local = Local(pc: Pc, role: Role, arg: Bytes, out: Bytes, aborted: bool, succs: bool, won: bool, slot: nat)

  datatype Offer = Offer(sender: ThreadId, msg: Bytes)
  datatype Outcome = Outcome(sender: ThreadId, reply: Bytes)

  /** What has happened so far, written down and never read by a step: messages of the winning
      senders in compare-and-swap order, messages copied out by receivers, replies copied in,
      and replies copied out by senders. */
  datatype History = History(offers: seq<Offer>, delivered: seq<Bytes>, replies: seq<Bytes>, results: seq<Outcome>)

  /** The shared channel; `request` and `reply` are the two parts of its data buffer.  `taker` and
      `hist` are bookkeeping: the thread that last moved the word from CH_SENT to CH_RECVED, and the
      history. */
  datatype Chan = Chan(
    word: Word, owner: Option<ThreadId>,
    sendEvent: bool, recvEvent: bool, rcvdEvent: bool, replEvent: bool,
    waiters: int, released: bool, request: Bytes, reply: Bytes,
    taker: ThreadId, hist: History)

  datatype State = State(chan: Chan, locals: map<ThreadId, Local>)

  /** The scheduler's choices: an idle thread enters an operation, a thread takes its next step, or a
      thread's wait ends with STATUS_USER_APC. */
  datatype Move = Call(op: Operation) | Proceed | Abort

  const REST := Local(Idle, NoRole, [], [], false, false, false, 0)

  /** channel_alloc; the buffer holds whatever the allocator returned. */
  function Alloc(request: Bytes, reply: Bytes): State {
    State(Chan(Null, None, true, false, false, false, 0, false, request, reply, 0, History([], [], [], [])), map[])
  }

  function At(s: State, t: ThreadId): Local {
    if t in s.locals then s.locals[t] else REST
  }

  predicate Waiting(pc: Pc) {
    pc == SendEntry(SWait) || pc == Offering(SAwait) || pc == RecvEntry(RWait) || pc == ReplyEntry(PWait)
  }

  predicate Signalled(c: Chan, pc: Pc) {
    && (pc == SendEntry(SWait) ==> c.sendEvent)
    && (pc == Offering(SAwait) ==> c.replEvent)
    && (pc == RecvEntry(RWait) ==> c.recvEvent)
    && (pc == ReplyEntry(PWait) ==> c.rcvdEvent)
  }

  predicate Enabled(c: Chan, pc: Pc, mv: Move) {
    match mv
    case Call(_) => pc == Idle
    case Proceed => pc != Idle && Signalled(c, pc)
    case Abort => Waiting(pc)
  }

  // ----------------------------------------------------------------------------------------------
  // The statements

  /** The shared memory and one thread's registers after a statement. */
  datatype Result = Result(chan: Chan, local: Local)

  function SendEntryStep(c: Chan, t: ThreadId, l: Local): Result
    requires l.pc.SendEntry?
  {
    match l.pc.se
    case SInc => Result(c.(waiters := c.waiters + 1), l.(pc := SendEntry(SWait)))
    case SWait => Result(c, l.(pc := SendEntry(SCheck), aborted := false))
    case SCheck => Result(c, l.(pc := if l.aborted || c.released then Leaving else SendEntry(SCas)))
    case SCas =>
      // `continue` inside `do ... while (0)` leaves the loop: a lost race is not retried
      if c.word != Null then Result(c, l.(pc := Leaving))
      else Result(c.(word := Sent, hist := c.hist.(offers := c.hist.offers + [Offer(t, l.arg)])),
                  l.(pc := Offering(SClear), won := true, slot := |c.hist.offers|))
  }

  function OfferStep(c: Chan, l: Local): Result
    requires l.pc.Offering?
  {
    match l.pc.so
    case SClear => Result(c.(sendEvent := false), l.(pc := Offering(SCopy)))
    case SCopy => Result(c.(request := l.arg), l.(pc := Offering(SSignal)))
    case SSignal => Result(c.(recvEvent := true), l.(pc := Offering(SAwait)))
    case SAwait => Result(c, l.(pc := Collecting(SStatus), aborted := false))
  }

  function CollectStep(c: Chan, t: ThreadId, l: Local): Result
    requires l.pc.Collecting?
  {
    match l.pc.sc
    case SStatus => Result(c, l.(pc := Collecting(STake), succs := !l.aborted && !c.released))
    case STake =>
      Result(c.(hist := c.hist.(results := c.hist.results + [Outcome(t, c.reply)])),
             l.(pc := Collecting(SClearRepl), out := c.reply))
    case SClearRepl => Result(c.(replEvent := false), l.(pc := Collecting(SDisown)))
    case SDisown => Result(c.(owner := None), l.(pc := Collecting(SReset)))
    case SReset => Result(c.(word := Null), l.(pc := Announcing))
  }

  function RecvEntryStep(c: Chan, t: ThreadId, l: Local): Result
    requires l.pc.RecvEntry?
  {
    match l.pc.re
    case RInc => Result(c.(waiters := c.waiters + 1), l.(pc := RecvEntry(RWait)))
    case RWait => Result(c, l.(pc := RecvEntry(RCheck), aborted := false))
    case RCheck => Result(c, l.(pc := if l.aborted || c.released then Leaving else RecvEntry(RCas)))
    case RCas =>
      if c.word != Sent then Result(c, l.(pc := RecvEntry(RWait)))
      else Result(c.(word := Recved, taker := t), l.(pc := Taking(ROwn)))
  }

  function TakeStep(c: Chan, t: ThreadId, l: Local): Result
    requires l.pc.Taking?
  {
    match l.pc.rt
    case ROwn =>
      if c.owner != None then Result(c, l.(pc := RecvEntry(RWait)))
      else Result(c.(owner := Some(t)), l.(pc := Taking(RClear)))
    case RClear => Result(c.(recvEvent := false), l.(pc := Taking(RCopy)))
    case RCopy =>
      Result(c.(hist := c.hist.(delivered := c.hist.delivered + [c.request])),
             l.(pc := Taking(RSignal), out := c.request, slot := |c.hist.delivered|))
    case RSignal => Result(c.(rcvdEvent := true), l.(pc := Leaving, succs := true))
  }

  function ReplyEntryStep(c: Chan, t: ThreadId, l: Local): Result
    requires l.pc.ReplyEntry?
  {
    match l.pc.pe
    case PInc => Result(c.(waiters := c.waiters + 1), l.(pc := ReplyEntry(PWait)))
    case PWait => Result(c, l.(pc := ReplyEntry(PCheck), aborted := false))
    case PCheck => Result(c, l.(pc := if l.aborted || c.released then Leaving else ReplyEntry(POwner)))
    case POwner => Result(c, l.(pc := ReplyEntry(if c.owner != Some(t) then PWait else PCas)))
    case PCas =>
      if c.word != Recved then Result(c, l.(pc := ReplyEntry(PWait)))
      else Result(c.(word := Replayed), l.(pc := Answering(PClear)))
  }

  function AnswerStep(c: Chan, l: Local): Result
    requires l.pc.Answering?
  {
    match l.pc.pa
    case PClear => Result(c.(rcvdEvent := false), l.(pc := Answering(PCopy)))
    case PCopy =>
      Result(c.(reply := l.arg, hist := c.hist.(replies := c.hist.replies + [l.arg])),
             l.(pc := Answering(PSignal), slot := |c.hist.replies|))
    case PSignal => Result(c.(replEvent := true), l.(pc := Leaving, succs := true))
  }

  function ReleaseStep(c: Chan, l: Local): Result
    requires l.pc.Releasing?
  {
    match l.pc.x
    case XFlag => Result(c.(released := true), l.(pc := Releasing(XSend)))
    case XSend => Result(c.(sendEvent := true), l.(pc := Releasing(XRecv)))
    case XRecv => Result(c.(recvEvent := true), l.(pc := Releasing(XRcvd)))
    case XRcvd => Result(c.(rcvdEvent := true), l.(pc := Releasing(XRepl)))
    case XRepl => Result(c.(replEvent := true), l.(pc := Idle))
  }

  function Begin(op: Operation): Local {
    match op
    case SendRecv(m) => REST.(pc := SendEntry(SInc), role := Sender, arg := m)
    case Recv => REST.(pc := RecvEntry(RInc), role := Receiver)
    case Send(m) => REST.(pc := ReplyEntry(PInc), role := Replier, arg := m)
    case Release => REST.(pc := Releasing(XFlag), role := Releaser)
  }

  function AfterWait(pc: Pc): Pc
    requires Waiting(pc)
  {
    match pc
    case SendEntry(_) => SendEntry(SCheck)
    case Offering(_) => Collecting(SStatus)
    case RecvEntry(_) => RecvEntry(RCheck)
    case ReplyEntry(_) => ReplyEntry(PCheck)
  }

  /** The next statement of the body the thread is in. */
  function Statement(c: Chan, t: ThreadId, l: Local): Result
    requires l.pc != Idle
  {
    match l.pc
    case SendEntry(_) => SendEntryStep(c, t, l)
    case Offering(_) => OfferStep(c, l)
    case Collecting(_) => CollectStep(c, t, l)
    case Announcing => Result(c.(sendEvent := true), l.(pc := Leaving))
    case RecvEntry(_) => RecvEntryStep(c, t, l)
    case Taking(_) => TakeStep(c, t, l)
    case ReplyEntry(_) => ReplyEntryStep(c, t, l)
    case Answering(_) => AnswerStep(c, l)
    case Leaving => Result(c.(waiters := c.waiters - 1), l.(pc := Idle))
    case Releasing(_) => ReleaseStep(c, l)
  }

  function LocalStep(c: Chan, t: ThreadId, l: Local, mv: Move): Result
    requires Enabled(c, l.pc, mv)
  {
    match mv
    case Call(op) => Result(c, Begin(op))
    case Abort => Result(c, l.(pc := AfterWait(l.pc), aborted := true))
    case Proceed => Statement(c, t, l)
  }

  predicate Ready(s: State, t: ThreadId, mv: Move) {
    Enabled(s.chan, At(s, t).pc, mv)
  }

  /** Thread t makes the move: its registers and the channel change, every other thread stays. */
  function Step(s: State, t: ThreadId, mv: Move): (s': State)
    requires Ready(s, t, mv)
    ensures Result(s'.chan, At(s', t)) == LocalStep(s.chan, t, At(s, t), mv)
    ensures forall u {:trigger At(s', u)} :: u != t ==> At(s', u) == At(s, u)
  {
    var r := LocalStep(s.chan, t, At(s, t), mv);
    State(r.chan, s.locals[t := r.local])
  }

  // ----------------------------------------------------------------------------------------------
  // Runs

  datatype Action = Action(thread: ThreadId, move: Move)

  ghost predicate StepOf(s: State, a: Action, s': State) {
    Ready(s, a.thread, a.move) && s' == Step(s, a.thread, a.move)
  }

  /** `states` is a run of a freshly allocated channel under the given actions. */
  ghost predicate IsRun(states: seq<State>, actions: seq<Action>) {
    && |states| == |actions| + 1
    && states[0] == Alloc(states[0].chan.request, states[0].chan.reply)
    && forall i :: 0 <= i < |actions| ==> StepOf(states[i], actions[i], states[i + 1])
  }
}
