/** What every thread may rely on at every statement, and that no statement of another thread breaks
    it.  Three kinds of run are told apart: any run at all, runs without aborted waits and without
    channel_release, and such runs in which a single thread receives and replies. */
module ChannelInvariant {
  import opened Words
  import opened Channel

  datatype Mode = AnyRun | CalmRun | SoleReceiver(r: ThreadId)

  predicate Allowed(m: Mode, t: ThreadId, mv: Move) {
    && (!m.AnyRun? ==> !mv.Abort? && !(mv.Call? && mv.op.Release?))
    && (m.SoleReceiver? && mv.Call? && (mv.op.Recv? || mv.op.Send?) ==> t == m.r)
  }

  /** Between winning the compare-and-swap and the store of CH_NULL: both buffer copies of
      channel_send_recv are in here. */
  predicate InTransaction(pc: Pc) {
    pc.Offering? || pc.Collecting?
  }

  function Last(c: Chan): Offer
    requires c.hist.offers != []
  {
    c.hist.offers[|c.hist.offers| - 1]
  }

  /** The word is not CH_NULL and t is the last sender to have taken it. */
  predicate Holds(c: Chan, t: ThreadId) {
    !c.word.Null? && c.hist.offers != [] && Last(c).sender == t
  }

  /** The owner of the transaction has not copied its reply out yet. */
  predicate Uncollected(c: Chan) {
    |c.hist.results| == |c.hist.offers| - 1
  }

  // ----------------------------------------------------------------------------------------------
  // Facts about the shared channel

  predicate AnyShared(c: Chan) {
    if c.word.Null? then |c.hist.results| == |c.hist.offers|
    else |c.hist.offers| > 0 && (Uncollected(c) || |c.hist.results| == |c.hist.offers|)
  }

  predicate CalmShared(c: Chan) {
    && !c.released
    && (c.replEvent ==> c.word.Replayed? && c.owner.Some?)
    && (c.word.Null? || c.word.Sent? ==> c.owner.None?)
    && (c.owner.Some? ==> c.owner.value == c.taker)
    && (c.word.Sent? || c.word.Recved? ==> Uncollected(c))
    && (c.word.Recved? || c.word.Replayed? ==> c.hist.offers != [] && Last(c).sender != c.taker)
  }

  predicate SoleShared(c: Chan, r: ThreadId) {
    var n := |c.hist.offers|;
    && (c.word.Recved? || c.word.Replayed? ==> c.taker == r)
    && (c.recvEvent ==> c.word.Sent? || c.word.Recved?)
    && (c.rcvdEvent ==> c.word.Recved? || c.word.Replayed?)
    && (c.word.Replayed? && (c.replEvent || !Uncollected(c)) ==> |c.hist.replies| == n && !c.rcvdEvent)
    && ((c.word.Sent? && c.recvEvent) || c.word.Recved? || c.word.Replayed? ==>
          c.hist.offers != [] && c.request == Last(c).msg)
    && (c.word.Null? || c.word.Replayed? ==> |c.hist.delivered| == n)
    && (c.word.Sent? ==> |c.hist.delivered| == n - 1)
    && (c.word.Recved? ==> n - 1 <= |c.hist.delivered| <= n)
    && (c.word.Null? ==> |c.hist.replies| == n)
    && (c.word.Sent? || c.word.Recved? ==> |c.hist.replies| == n - 1)
    && (c.word.Replayed? ==> n - 1 <= |c.hist.replies| <= n)
    && (c.word.Replayed? && |c.hist.replies| == n ==> n > 0 && c.reply == c.hist.replies[n - 1])
  }

  predicate Shared(m: Mode, c: Chan) {
    AnyShared(c) && (!m.AnyRun? ==> CalmShared(c)) && (m.SoleReceiver? ==> SoleShared(c, m.r))
  }

  // ----------------------------------------------------------------------------------------------
  // Facts a thread has at its statement

  predicate AnyClaim(c: Chan, u: ThreadId, l: Local) {
    && (InTransaction(l.pc) <==> Holds(c, u))
    && (InTransaction(l.pc) ==> l.won && l.slot == |c.hist.offers| - 1 && Last(c).msg == l.arg)
    && (l.pc.Offering? ==> Uncollected(c))
    && (l.pc.Collecting? ==> (Uncollected(c) <==> l.pc.sc.SStatus? || l.pc.sc.STake?))
  }

  predicate CalmClaim(c: Chan, u: ThreadId, l: Local) {
    && !l.aborted && !l.pc.Releasing?
    && (l.pc.Taking? ==>
          c.word.Recved? && c.taker == u && c.owner == (if l.pc.rt.ROwn? then None else Some(u)))
    && (l.pc.ReplyEntry? && !l.pc.pe.PInc? && !l.pc.pe.PWait? && c.owner == Some(u) ==> c.word.Recved?)
    && (l.pc.ReplyEntry? && l.pc.pe.PCas? ==> c.owner == Some(u))
    && (l.pc.Answering? ==>
          c.word.Replayed? && c.taker == u && c.owner == Some(u) && !c.replEvent && Uncollected(c))
    && (c.word.Replayed? && c.taker == u && !(l.pc.Answering? && l.pc.pa.PClear?) ==> !c.rcvdEvent)
    && (l.pc.Collecting? ==>
          && c.word.Replayed?
          && (l.pc.sc.SReset? <==> c.owner.None?)
          && (c.replEvent <==> !l.pc.sc.SDisown? && !l.pc.sc.SReset?))
  }

  predicate SoleClaim(c: Chan, r: ThreadId, u: ThreadId, l: Local) {
    var n := |c.hist.offers|;
    && (u != r ==> !l.pc.RecvEntry? && !l.pc.Taking? && !l.pc.ReplyEntry? && !l.pc.Answering?)
    && (l.pc.Offering? && !l.pc.so.SAwait? ==> c.word.Sent? && !c.recvEvent)
    && (l.pc.Offering? && l.pc.so.SSignal? ==> c.request == l.arg)
    && (l.pc.Offering? && l.pc.so.SAwait? && c.word.Sent? ==> c.recvEvent)
    && (l.pc.RecvEntry? && (l.pc.re.RCheck? || l.pc.re.RCas?) ==> c.recvEvent)
    && (l.pc.Taking? ==>
          && !c.rcvdEvent
          && (c.recvEvent <==> l.pc.rt.ROwn? || l.pc.rt.RClear?)
          && |c.hist.delivered| == (if l.pc.rt.RSignal? then n else n - 1))
    && (u == r && c.word.Recved? && !l.pc.Taking? ==>
          c.rcvdEvent && !c.recvEvent && |c.hist.delivered| == n)
    && (l.pc.Answering? ==> |c.hist.replies| == (if l.pc.pa.PSignal? then n else n - 1))
    && (u == r && c.word.Replayed? && !l.pc.Answering? ==>
          |c.hist.replies| == n && (c.replEvent || !Uncollected(c)))
  }

  predicate Claim(m: Mode, c: Chan, u: ThreadId, l: Local) {
    && AnyClaim(c, u, l)
    && (!m.AnyRun? ==> CalmClaim(c, u, l))
    && (m.SoleReceiver? ==> SoleClaim(c, m.r, u, l))
  }

  ghost predicate Inv(m: Mode, s: State) {
    Shared(m, s.chan) && forall u :: Claim(m, s.chan, u, At(s, u))
  }

  // ----------------------------------------------------------------------------------------------
  // How a statement may change the word, send_event and the waiter count

  /** Between the clear of send_event and its final set. */
  predicate MustAnnounce(pc: Pc) {
    (pc.Offering? && !pc.so.SClear?) || pc.Collecting? || pc.Announcing?
  }

  /** Between lock_inc(&chan->waiters) and lock_dec(&chan->waiters). */
  predicate Inside(pc: Pc) {
    match pc
    case Idle => false
    case SendEntry(e) => !e.SInc?
    case RecvEntry(e) => !e.RInc?
    case ReplyEntry(e) => !e.PInc?
    case Releasing(_) => false
    case _ => true
  }

  predicate WordMoves(c: Chan, t: ThreadId, l: Local, c': Chan) {
    if c'.word == c.word then c'.taker == c.taker
    else
      match c'.word
      case Sent => c.word.Null? && c'.taker == c.taker
      case Recved => c.word.Sent? && c'.taker == t
      case Replayed => c.word.Recved? && l.pc == ReplyEntry(PCas) && c'.taker == c.taker
      case Null => l.pc == Collecting(SReset) && c'.taker == c.taker
  }

  predicate Moves(c: Chan, t: ThreadId, l: Local, r: Result) {
    && WordMoves(c, t, l, r.chan)
    && (!r.chan.sendEvent && c.sendEvent ==> MustAnnounce(r.local.pc))
    && (!r.chan.sendEvent && MustAnnounce(l.pc) ==> MustAnnounce(r.local.pc))
    && r.chan.waiters == c.waiters + (if Inside(r.local.pc) then 1 else 0) - (if Inside(l.pc) then 1 else 0)
  }

  // ----------------------------------------------------------------------------------------------
  // Each statement keeps them: for the thread t that executes it, and for any other thread u

  predicate Before(m: Mode, c: Chan, t: ThreadId, l: Local, u: ThreadId, k: Local) {
    u != t && Shared(m, c) && Claim(m, c, t, l) && Claim(m, c, u, k)
  }

  predicate After(m: Mode, c: Chan, t: ThreadId, l: Local, r: Result, u: ThreadId, k: Local) {
    Shared(m, r.chan) && Claim(m, r.chan, t, r.local) && Claim(m, r.chan, u, k) && Moves(c, t, l, r)
  }

  lemma SIncKeeps(m: Mode, c: Chan, t: ThreadId, l: Local, u: ThreadId, k: Local)
    requires Before(m, c, t, l, u, k) && l.pc == SendEntry(SInc) && Signalled(c, l.pc)
    ensures After(m, c, t, l, SendEntryStep(c, t, l), u, k)
  {
  }

  lemma SWaitKeeps(m: Mode, c: Chan, t: ThreadId, l: Local, u: ThreadId, k: Local)
    requires Before(m, c, t, l, u, k) && l.pc == SendEntry(SWait) && Signalled(c, l.pc)
    ensures After(m, c, t, l, SendEntryStep(c, t, l), u, k)
  {
  }

  lemma SCheckKeeps(m: Mode, c: Chan, t: ThreadId, l: Local, u: ThreadId, k: Local)
    requires Before(m, c, t, l, u, k) && l.pc == SendEntry(SCheck) && Signalled(c, l.pc)
    ensures After(m, c, t, l, SendEntryStep(c, t, l), u, k)
  {
  }

  lemma SCasWins(m: Mode, c: Chan, t: ThreadId, l: Local, u: ThreadId, k: Local)
    requires Before(m, c, t, l, u, k) && l.pc == SendEntry(SCas) && c.word.Null?
    ensures After(m, c, t, l, SendEntryStep(c, t, l), u, k)
  {
  }

  lemma SCasLoses(m: Mode, c: Chan, t: ThreadId, l: Local, u: ThreadId, k: Local)
    requires Before(m, c, t, l, u, k) && l.pc == SendEntry(SCas) && !c.word.Null?
    ensures After(m, c, t, l, SendEntryStep(c, t, l), u, k)
  {
  }

  lemma SCasKeeps(m: Mode, c: Chan, t: ThreadId, l: Local, u: ThreadId, k: Local)
    requires Before(m, c, t, l, u, k) && l.pc == SendEntry(SCas) && Signalled(c, l.pc)
    ensures After(m, c, t, l, SendEntryStep(c, t, l), u, k)
  {
    if c.word.Null? {
      SCasWins(m, c, t, l, u, k);
    } else {
      SCasLoses(m, c, t, l, u, k);
    }
  }

  lemma SClearKeeps(m: Mode, c: Chan, t: ThreadId, l: Local, u: ThreadId, k: Local)
    requires Before(m, c, t, l, u, k) && l.pc == Offering(SClear) && Signalled(c, l.pc)
    ensures After(m, c, t, l, OfferStep(c, l), u, k)
  {
  }

  lemma SCopyKeeps(m: Mode, c: Chan, t: ThreadId, l: Local, u: ThreadId, k: Local)
    requires Before(m, c, t, l, u, k) && l.pc == Offering(SCopy) && Signalled(c, l.pc)
    ensures After(m, c, t, l, OfferStep(c, l), u, k)
  {
  }

  lemma SSignalKeeps(m: Mode, c: Chan, t: ThreadId, l: Local, u: ThreadId, k: Local)
    requires Before(m, c, t, l, u, k) && l.pc == Offering(SSignal) && Signalled(c, l.pc)
    ensures After(m, c, t, l, OfferStep(c, l), u, k)
  {
  }

  lemma SAwaitKeeps(m: Mode, c: Chan, t: ThreadId, l: Local, u: ThreadId, k: Local)
    requires Before(m, c, t, l, u, k) && l.pc == Offering(SAwait) && Signalled(c, l.pc)
    ensures After(m, c, t, l, OfferStep(c, l), u, k)
  {
  }

  lemma SStatusKeeps(m: Mode, c: Chan, t: ThreadId, l: Local, u: ThreadId, k: Local)
    requires Before(m, c, t, l, u, k) && l.pc == Collecting(SStatus) && Signalled(c, l.pc)
    ensures After(m, c, t, l, CollectStep(c, t, l), u, k)
  {
  }

  lemma STakeKeeps(m: Mode, c: Chan, t: ThreadId, l: Local, u: ThreadId, k: Local)
    requires Before(m, c, t, l, u, k) && l.pc == Collecting(STake) && Signalled(c, l.pc)
    ensures After(m, c, t, l, CollectStep(c, t, l), u, k)
  {
  }

  lemma SClearReplKeeps(m: Mode, c: Chan, t: ThreadId, l: Local, u: ThreadId, k: Local)
    requires Before(m, c, t, l, u, k) && l.pc == Collecting(SClearRepl) && Signalled(c, l.pc)
    ensures After(m, c, t, l, CollectStep(c, t, l), u, k)
  {
  }

  lemma SDisownKeeps(m: Mode, c: Chan, t: ThreadId, l: Local, u: ThreadId, k: Local)
    requires Before(m, c, t, l, u, k) && l.pc == Collecting(SDisown) && Signalled(c, l.pc)
    ensures After(m, c, t, l, CollectStep(c, t, l), u, k)
  {
  }

  lemma SResetKeeps(m: Mode, c: Chan, t: ThreadId, l: Local, u: ThreadId, k: Local)
    requires Before(m, c, t, l, u, k) && l.pc == Collecting(SReset) && Signalled(c, l.pc)
    ensures After(m, c, t, l, CollectStep(c, t, l), u, k)
  {
  }

  lemma RIncKeeps(m: Mode, c: Chan, t: ThreadId, l: Local, u: ThreadId, k: Local)
    requires Before(m, c, t, l, u, k) && l.pc == RecvEntry(RInc) && Signalled(c, l.pc)
    ensures After(m, c, t, l, RecvEntryStep(c, t, l), u, k)
  {
  }

  lemma RWaitKeeps(m: Mode, c: Chan, t: ThreadId, l: Local, u: ThreadId, k: Local)
    requires Before(m, c, t, l, u, k) && l.pc == RecvEntry(RWait) && Signalled(c, l.pc)
    ensures After(m, c, t, l, RecvEntryStep(c, t, l), u, k)
  {
  }

  lemma RCheckKeeps(m: Mode, c: Chan, t: ThreadId, l: Local, u: ThreadId, k: Local)
    requires Before(m, c, t, l, u, k) && l.pc == RecvEntry(RCheck) && Signalled(c, l.pc)
    ensures After(m, c, t, l, RecvEntryStep(c, t, l), u, k)
  {
  }

  lemma RCasWins(m: Mode, c: Chan, t: ThreadId, l: Local, u: ThreadId, k: Local)
    requires Before(m, c, t, l, u, k) && l.pc == RecvEntry(RCas) && c.word.Sent?
    ensures After(m, c, t, l, RecvEntryStep(c, t, l), u, k)
  {
  }

  lemma RCasLoses(m: Mode, c: Chan, t: ThreadId, l: Local, u: ThreadId, k: Local)
    requires Before(m, c, t, l, u, k) && l.pc == RecvEntry(RCas) && !c.word.Sent?
    ensures After(m, c, t, l, RecvEntryStep(c, t, l), u, k)
  {
  }

  lemma RCasKeeps(m: Mode, c: Chan, t: ThreadId, l: Local, u: ThreadId, k: Local)
    requires Before(m, c, t, l, u, k) && l.pc == RecvEntry(RCas) && Signalled(c, l.pc)
    ensures After(m, c, t, l, RecvEntryStep(c, t, l), u, k)
  {
    if c.word.Sent? {
      RCasWins(m, c, t, l, u, k);
    } else {
      RCasLoses(m, c, t, l, u, k);
    }
  }

  lemma ROwnKeeps(m: Mode, c: Chan, t: ThreadId, l: Local, u: ThreadId, k: Local)
    requires Before(m, c, t, l, u, k) && l.pc == Taking(ROwn) && Signalled(c, l.pc)
    ensures After(m, c, t, l, TakeStep(c, t, l), u, k)
  {
  }

  lemma RClearKeeps(m: Mode, c: Chan, t: ThreadId, l: Local, u: ThreadId, k: Local)
    requires Before(m, c, t, l, u, k) && l.pc == Taking(RClear) && Signalled(c, l.pc)
    ensures After(m, c, t, l, TakeStep(c, t, l), u, k)
  {
  }

  lemma RCopyKeeps(m: Mode, c: Chan, t: ThreadId, l: Local, u: ThreadId, k: Local)
    requires Before(m, c, t, l, u, k) && l.pc == Taking(RCopy) && Signalled(c, l.pc)
    ensures After(m, c, t, l, TakeStep(c, t, l), u, k)
  {
  }

  lemma RSignalKeeps(m: Mode, c: Chan, t: ThreadId, l: Local, u: ThreadId, k: Local)
    requires Before(m, c, t, l, u, k) && l.pc == Taking(RSignal) && Signalled(c, l.pc)
    ensures After(m, c, t, l, TakeStep(c, t, l), u, k)
  {
  }

  lemma PIncKeeps(m: Mode, c: Chan, t: ThreadId, l: Local, u: ThreadId, k: Local)
    requires Before(m, c, t, l, u, k) && l.pc == ReplyEntry(PInc) && Signalled(c, l.pc)
    ensures After(m, c, t, l, ReplyEntryStep(c, t, l), u, k)
  {
  }

  lemma PWaitKeeps(m: Mode, c: Chan, t: ThreadId, l: Local, u: ThreadId, k: Local)
    requires Before(m, c, t, l, u, k) && l.pc == ReplyEntry(PWait) && Signalled(c, l.pc)
    ensures After(m, c, t, l, ReplyEntryStep(c, t, l), u, k)
  {
  }

  lemma PCheckKeeps(m: Mode, c: Chan, t: ThreadId, l: Local, u: ThreadId, k: Local)
    requires Before(m, c, t, l, u, k) && l.pc == ReplyEntry(PCheck) && Signalled(c, l.pc)
    ensures After(m, c, t, l, ReplyEntryStep(c, t, l), u, k)
  {
  }

  lemma POwnerKeeps(m: Mode, c: Chan, t: ThreadId, l: Local, u: ThreadId, k: Local)
    requires Before(m, c, t, l, u, k) && l.pc == ReplyEntry(POwner) && Signalled(c, l.pc)
    ensures After(m, c, t, l, ReplyEntryStep(c, t, l), u, k)
  {
  }

  lemma PCasWins(m: Mode, c: Chan, t: ThreadId, l: Local, u: ThreadId, k: Local)
    requires Before(m, c, t, l, u, k) && l.pc == ReplyEntry(PCas) && c.word.Recved?
    ensures After(m, c, t, l, ReplyEntryStep(c, t, l), u, k)
  {
  }

  lemma PCasLoses(m: Mode, c: Chan, t: ThreadId, l: Local, u: ThreadId, k: Local)
    requires Before(m, c, t, l, u, k) && l.pc == ReplyEntry(PCas) && !c.word.Recved?
    ensures After(m, c, t, l, ReplyEntryStep(c, t, l), u, k)
  {
  }

  lemma PCasKeeps(m: Mode, c: Chan, t: ThreadId, l: Local, u: ThreadId, k: Local)
    requires Before(m, c, t, l, u, k) && l.pc == ReplyEntry(PCas) && Signalled(c, l.pc)
    ensures After(m, c, t, l, ReplyEntryStep(c, t, l), u, k)
  {
    if c.word.Recved? {
      PCasWins(m, c, t, l, u, k);
    } else {
      PCasLoses(m, c, t, l, u, k);
    }
  }

  lemma PClearKeeps(m: Mode, c: Chan, t: ThreadId, l: Local, u: ThreadId, k: Local)
    requires Before(m, c, t, l, u, k) && l.pc == Answering(PClear) && Signalled(c, l.pc)
    ensures After(m, c, t, l, AnswerStep(c, l), u, k)
  {
  }

  lemma PCopyKeeps(m: Mode, c: Chan, t: ThreadId, l: Local, u: ThreadId, k: Local)
    requires Before(m, c, t, l, u, k) && l.pc == Answering(PCopy) && Signalled(c, l.pc)
    ensures After(m, c, t, l, AnswerStep(c, l), u, k)
  {
  }

  lemma PSignalKeeps(m: Mode, c: Chan, t: ThreadId, l: Local, u: ThreadId, k: Local)
    requires Before(m, c, t, l, u, k) && l.pc == Answering(PSignal) && Signalled(c, l.pc)
    ensures After(m, c, t, l, AnswerStep(c, l), u, k)
  {
  }

  lemma XFlagKeeps(m: Mode, c: Chan, t: ThreadId, l: Local, u: ThreadId, k: Local)
    requires Before(m, c, t, l, u, k) && l.pc == Releasing(XFlag) && Signalled(c, l.pc)
    ensures After(m, c, t, l, ReleaseStep(c, l), u, k)
  {
  }

  lemma XSendKeeps(m: Mode, c: Chan, t: ThreadId, l: Local, u: ThreadId, k: Local)
    requires Before(m, c, t, l, u, k) && l.pc == Releasing(XSend) && Signalled(c, l.pc)
    ensures After(m, c, t, l, ReleaseStep(c, l), u, k)
  {
  }

  lemma XRecvKeeps(m: Mode, c: Chan, t: ThreadId, l: Local, u: ThreadId, k: Local)
    requires Before(m, c, t, l, u, k) && l.pc == Releasing(XRecv) && Signalled(c, l.pc)
    ensures After(m, c, t, l, ReleaseStep(c, l), u, k)
  {
  }

  lemma XRcvdKeeps(m: Mode, c: Chan, t: ThreadId, l: Local, u: ThreadId, k: Local)
    requires Before(m, c, t, l, u, k) && l.pc == Releasing(XRcvd) && Signalled(c, l.pc)
    ensures After(m, c, t, l, ReleaseStep(c, l), u, k)
  {
  }

  lemma XReplKeeps(m: Mode, c: Chan, t: ThreadId, l: Local, u: ThreadId, k: Local)
    requires Before(m, c, t, l, u, k) && l.pc == Releasing(XRepl) && Signalled(c, l.pc)
    ensures After(m, c, t, l, ReleaseStep(c, l), u, k)
  {
  }

  lemma SendEntryKeeps(m: Mode, c: Chan, t: ThreadId, l: Local, u: ThreadId, k: Local)
    requires Before(m, c, t, l, u, k) && l.pc.SendEntry? && Signalled(c, l.pc)
    ensures After(m, c, t, l, SendEntryStep(c, t, l), u, k)
  {
    match l.pc.se
    case SInc => SIncKeeps(m, c, t, l, u, k);
    case SWait => SWaitKeeps(m, c, t, l, u, k);
    case SCheck => SCheckKeeps(m, c, t, l, u, k);
    case SCas => SCasKeeps(m, c, t, l, u, k);
  }

  lemma OfferingKeeps(m: Mode, c: Chan, t: ThreadId, l: Local, u: ThreadId, k: Local)
    requires Before(m, c, t, l, u, k) && l.pc.Offering? && Signalled(c, l.pc)
    ensures After(m, c, t, l, OfferStep(c, l), u, k)
  {
    match l.pc.so
    case SClear => SClearKeeps(m, c, t, l, u, k);
    case SCopy => SCopyKeeps(m, c, t, l, u, k);
    case SSignal => SSignalKeeps(m, c, t, l, u, k);
    case SAwait => SAwaitKeeps(m, c, t, l, u, k);
  }

  lemma CollectingKeeps(m: Mode, c: Chan, t: ThreadId, l: Local, u: ThreadId, k: Local)
    requires Before(m, c, t, l, u, k) && l.pc.Collecting? && Signalled(c, l.pc)
    ensures After(m, c, t, l, CollectStep(c, t, l), u, k)
  {
    match l.pc.sc
    case SStatus => SStatusKeeps(m, c, t, l, u, k);
    case STake => STakeKeeps(m, c, t, l, u, k);
    case SClearRepl => SClearReplKeeps(m, c, t, l, u, k);
    case SDisown => SDisownKeeps(m, c, t, l, u, k);
    case SReset => SResetKeeps(m, c, t, l, u, k);
  }

  lemma RecvEntryKeeps(m: Mode, c: Chan, t: ThreadId, l: Local, u: ThreadId, k: Local)
    requires Before(m, c, t, l, u, k) && l.pc.RecvEntry? && Signalled(c, l.pc)
    ensures After(m, c, t, l, RecvEntryStep(c, t, l), u, k)
  {
    match l.pc.re
    case RInc => RIncKeeps(m, c, t, l, u, k);
    case RWait => RWaitKeeps(m, c, t, l, u, k);
    case RCheck => RCheckKeeps(m, c, t, l, u, k);
    case RCas => RCasKeeps(m, c, t, l, u, k);
  }

  lemma TakingKeeps(m: Mode, c: Chan, t: ThreadId, l: Local, u: ThreadId, k: Local)
    requires Before(m, c, t, l, u, k) && l.pc.Taking? && Signalled(c, l.pc)
    ensures After(m, c, t, l, TakeStep(c, t, l), u, k)
  {
    match l.pc.rt
    case ROwn => ROwnKeeps(m, c, t, l, u, k);
    case RClear => RClearKeeps(m, c, t, l, u, k);
    case RCopy => RCopyKeeps(m, c, t, l, u, k);
    case RSignal => RSignalKeeps(m, c, t, l, u, k);
  }

  lemma ReplyEntryKeeps(m: Mode, c: Chan, t: ThreadId, l: Local, u: ThreadId, k: Local)
    requires Before(m, c, t, l, u, k) && l.pc.ReplyEntry? && Signalled(c, l.pc)
    ensures After(m, c, t, l, ReplyEntryStep(c, t, l), u, k)
  {
    match l.pc.pe
    case PInc => PIncKeeps(m, c, t, l, u, k);
    case PWait => PWaitKeeps(m, c, t, l, u, k);
    case PCheck => PCheckKeeps(m, c, t, l, u, k);
    case POwner => POwnerKeeps(m, c, t, l, u, k);
    case PCas => PCasKeeps(m, c, t, l, u, k);
  }

  lemma AnsweringKeeps(m: Mode, c: Chan, t: ThreadId, l: Local, u: ThreadId, k: Local)
    requires Before(m, c, t, l, u, k) && l.pc.Answering? && Signalled(c, l.pc)
    ensures After(m, c, t, l, AnswerStep(c, l), u, k)
  {
    match l.pc.pa
    case PClear => PClearKeeps(m, c, t, l, u, k);
    case PCopy => PCopyKeeps(m, c, t, l, u, k);
    case PSignal => PSignalKeeps(m, c, t, l, u, k);
  }

  lemma ReleasingKeeps(m: Mode, c: Chan, t: ThreadId, l: Local, u: ThreadId, k: Local)
    requires Before(m, c, t, l, u, k) && l.pc.Releasing? && Signalled(c, l.pc)
    ensures After(m, c, t, l, ReleaseStep(c, l), u, k)
  {
    match l.pc.x
    case XFlag => XFlagKeeps(m, c, t, l, u, k);
    case XSend => XSendKeeps(m, c, t, l, u, k);
    case XRecv => XRecvKeeps(m, c, t, l, u, k);
    case XRcvd => XRcvdKeeps(m, c, t, l, u, k);
    case XRepl => XReplKeeps(m, c, t, l, u, k);
  }

  lemma AnnounceKeeps(m: Mode, c: Chan, t: ThreadId, l: Local, u: ThreadId, k: Local)
    requires Before(m, c, t, l, u, k) && l.pc.Announcing?
    ensures After(m, c, t, l, Statement(c, t, l), u, k)
  {
  }

  lemma LeaveKeeps(m: Mode, c: Chan, t: ThreadId, l: Local, u: ThreadId, k: Local)
    requires Before(m, c, t, l, u, k) && l.pc.Leaving?
    ensures After(m, c, t, l, Statement(c, t, l), u, k)
  {
  }

  lemma StatementKeeps(m: Mode, c: Chan, t: ThreadId, l: Local, u: ThreadId, k: Local)
    requires Before(m, c, t, l, u, k) && !l.pc.Idle? && Signalled(c, l.pc)
    ensures After(m, c, t, l, Statement(c, t, l), u, k)
  {
    match l.pc
    case SendEntry(_) => SendEntryKeeps(m, c, t, l, u, k);
    case Offering(_) => OfferingKeeps(m, c, t, l, u, k);
    case Collecting(_) => CollectingKeeps(m, c, t, l, u, k);
    case Announcing => AnnounceKeeps(m, c, t, l, u, k);
    case RecvEntry(_) => RecvEntryKeeps(m, c, t, l, u, k);
    case Taking(_) => TakingKeeps(m, c, t, l, u, k);
    case ReplyEntry(_) => ReplyEntryKeeps(m, c, t, l, u, k);
    case Answering(_) => AnsweringKeeps(m, c, t, l, u, k);
    case Leaving => LeaveKeeps(m, c, t, l, u, k);
    case Releasing(_) => ReleasingKeeps(m, c, t, l, u, k);
  }

  lemma CallKeeps(m: Mode, c: Chan, t: ThreadId, l: Local, u: ThreadId, k: Local, op: Operation)
    requires Before(m, c, t, l, u, k) && l.pc.Idle? && Allowed(m, t, Call(op))
    ensures After(m, c, t, l, Result(c, Begin(op)), u, k)
  {
  }

  lemma AbortKeeps(m: Mode, c: Chan, t: ThreadId, l: Local, u: ThreadId, k: Local)
    requires Before(m, c, t, l, u, k) && Waiting(l.pc) && m.AnyRun?
    ensures After(m, c, t, l, Result(c, l.(pc := AfterWait(l.pc), aborted := true)), u, k)
  {
  }

  lemma LocalStepKeeps(m: Mode, c: Chan, t: ThreadId, l: Local, u: ThreadId, k: Local, mv: Move)
    requires Before(m, c, t, l, u, k) && Enabled(c, l.pc, mv) && Allowed(m, t, mv)
    ensures After(m, c, t, l, LocalStep(c, t, l, mv), u, k)
  {
    match mv
    case Call(op) => CallKeeps(m, c, t, l, u, k, op);
    case Abort => AbortKeeps(m, c, t, l, u, k);
    case Proceed => StatementKeeps(m, c, t, l, u, k);
  }

  /** The invariant is inductive in each kind of run. */
  lemma StepKeepsInv(m: Mode, s: State, t: ThreadId, mv: Move)
    requires Inv(m, s) && Ready(s, t, mv) && Allowed(m, t, mv)
    ensures Inv(m, Step(s, t, mv))
  {
    var s' := Step(s, t, mv);
    LocalStepKeeps(m, s.chan, t, At(s, t), t + 1, At(s, t + 1), mv);
    forall u ensures Claim(m, s'.chan, u, At(s', u)) {
      if u != t {
        LocalStepKeeps(m, s.chan, t, At(s, t), u, At(s, u), mv);
      }
    }
  }

  ghost predicate AllowedRun(m: Mode, actions: seq<Action>) {
    forall i :: 0 <= i < |actions| ==> Allowed(m, actions[i].thread, actions[i].move)
  }

  lemma RunSteps(m: Mode, states: seq<State>, actions: seq<Action>, i: nat)
    requires IsRun(states, actions) && AllowedRun(m, actions) && i < |actions|
    ensures |states| == |actions| + 1 && StepOf(states[i], actions[i], states[i + 1]) && Allowed(m, actions[i].thread, actions[i].move)
  {
    hide Step, Ready, Allowed;
  }

  lemma RunStarts(m: Mode, states: seq<State>, actions: seq<Action>)
    requires IsRun(states, actions)
    ensures |states| == |actions| + 1 && Inv(m, states[0])
  {
  }

  /** Every state of every run satisfies it. */
  lemma {:induction false} InvInRuns(m: Mode, states: seq<State>, actions: seq<Action>, i: nat)
    requires IsRun(states, actions) && AllowedRun(m, actions) && i < |states|
    ensures Inv(m, states[i])
  {
    hide IsRun, AllowedRun, Inv, Step, Allowed;
    RunStarts(m, states, actions);
    if i > 0 {
      InvInRuns(m, states, actions, i - 1);
      RunSteps(m, states, actions, i - 1);
      StepKeepsInv(m, states[i - 1], actions[i - 1].thread, actions[i - 1].move);
    }
  }
}
