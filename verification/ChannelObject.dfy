/** The channel as the object the threads share: each method executes the next statement of one
    thread, in place, and a scheduler interleaves them. */
module ChannelObject {
  import opened Words
  import opened Channel

  class ChannelMemory {
    var word: Word
    var owner: Option<ThreadId>
    var sendEvent: bool
    var recvEvent: bool
    var rcvdEvent: bool
    var replEvent: bool
    var waiters: int
    var released: bool
    var request: Bytes
    var reply: Bytes
    var locals: map<ThreadId, Local>
    var taker: ThreadId
    var hist: History

    function View(): State
      reads this
    {
      State(Chan(word, owner, sendEvent, recvEvent, rcvdEvent, replEvent, waiters, released, request, reply, taker, hist), locals)
    }

    /** The state after thread t's registers and the channel became r. */
    function With(t: ThreadId, r: Result): State
      reads this
    {
      State(r.chan, locals[t := r.local])
    }

    constructor (request: Bytes, reply: Bytes)
      ensures View() == Alloc(request, reply)
    {
      word, owner := Null, None;
      sendEvent, recvEvent, rcvdEvent, replEvent := true, false, false, false;
      waiters, released := 0, false;
      this.request, this.reply := request, reply;
      locals := map[];
      taker, hist := 0, History([], [], [], []);
    }

    method ExecuteSendEntry(t: ThreadId)
      requires At(View(), t).pc.SendEntry?
      modifies this
      ensures View() == old(With(t, SendEntryStep(View().chan, t, At(View(), t))))
    {
      var l := At(View(), t);
      match l.pc.se
      case SInc =>
        waiters := waiters + 1;
        locals := locals[t := l.(pc := SendEntry(SWait))];
      case SWait =>
        locals := locals[t := l.(pc := SendEntry(SCheck), aborted := false)];
      case SCheck =>
        locals := locals[t := l.(pc := if l.aborted || released then Leaving else SendEntry(SCas))];
      case SCas =>
        if word != Null {
          locals := locals[t := l.(pc := Leaving)];
        } else {
          word := Sent;
          locals := locals[t := l.(pc := Offering(SClear), won := true, slot := |hist.offers|)];
          hist := hist.(offers := hist.offers + [Offer(t, l.arg)]);
        }
    }

    method ExecuteOffering(t: ThreadId)
      requires At(View(), t).pc.Offering?
      modifies this
      ensures View() == old(With(t, OfferStep(View().chan, At(View(), t))))
    {
      var l := At(View(), t);
      match l.pc.so
      case SClear =>
        sendEvent := false;
        locals := locals[t := l.(pc := Offering(SCopy))];
      case SCopy =>
        request := l.arg;
        locals := locals[t := l.(pc := Offering(SSignal))];
      case SSignal =>
        recvEvent := true;
        locals := locals[t := l.(pc := Offering(SAwait))];
      case SAwait =>
        locals := locals[t := l.(pc := Collecting(SStatus), aborted := false)];
    }

    method ExecuteCollecting(t: ThreadId)
      requires At(View(), t).pc.Collecting?
      modifies this
      ensures View() == old(With(t, CollectStep(View().chan, t, At(View(), t))))
    {
      var l := At(View(), t);
      match l.pc.sc
      case SStatus =>
        locals := locals[t := l.(pc := Collecting(STake), succs := !l.aborted && !released)];
      case STake =>
        locals := locals[t := l.(pc := Collecting(SClearRepl), out := reply)];
        hist := hist.(results := hist.results + [Outcome(t, reply)]);
      case SClearRepl =>
        replEvent := false;
        locals := locals[t := l.(pc := Collecting(SDisown))];
      case SDisown =>
        owner := None;
        locals := locals[t := l.(pc := Collecting(SReset))];
      case SReset =>
        word := Null;
        locals := locals[t := l.(pc := Announcing)];
    }

    method ExecuteRecvEntry(t: ThreadId)
      requires At(View(), t).pc.RecvEntry?
      modifies this
      ensures View() == old(With(t, RecvEntryStep(View().chan, t, At(View(), t))))
    {
      var l := At(View(), t);
      match l.pc.re
      case RInc =>
        waiters := waiters + 1;
        locals := locals[t := l.(pc := RecvEntry(RWait))];
      case RWait =>
        locals := locals[t := l.(pc := RecvEntry(RCheck), aborted := false)];
      case RCheck =>
        locals := locals[t := l.(pc := if l.aborted || released then Leaving else RecvEntry(RCas))];
      case RCas =>
        if word != Sent {
          locals := locals[t := l.(pc := RecvEntry(RWait))];
        } else {
          word, taker := Recved, t;
          locals := locals[t := l.(pc := Taking(ROwn))];
        }
    }

    method ExecuteTaking(t: ThreadId)
      requires At(View(), t).pc.Taking?
      modifies this
      ensures View() == old(With(t, TakeStep(View().chan, t, At(View(), t))))
    {
      var l := At(View(), t);
      match l.pc.rt
      case ROwn =>
        if owner != None {
          locals := locals[t := l.(pc := RecvEntry(RWait))];
        } else {
          owner := Some(t);
          locals := locals[t := l.(pc := Taking(RClear))];
        }
      case RClear =>
        recvEvent := false;
        locals := locals[t := l.(pc := Taking(RCopy))];
      case RCopy =>
        locals := locals[t := l.(pc := Taking(RSignal), out := request, slot := |hist.delivered|)];
        hist := hist.(delivered := hist.delivered + [request]);
      case RSignal =>
        rcvdEvent := true;
        locals := locals[t := l.(pc := Leaving, succs := true)];
    }

    method ExecuteReplyEntry(t: ThreadId)
      requires At(View(), t).pc.ReplyEntry?
      modifies this
      ensures View() == old(With(t, ReplyEntryStep(View().chan, t, At(View(), t))))
    {
      var l := At(View(), t);
      match l.pc.pe
      case PInc =>
        waiters := waiters + 1;
        locals := locals[t := l.(pc := ReplyEntry(PWait))];
      case PWait =>
        locals := locals[t := l.(pc := ReplyEntry(PCheck), aborted := false)];
      case PCheck =>
        locals := locals[t := l.(pc := if l.aborted || released then Leaving else ReplyEntry(POwner))];
      case POwner =>
        locals := locals[t := l.(pc := ReplyEntry(if owner != Some(t) then PWait else PCas))];
      case PCas =>
        if word != Recved {
          locals := locals[t := l.(pc := ReplyEntry(PWait))];
        } else {
          word := Replayed;
          locals := locals[t := l.(pc := Answering(PClear))];
        }
    }

    method ExecuteAnswering(t: ThreadId)
      requires At(View(), t).pc.Answering?
      modifies this
      ensures View() == old(With(t, AnswerStep(View().chan, At(View(), t))))
    {
      var l := At(View(), t);
      match l.pc.pa
      case PClear =>
        rcvdEvent := false;
        locals := locals[t := l.(pc := Answering(PCopy))];
      case PCopy =>
        reply := l.arg;
        locals := locals[t := l.(pc := Answering(PSignal), slot := |hist.replies|)];
        hist := hist.(replies := hist.replies + [l.arg]);
      case PSignal =>
        replEvent := true;
        locals := locals[t := l.(pc := Leaving, succs := true)];
    }

    method ExecuteReleasing(t: ThreadId)
      requires At(View(), t).pc.Releasing?
      modifies this
      ensures View() == old(With(t, ReleaseStep(View().chan, At(View(), t))))
    {
      var l := At(View(), t);
      match l.pc.x
      case XFlag =>
        released := true;
        locals := locals[t := l.(pc := Releasing(XSend))];
      case XSend =>
        sendEvent := true;
        locals := locals[t := l.(pc := Releasing(XRecv))];
      case XRecv =>
        recvEvent := true;
        locals := locals[t := l.(pc := Releasing(XRcvd))];
      case XRcvd =>
        rcvdEvent := true;
        locals := locals[t := l.(pc := Releasing(XRepl))];
      case XRepl =>
        replEvent := true;
        locals := locals[t := l.(pc := Idle)];
    }

    method ExecuteStatement(t: ThreadId)
      requires At(View(), t).pc != Idle
      modifies this
      ensures View() == old(With(t, Statement(View().chan, t, At(View(), t))))
    {
      var l := At(View(), t);
      match l.pc
      case SendEntry(_) => ExecuteSendEntry(t);
      case Offering(_) => ExecuteOffering(t);
      case Collecting(_) => ExecuteCollecting(t);
      case Announcing =>
        sendEvent := true;
        locals := locals[t := l.(pc := Leaving)];
      case RecvEntry(_) => ExecuteRecvEntry(t);
      case Taking(_) => ExecuteTaking(t);
      case ReplyEntry(_) => ExecuteReplyEntry(t);
      case Answering(_) => ExecuteAnswering(t);
      case Leaving =>
        waiters := waiters - 1;
        locals := locals[t := l.(pc := Idle)];
      case Releasing(_) => ExecuteReleasing(t);
    }

    method Execute(t: ThreadId, mv: Move)
      requires Ready(View(), t, mv)
      modifies this
      ensures View() == old(Step(View(), t, mv))
    {
      var l := At(View(), t);
      match mv
      case Call(op) => locals := locals[t := Begin(op)];
      case Abort => locals := locals[t := l.(pc := AfterWait(l.pc), aborted := true)];
      case Proceed => ExecuteStatement(t);
    }

    /** Lets the threads of the schedule move in turn, passing over a thread that cannot. */
    method Interleave(schedule: seq<Action>) returns (done: seq<Action>, ghost states: seq<State>)
      requires View() == Alloc(request, reply)
      modifies this
      ensures IsRun(states, done) && states[|done|] == View()
    {
      done, states := [], [View()];
      for i := 0 to |schedule|
        invariant IsRun(states, done) && states[|done|] == View()
      {
        var a := schedule[i];
        if Ready(View(), a.thread, a.move) {
          ghost var before, soFar := View(), done;
          Execute(a.thread, a.move);
          done, states := done + [a], states + [View()];
          RunExtends(states[..|states| - 1], soFar, a, View());
          assert states[..|states| - 1] + [View()] == states;
        }
      }
    }
  }

  lemma RunExtends(states: seq<State>, actions: seq<Action>, a: Action, s: State)
    requires IsRun(states, actions) && StepOf(states[|actions|], a, s)
    ensures IsRun(states + [s], actions + [a])
  {
    forall i | 0 <= i < |actions| + 1 ensures StepOf((states + [s])[i], (actions + [a])[i], (states + [s])[i + 1]) {
    }
  }
}
