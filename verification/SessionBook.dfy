/** What a debugger sees of the session list: who debugs which process, and what each session has asked to
    be told. */
module SessionBook {
  import opened Words
  import opened DbgItem

  /** One call of the interface, or of the hooks behind it.  `target` is None when the process identifier is
      unknown; `started` says whether a terminate event could be allocated and its thread created. */
  datatype Call =
    | AttachTo(me: Process, sizeOk: bool, target: Option<Process>)
    | Filter(me: Process, sizeOk: bool, target: Option<Process>, mask: nat)
    | Channel(me: Process, sizeOk: bool, target: Option<Process>, channelResult: bool)
    | Terminate(process: Process, started: bool)
    | Delayed(i: ItemId)

  /** `pending` counts the terminate events on their way to the debugger. */
  datatype Session = Session(id: ItemId, debugger: Process, mask: nat, pending: nat)

  /** The sessions by debugged process, and the number of the next session. */
  datatype Book = Book(next: ItemId, sessions: map<Process, Session>)

  predicate Owns(b: Book, me: Process, target: Option<Process>) {
    target.Some? && target.value in b.sessions && b.sessions[target.value].debugger == me
  }

  /** The event code of a terminated debuggee is 2: bit 1 of the mask. */
  predicate AsksForTermination(mask: nat) {
    mask % 4 == 2 || mask % 4 == 3
  }

  /** The sessions that outlive their debugger's termination. */
  function Orphaned(b: Book, process: Process): Book {
    b.(sessions := map p | p in b.sessions && b.sessions[p].debugger != process :: b.sessions[p])
  }

  /** The book after a call, and what the call answers: success, or that the debugger is told of the
      termination. */
  function Next(b: Book, c: Call): (Book, bool) {
    match c
    case AttachTo(me, sizeOk, target) =>
      if sizeOk && target.Some? && target.value != me && target.value !in b.sessions
      then (Book(b.next + 1, b.sessions[target.value := Session(b.next, me, 0, 0)]), true)
      else (b, false)
    case Filter(me, sizeOk, target, mask) =>
      if sizeOk && Owns(b, me, target)
      then (b.(sessions := b.sessions[target.value := b.sessions[target.value].(mask := mask)]), true)
      else (b, false)
    case Channel(me, sizeOk, target, channelResult) => (b, sizeOk && Owns(b, me, target) && channelResult)
    case Terminate(process, started) =>
      var left := Orphaned(b, process);
      if process in left.sessions && AsksForTermination(left.sessions[process].mask) && started
      then (left.(sessions := left.sessions[process := left.sessions[process].(pending := left.sessions[process].pending + 1)]), true)
      else (left, false)
    case Delayed(i) =>
      var told := map p | p in b.sessions && !(b.sessions[p].id == i && b.sessions[p].pending > 0) :: b.sessions[p];
      (b.(sessions := told), told != b.sessions)
  }

  const EMPTY := Book(0, map[])

  function Run(calls: seq<Call>): (Book, seq<bool>) {
    if calls == [] then (EMPTY, [])
    else
      var (b, answers) := Run(calls[..|calls| - 1]);
      var (b', answer) := Next(b, calls[|calls| - 1]);
      (b', answers + [answer])
  }

  // ----------------------------------------------------------------------------------------------
  // What a debugger can rely on

  /** The mask that the session of this process was given last: by a filter call of its own debugger. */
  predicate Sets(b: Book, c: Call, p: Process) {
    c.Filter? && c.sizeOk && c.target == Some(p) && Owns(b, c.me, c.target)
  }

  /** The mask of the session on p after the calls: that of the last filter call its debugger made since it
      attached. */
  function MaskAsked(calls: seq<Call>, p: Process): nat {
    if calls == [] then 0
    else
      var before, c := calls[..|calls| - 1], calls[|calls| - 1];
      if p !in Run(before).0.sessions then 0
      else if Sets(Run(before).0, c, p) then c.mask
      else MaskAsked(before, p)
  }

  lemma {:induction false} MaskIsAsked(calls: seq<Call>, p: Process)
    requires p in Run(calls).0.sessions
    ensures Run(calls).0.sessions[p].mask == MaskAsked(calls, p)
  {
    var before := calls[..|calls| - 1];
    if p in Run(before).0.sessions {
      MaskIsAsked(before, p);
    }
  }

  /** A debugger is told of its debuggee's termination exactly if the last filter call it made since it
      attached had bit value 2, and the event could be started. */
  lemma ToldIffAsked(calls: seq<Call>, p: Process, started: bool)
    ensures Next(Run(calls).0, Terminate(p, started)).1 <==>
      started && p in Run(calls).0.sessions && MaskAsked(calls, p) / 2 % 2 == 1
  {
    hide Run, MaskAsked;
    if p in Run(calls).0.sessions {
      MaskIsAsked(calls, p);
      DebuggersDiffer(calls, p);
    }
  }

  /** Nobody debugs itself. */
  lemma {:induction false} DebuggersDiffer(calls: seq<Call>, p: Process)
    requires p in Run(calls).0.sessions
    ensures Run(calls).0.sessions[p].debugger != p && Run(calls).0.sessions[p].id < Run(calls).0.next
  {
    var before := calls[..|calls| - 1];
    if p in Run(before).0.sessions {
      DebuggersDiffer(before, p);
    }
  }
}
