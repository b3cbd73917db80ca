/** The all-CPU stop around a code patch: global_lock, global_lock_proc and global_unlock on any
    number of processors, one patcher at a time, over any number of rounds.  Every plain store,
    interlocked decrement, loop test and interrupt-flag change is one step. */
module Barrier {
  type Cpu = nat

  /** The patching thread, from the allocation in global_lock to the return of global_unlock. */
  datatype PatcherPc =
    | PIdle | PRaise | PLock | PSetInp | PSetOut | PSetRefs
    | PQueue(i: nat)             // the loop that queues a DPC to every other processor
    | PSpinIn | PDisable
    | PPatch                     // global_lock has returned; the splice is being written
    | PUnlock | PSpinOut | PEnable | PLower

  /** A processor: in ordinary code, in ordinary code with the DPC queued, or in global_lock_proc. */
  datatype CpuPc = Running | Queued | DDisable | DDecInp | DSpin | DEnable | DDecRefs | DFree | DDecOut

  datatype State = State(
    n: nat, p: Cpu, ppc: PatcherPc,
    locked: bool, inp: int, out: int, refs: int,
    live: bool, frees: nat,          // the DPC block of this round: allocated and not freed; times freed
    freer: Cpu,                      // bookkeeping: the processor that dropped the last reference
    writes: nat, written: nat,       // what the patch consists of, and how much of it is done
    cpus: seq<CpuPc>, irqs: seq<bool>)

  datatype Move = Start(p: Cpu, writes: nat) | Patcher | Processor(c: Cpu)

  function Boot(n: nat): State {
    State(n, 0, PIdle, false, 0, 0, 0, false, 0, 0, 0, 0, seq(n, _ => Running), seq(n, _ => true))
  }

  predicate Enabled(s: State, mv: Move) {
    && |s.cpus| == s.n && |s.irqs| == s.n
    && match mv
       case Start(p, _) => s.ppc.PIdle? && p < s.n && s.cpus[p].Running?
       case Patcher => !s.ppc.PIdle? && s.p < s.n
       case Processor(c) => c < s.n && !s.cpus[c].Running?
  }

  /** global_lock, the patch, and global_unlock. */
  function PatcherStep(s: State): State
    requires Enabled(s, Patcher)
  {
    match s.ppc
    case PIdle => s
    case PRaise => s.(ppc := PLock)
    case PLock => s.(locked := true, ppc := PSetInp)
    case PSetInp => s.(inp := s.n - 1, ppc := PSetOut)
    case PSetOut => s.(out := s.inp, ppc := PSetRefs)
    case PSetRefs => s.(refs := s.inp, ppc := PQueue(0))
    case PQueue(i) =>
      if i >= s.n then s.(ppc := PSpinIn)
      else if i == s.p then s.(ppc := PQueue(i + 1))
      else s.(cpus := s.cpus[i := Queued], ppc := PQueue(i + 1))
    case PSpinIn => if s.inp != 0 then s else s.(ppc := PDisable)
    case PDisable => s.(irqs := s.irqs[s.p := false], ppc := PPatch)
    case PPatch => if s.written < s.writes then s.(written := s.written + 1) else s.(ppc := PUnlock)
    case PUnlock => s.(locked := false, ppc := PSpinOut)
    case PSpinOut => if s.out != 0 then s else s.(ppc := PEnable)
    case PEnable => s.(irqs := s.irqs[s.p := true], ppc := PLower)
    case PLower => s.(ppc := PIdle)
  }

  /** global_lock_proc on processor c. */
  function ProcessorStep(s: State, c: Cpu): State
    requires Enabled(s, Processor(c))
  {
    match s.cpus[c]
    case Running => s
    case Queued => s.(cpus := s.cpus[c := DDisable])
    case DDisable => s.(irqs := s.irqs[c := false], cpus := s.cpus[c := DDecInp])
    case DDecInp => s.(inp := s.inp - 1, cpus := s.cpus[c := DSpin])
    case DSpin => if s.locked then s else s.(cpus := s.cpus[c := DEnable])
    case DEnable => s.(irqs := s.irqs[c := true], cpus := s.cpus[c := DDecRefs])
    case DDecRefs =>
      if s.refs - 1 == 0 then s.(refs := 0, freer := c, cpus := s.cpus[c := DFree])
      else s.(refs := s.refs - 1, cpus := s.cpus[c := DDecOut])
    case DFree => s.(live := false, frees := s.frees + 1, cpus := s.cpus[c := DDecOut])
    case DDecOut => s.(out := s.out - 1, cpus := s.cpus[c := Running])
  }

  function Step(s: State, mv: Move): State
    requires Enabled(s, mv)
  {
    match mv
    case Start(p, writes) => s.(p := p, live := true, frees := 0, writes := writes, written := 0, ppc := PRaise)
    case Patcher => PatcherStep(s)
    case Processor(c) => ProcessorStep(s, c)
  }

  // ----------------------------------------------------------------------------------------------
  // Who still owes which decrement

  datatype Counter = Inp | Refs | Out

  /** Processor c's DPC has not been queued yet, but the counter already includes it. */
  predicate Expected(s: State, k: Counter, c: Cpu) {
    c != s.p && (
      match s.ppc
      case PSetOut => k.Inp?
      case PSetRefs => k.Inp? || k.Out?
      case PQueue(i) => c >= i
      case _ => false)
  }

  predicate Before(k: Counter, pc: CpuPc) {
    match k
    case Inp => pc.Queued? || pc.DDisable? || pc.DDecInp?
    case Refs => pc.Queued? || pc.DDisable? || pc.DDecInp? || pc.DSpin? || pc.DEnable? || pc.DDecRefs?
    case Out => !pc.Running?
  }

  predicate Owes(s: State, k: Counter, c: Cpu)
    requires |s.cpus| == s.n
  {
    c < s.n && (Expected(s, k, c) || Before(k, s.cpus[c]))
  }

  function Owing(s: State, k: Counter): set<Cpu>
    requires |s.cpus| == s.n
  {
    set c | 0 <= c < s.n && Owes(s, k, c)
  }

  function Value(s: State, k: Counter): int {
    match k
    case Inp => s.inp
    case Refs => s.refs
    case Out => s.out
  }

  /** From the queueing on, until all DPCs have finished. */
  predicate DpcsOut(pc: PatcherPc) {
    pc.PQueue? || pc.PSpinIn? || pc.PDisable? || pc.PPatch? || pc.PUnlock? || pc.PSpinOut?
  }

  /** global_lock has seen inp_dpcs reach zero, and locked has not been cleared. */
  predicate Stopped(pc: PatcherPc) {
    pc.PDisable? || pc.PPatch? || pc.PUnlock?
  }

  predicate LockHeld(pc: PatcherPc) {
    pc.PSetInp? || pc.PSetOut? || pc.PSetRefs? || pc.PQueue? || pc.PSpinIn? || Stopped(pc)
  }

  predicate IrqsOff(pc: CpuPc) {
    pc.DDecInp? || pc.DSpin? || pc.DEnable?
  }

  /** What holds of processor c. */
  predicate CpuOk(s: State, c: Cpu)
    requires |s.cpus| == s.n && |s.irqs| == s.n && c < s.n
  {
    var pc := s.cpus[c];
    && (!DpcsOut(s.ppc) || c == s.p || (s.ppc.PQueue? && c >= s.ppc.i) ==> pc.Running?)
    && (s.locked && DpcsOut(s.ppc) && c != s.p && !(s.ppc.PQueue? && c >= s.ppc.i) ==> !pc.Running?)
    && (s.locked ==> !pc.DEnable? && !pc.DDecRefs? && !pc.DFree? && !pc.DDecOut?)
    && (Stopped(s.ppc) ==> !Before(Inp, pc))
    && (s.irqs[c] <==> !IrqsOff(pc) && !(c == s.p && (s.ppc.PPatch? || s.ppc.PUnlock? || s.ppc.PSpinOut? || s.ppc.PEnable?)))
    && (pc.DFree? ==> c == s.freer && s.refs == 0 && s.live && s.frees == 0)
  }

  /** The DPC block is there while some DPC still holds a reference; then the last one frees it.  With
      a single processor there is no DPC, and nobody frees it. */
  predicate BlockOk(s: State) {
    if s.ppc.PIdle? then true
    else if s.ppc.PRaise? || s.ppc.PLock? || s.ppc.PSetInp? || s.ppc.PSetOut? || s.ppc.PSetRefs? || s.refs > 0 then
      s.live && s.frees == 0
    else if s.n == 1 then s.live && s.frees == 0
    else if s.live then s.frees == 0 && s.freer < |s.cpus| && s.cpus[s.freer].DFree?
    else s.frees == 1
  }

  predicate Shared(s: State) {
    && |s.cpus| == s.n && |s.irqs| == s.n
    && (!s.ppc.PIdle? ==> s.p < s.n)
    && (s.locked <==> LockHeld(s.ppc))
    && (s.live ==> s.frees == 0)
    && (s.ppc.PPatch? || s.ppc.PUnlock? || s.ppc.PSpinOut? || s.ppc.PEnable? || s.ppc.PLower? ==> s.written <= s.writes)
    && (s.ppc.PUnlock? || s.ppc.PSpinOut? || s.ppc.PEnable? || s.ppc.PLower? ==> s.written == s.writes)
    && (!s.ppc.PIdle? && !s.ppc.PPatch? && !s.ppc.PUnlock? && !s.ppc.PSpinOut? && !s.ppc.PEnable? && !s.ppc.PLower? ==> s.written == 0)
    && BlockOk(s)
  }

  ghost predicate CountersOk(s: State)
    requires |s.cpus| == s.n
  {
    forall k :: Value(s, k) == |Owing(s, k)|
  }

  ghost predicate Inv(s: State) {
    Shared(s) && CountersOk(s) && forall c: Cpu :: c < s.n ==> CpuOk(s, c)
  }

  // ----------------------------------------------------------------------------------------------
  // Counting

  function One(b: bool): int {
    if b then 1 else 0
  }

  lemma CountOthers(a: set<Cpu>, c: Cpu)
    ensures |a - {c}| == |a| - One(c in a)
  {
    if c !in a {
      assert a - {c} == a;
    }
  }

  /** If only c's debts change, the number of debtors changes with them. */
  lemma CountChange(s: State, s': State, k: Counter, c: Cpu)
    requires |s.cpus| == s.n && |s'.cpus| == s'.n && s'.n == s.n
    requires forall d: Cpu :: d != c ==> (Owes(s', k, d) <==> Owes(s, k, d))
    ensures |Owing(s', k)| - One(Owes(s', k, c)) == |Owing(s, k)| - One(Owes(s, k, c))
  {
    CountOthers(Owing(s, k), c);
    CountOthers(Owing(s', k), c);
    assert Owing(s', k) - {c} == Owing(s, k) - {c};
  }

  function Upto(n: nat): (all: set<Cpu>)
    ensures |all| == n && forall c: Cpu :: c in all <==> c < n
  {
    if n == 0 then {} else Upto(n - 1) + {n - 1}
  }

  /** All processors but the patcher's: n - 1 of them. */
  lemma CountExpected(s: State, k: Counter)
    requires |s.cpus| == s.n && s.p < s.n
    requires forall c: Cpu :: c < s.n ==> (Owes(s, k, c) <==> c != s.p)
    ensures |Owing(s, k)| == s.n - 1
  {
    CountOthers(Upto(s.n), s.p);
    assert Owing(s, k) == Upto(s.n) - {s.p};
  }

  lemma SameCount(s: State, s': State, k: Counter)
    requires |s.cpus| == s.n && |s'.cpus| == s'.n && s'.n == s.n
    requires forall c: Cpu :: Owes(s', k, c) <==> Owes(s, k, c)
    ensures |Owing(s', k)| == |Owing(s, k)|
  {
    assert Owing(s', k) == Owing(s, k);
  }

  lemma NobodyOwes(s: State, k: Counter, c: Cpu)
    requires |s.cpus| == s.n && |Owing(s, k)| == 0
    ensures !Owes(s, k, c)
  {
    assert c !in Owing(s, k);
  }

  lemma SomebodyOwes(s: State, k: Counter, c: Cpu)
    requires |s.cpus| == s.n && Owes(s, k, c)
    ensures |Owing(s, k)| > 0
  {
    assert c in Owing(s, k);
  }

  // ----------------------------------------------------------------------------------------------
  // global_lock_proc keeps the invariant

  lemma OwnDebts(s: State, c: Cpu, k: Counter)
    requires Enabled(s, Processor(c)) && c != s.p && !Expected(s, k, c)
    ensures var s' := ProcessorStep(s, c);
            |s'.cpus| == s.n && Value(s', k) - One(Owes(s', k, c)) == Value(s, k) - One(Owes(s, k, c))
  {
    match s.cpus[c] {
      case Queued => case DDisable => case DDecInp => case DSpin => case DEnable => case DDecRefs => case DFree => case DDecOut =>
    }
  }

  lemma OthersDebts(s: State, c: Cpu, k: Counter, d: Cpu)
    requires Enabled(s, Processor(c)) && d != c
    ensures var s' := ProcessorStep(s, c);
            |s'.cpus| == s'.n == s.n && (Owes(s', k, d) <==> Owes(s, k, d))
  {
  }

  lemma ProcessorKeepsCounters(s: State, c: Cpu, k: Counter)
    requires Inv(s) && Enabled(s, Processor(c))
    ensures var s' := ProcessorStep(s, c);
            |s'.cpus| == s'.n && Value(s', k) == |Owing(s', k)|
  {
    var s' := ProcessorStep(s, c);
    assert CpuOk(s, c);
    OwnDebts(s, c, k);
    forall d: Cpu | d != c ensures |s'.cpus| == s'.n == s.n && (Owes(s', k, d) <==> Owes(s, k, d)) {
      OthersDebts(s, c, k, d);
    }
    CountChange(s, s', k, c);
  }

  lemma OwnCpuOk(s: State, c: Cpu)
    requires Enabled(s, Processor(c)) && Shared(s) && CpuOk(s, c)
    requires s.cpus[c].DDecRefs? ==> s.refs > 0
    ensures var s' := ProcessorStep(s, c);
            |s'.cpus| == s'.n && |s'.irqs| == s'.n && CpuOk(s', c)
  {
  }

  lemma OthersCpuOk(s: State, c: Cpu, d: Cpu)
    requires Enabled(s, Processor(c)) && Shared(s) && CpuOk(s, c) && d < s.n && CpuOk(s, d) && c != d
    requires s.cpus[c].DDecRefs? ==> s.refs > 0
    ensures var s' := ProcessorStep(s, c);
            |s'.cpus| == s'.n && |s'.irqs| == s'.n && CpuOk(s', d)
  {
  }

  lemma ProcessorKeepsShared(s: State, c: Cpu)
    requires Enabled(s, Processor(c)) && Shared(s) && CpuOk(s, c)
    requires s.cpus[c].DDecRefs? ==> s.refs > 0
    requires s.ppc.PIdle? || s.refs > 0 || s.freer >= s.n || CpuOk(s, s.freer)
    ensures Shared(ProcessorStep(s, c))
  {
  }

  lemma ProcessorKeepsInv(s: State, c: Cpu)
    requires Inv(s) && Enabled(s, Processor(c))
    ensures Inv(ProcessorStep(s, c))
  {
    var s' := ProcessorStep(s, c);
    assert CpuOk(s, c);
    if s.cpus[c].DDecRefs? {
      assert Value(s, Refs) == |Owing(s, Refs)|;
      SomebodyOwes(s, Refs, c);
    }
    ProcessorKeepsShared(s, c);
    forall k ensures Value(s', k) == |Owing(s', k)| {
      ProcessorKeepsCounters(s, c, k);
    }
    forall d: Cpu | d < s'.n ensures CpuOk(s', d) {
      if d == c {
        OwnCpuOk(s, c);
      } else {
        OthersCpuOk(s, c, d);
      }
    }
  }

  // ----------------------------------------------------------------------------------------------
  // global_lock and global_unlock keep the invariant

  /** What the spin loops have learnt when they end. */
  predicate SpinsOver(s: State, c: Cpu)
    requires |s.cpus| == s.n
  {
    && (s.ppc.PSpinIn? && s.inp == 0 ==> !Owes(s, Inp, c))
    && (s.ppc.PSpinOut? && s.out == 0 ==> !Owes(s, Out, c))
  }

  lemma QueueingCpuOk(s: State, c: Cpu)
    requires Enabled(s, Patcher) && Shared(s) && c < s.n && CpuOk(s, c) && s.ppc.PQueue?
    ensures CpuOk(PatcherStep(s), c)
  {
  }

  lemma PatcherCpuOk(s: State, c: Cpu)
    requires Enabled(s, Patcher) && Shared(s) && c < s.n && CpuOk(s, c) && SpinsOver(s, c)
    requires !s.ppc.PQueue?
    ensures var s' := PatcherStep(s);
            |s'.cpus| == s'.n && |s'.irqs| == s'.n && CpuOk(s', c)
  {
    match s.ppc {
      case PRaise => case PLock => case PSetInp => case PSetOut => case PSetRefs => case PSpinIn => case PDisable =>
      case PPatch => case PUnlock => case PSpinOut => case PEnable => case PLower =>
    }
  }

  lemma PatcherKeepsShared(s: State)
    requires Enabled(s, Patcher) && Shared(s) && !s.ppc.PQueue?
    requires s.refs >= 0 && (s.ppc.PSetRefs? ==> s.inp == s.n - 1)
    ensures Shared(PatcherStep(s))
  {
    match s.ppc {
      case PRaise => case PLock => case PSetInp => case PSetOut => case PSetRefs => case PSpinIn =>
      case PDisable => case PPatch => case PUnlock => case PSpinOut => case PEnable => case PLower =>
    }
  }

  lemma QueueingKeepsShared(s: State)
    requires Enabled(s, Patcher) && Shared(s) && s.ppc.PQueue?
    requires s.freer < s.n ==> CpuOk(s, s.freer)
    ensures Shared(PatcherStep(s))
  {
  }

  predicate SetsCounter(pc: PatcherPc, k: Counter) {
    match k
    case Inp => pc.PSetInp?
    case Out => pc.PSetOut?
    case Refs => pc.PSetRefs?
  }

  lemma PatcherDebts(s: State, k: Counter, c: Cpu)
    requires Enabled(s, Patcher) && Shared(s) && (c < s.n ==> CpuOk(s, c)) && !SetsCounter(s.ppc, k)
    ensures var s' := PatcherStep(s);
            |s'.cpus| == s'.n == s.n && (Owes(s', k, c) <==> Owes(s, k, c)) && Value(s', k) == Value(s, k)
  {
    match s.ppc {
      case PRaise => case PLock => case PSetInp => case PSetOut => case PSetRefs => case PQueue(_) => case PSpinIn =>
      case PDisable => case PPatch => case PUnlock => case PSpinOut => case PEnable => case PLower =>
    }
  }

  lemma PatcherSetsDebt(s: State, k: Counter, c: Cpu)
    requires Enabled(s, Patcher) && Shared(s) && c < s.n && CpuOk(s, c) && SetsCounter(s.ppc, k)
    ensures var s' := PatcherStep(s);
            |s'.cpus| == s'.n == s.n && s'.p == s.p && (Owes(s', k, c) <==> c != s.p)
  {
  }

  /** While the counters are being set, inp_dpcs already has its value. */
  lemma InpWhileSetting(s: State)
    requires Inv(s) && s.p < s.n && (s.ppc.PSetOut? || s.ppc.PSetRefs?)
    ensures s.inp == s.n - 1
  {
    forall c: Cpu | c < s.n ensures Owes(s, Inp, c) <==> c != s.p {
      assert CpuOk(s, c);
    }
    CountExpected(s, Inp);
    assert Value(s, Inp) == |Owing(s, Inp)|;
  }

  lemma PatcherKeepsCounters(s: State, k: Counter)
    requires Inv(s) && Enabled(s, Patcher)
    ensures var s' := PatcherStep(s);
            |s'.cpus| == s'.n && Value(s', k) == |Owing(s', k)|
  {
    var s' := PatcherStep(s);
    if SetsCounter(s.ppc, k) {
      if !k.Inp? {
        InpWhileSetting(s);
      }
      forall c: Cpu | c < s.n ensures |s'.cpus| == s'.n == s.n && s'.p == s.p && (Owes(s', k, c) <==> c != s.p) {
        PatcherSetsDebt(s, k, c);
      }
      CountExpected(s', k);
    } else {
      PatcherDebts(s, k, s.n);
      forall c: Cpu ensures Owes(s', k, c) <==> Owes(s, k, c) {
        PatcherDebts(s, k, c);
      }
      SameCount(s, s', k);
    }
  }

  lemma CounterNonNegative(s: State, k: Counter)
    requires |s.cpus| == s.n && CountersOk(s)
    ensures Value(s, k) >= 0
    ensures Value(s, k) == 0 ==> forall c :: !Owes(s, k, c)
  {
    assert Value(s, k) == |Owing(s, k)|;
    if Value(s, k) == 0 {
      forall c ensures !Owes(s, k, c) {
        NobodyOwes(s, k, c);
      }
    }
  }

  lemma PatcherKeepsInv(s: State)
    requires Inv(s) && Enabled(s, Patcher)
    ensures Inv(PatcherStep(s))
  {
    var s' := PatcherStep(s);
    CounterNonNegative(s, Inp);
    CounterNonNegative(s, Out);
    CounterNonNegative(s, Refs);
    if s.ppc.PQueue? {
      QueueingKeepsShared(s);
    } else {
      if s.ppc.PSetRefs? {
        InpWhileSetting(s);
      }
      PatcherKeepsShared(s);
    }
    forall k ensures Value(s', k) == |Owing(s', k)| {
      PatcherKeepsCounters(s, k);
    }
    forall c: Cpu | c < s'.n ensures CpuOk(s', c) {
      if s.ppc.PQueue? {
        QueueingCpuOk(s, c);
      } else {
        PatcherCpuOk(s, c);
      }
    }
  }

  lemma StartKeepsInv(s: State, p: Cpu, writes: nat)
    requires Inv(s) && Enabled(s, Start(p, writes))
    ensures Inv(Step(s, Start(p, writes)))
  {
    var s' := Step(s, Start(p, writes));
    forall k ensures Value(s', k) == |Owing(s', k)| {
      assert Value(s, k) == |Owing(s, k)|;
      forall c: Cpu ensures Owes(s', k, c) <==> Owes(s, k, c) {
      }
      SameCount(s, s', k);
    }
    forall c: Cpu | c < s'.n ensures CpuOk(s', c) {
      assert CpuOk(s, c);
    }
  }

  lemma StepKeepsInv(s: State, mv: Move)
    requires Inv(s) && Enabled(s, mv)
    ensures Inv(Step(s, mv))
  {
    match mv
    case Start(p, writes) => StartKeepsInv(s, p, writes);
    case Patcher => PatcherKeepsInv(s);
    case Processor(c) => ProcessorKeepsInv(s, c);
  }

  lemma BootInv(n: nat)
    ensures Inv(Boot(n))
  {
    forall k ensures Value(Boot(n), k) == |Owing(Boot(n), k)| {
      assert Owing(Boot(n), k) == {};
    }
  }

  // ----------------------------------------------------------------------------------------------
  // Runs

  ghost predicate IsRun(states: seq<State>, moves: seq<Move>) {
    && |states| == |moves| + 1
    && states[0] == Boot(states[0].n)
    && forall i :: 0 <= i < |moves| ==> StepOf(states[i], moves[i], states[i + 1])
  }

  ghost predicate StepOf(s: State, mv: Move, s': State) {
    Enabled(s, mv) && s' == Step(s, mv)
  }

  lemma {:induction false} InvInRuns(states: seq<State>, moves: seq<Move>, i: nat)
    requires IsRun(states, moves) && i < |states|
    ensures Inv(states[i])
  {
    if i == 0 {
      BootInv(states[0].n);
    } else {
      InvInRuns(states, moves, i - 1);
      assert StepOf(states[i - 1], moves[i - 1], states[i]);
      StepKeepsInv(states[i - 1], moves[i - 1]);
    }
  }

  // ----------------------------------------------------------------------------------------------
  // What the barrier guarantees, for any number of processors and rounds

  /** From the return of global_lock until global_unlock clears `locked`, while the splice is being
      written, every other processor is in the spin loop of global_lock_proc with interrupts off, and
      the patching processor has its interrupts off too. */
  lemma PatchRunsAlone(states: seq<State>, moves: seq<Move>, i: nat)
    requires IsRun(states, moves) && i < |states|
    requires states[i].ppc.PPatch? || states[i].ppc.PUnlock?
    ensures var s := states[i];
            && s.p < s.n == |s.cpus| == |s.irqs| && s.cpus[s.p].Running? && !s.irqs[s.p]
            && forall c: Cpu :: c < s.n && c != s.p ==> s.cpus[c].DSpin? && !s.irqs[c]
  {
    var s := states[i];
    InvInRuns(states, moves, i);
    assert CpuOk(s, s.p);
    forall c: Cpu | c < s.n && c != s.p ensures s.cpus[c].DSpin? && !s.irqs[c] {
      assert CpuOk(s, c);
    }
  }

  /** Every write of the patch is made while the patcher is alone. */
  lemma WritesAreMadeAlone(states: seq<State>, moves: seq<Move>, i: nat, c: Cpu)
    requires IsRun(states, moves) && i < |moves| && states[i + 1].written > states[i].written
    ensures var s := states[i];
      && moves[i].Patcher? && s.locked && s.p < s.n == |s.irqs| == |s.cpus| && !s.irqs[s.p]
      && (c < s.n && c != s.p ==> s.cpus[c].DSpin? && !s.irqs[c])
  {
    var s := states[i];
    assert StepOf(s, moves[i], states[i + 1]);
    if moves[i].Processor? {
      ProcessorWritesNothing(s, moves[i].c);
    } else if moves[i].Patcher? {
      OnlyPatchingWrites(s);
    }
    InvInRuns(states, moves, i);
    PatchRunsAlone(states, moves, i);
  }

  lemma ProcessorWritesNothing(s: State, c: Cpu)
    requires Enabled(s, Processor(c))
    ensures ProcessorStep(s, c).written == s.written
  {
  }

  lemma OnlyPatchingWrites(s: State)
    requires Enabled(s, Patcher) && PatcherStep(s).written > s.written
    ensures s.ppc.PPatch?
  {
  }

  /** When the loop of global_unlock has ended, the whole patch has been written, every DPC routine has passed
      its last decrement, the counters are back at zero, and the DPC block has been freed exactly once if
      and only if there was a second processor; in the end interrupts are back on everywhere. */
  lemma UnlockLeavesNothingBehind(states: seq<State>, moves: seq<Move>, i: nat)
    requires IsRun(states, moves) && i < |states|
    requires states[i].ppc.PEnable? || states[i].ppc.PLower?
    ensures var s := states[i];
            && |s.cpus| == s.n && (forall c: Cpu :: c < s.n ==> s.cpus[c].Running?)
            && s.inp == s.out == s.refs == 0 && !s.locked
            && (s.n >= 2 <==> s.frees == 1) && (s.n >= 2 <==> !s.live)
            && s.written == s.writes && |s.irqs| == s.n && (s.ppc.PLower? ==> forall c: Cpu :: c < s.n ==> s.irqs[c])
  {
    var s := states[i];
    InvInRuns(states, moves, i);
    forall c: Cpu | c < s.n ensures s.cpus[c].Running? && (s.ppc.PLower? ==> s.irqs[c]) {
      assert CpuOk(s, c);
    }
    assert Value(s, Inp) == |Owing(s, Inp)| && Value(s, Refs) == |Owing(s, Refs)| && Value(s, Out) == |Owing(s, Out)|;
    assert Owing(s, Inp) == {} && Owing(s, Refs) == {} && Owing(s, Out) == {};
  }

  /** No counter ever goes below zero, the block is never freed twice, and the processor that frees it
      dropped the last reference while no other processor still held one. */
  lemma CountersAndBlockStaySound(states: seq<State>, moves: seq<Move>, i: nat, c: Cpu, d: Cpu)
    requires IsRun(states, moves) && i < |states|
    ensures var s := states[i];
            && s.inp >= 0 && s.out >= 0 && s.refs >= 0
            && (s.live ==> s.frees == 0) && (!s.ppc.PIdle? ==> s.frees <= 1)
            && |s.cpus| == s.n
            && (c < s.n && d < s.n && s.cpus[c].DFree? ==>
                  s.live && s.refs == 0 && (s.cpus[d].DFree? ==> c == d) && !Before(Refs, s.cpus[d]))
  {
    var s := states[i];
    InvInRuns(states, moves, i);
    CounterNonNegative(s, Inp);
    CounterNonNegative(s, Out);
    CounterNonNegative(s, Refs);
    if c < s.n && d < s.n && s.cpus[c].DFree? {
      assert CpuOk(s, c) && CpuOk(s, d) && !Owes(s, Refs, d);
    }
  }

  /** Neither spin loop waits in vain: some processor that still owes the decrement can move on. */
  lemma SpinningIsNotDeadlock(states: seq<State>, moves: seq<Move>, i: nat) returns (c: Cpu)
    requires IsRun(states, moves) && i < |states|
    requires (states[i].ppc.PSpinIn? && states[i].inp != 0) || (states[i].ppc.PSpinOut? && states[i].out != 0)
    ensures |states[i].cpus| == states[i].n && Owes(states[i], if states[i].ppc.PSpinIn? then Inp else Out, c)
    ensures Enabled(states[i], Processor(c)) && ProcessorStep(states[i], c) != states[i]
  {
    var s := states[i];
    InvInRuns(states, moves, i);
    var k := if s.ppc.PSpinIn? then Inp else Out;
    assert Value(s, k) == |Owing(s, k)|;
    c :| c in Owing(s, k);
    assert CpuOk(s, c);
    assert ProcessorStep(s, c).cpus[c] != s.cpus[c];
  }
}
