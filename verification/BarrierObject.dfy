/** The barrier's static counters as memory shared by the processors: each method executes the next
    statement of one of them, in place. */
module BarrierObject {
  import opened Barrier

  class BarrierMemory {
    const n: nat
    var p: Cpu
    var ppc: PatcherPc
    var locked: bool
    var inpDpcs: int
    var outDpcs: int
    var dpcRefs: int
    var live: bool
    var frees: nat
    var freer: Cpu
    var writes: nat
    var written: nat
    var cpus: seq<CpuPc>
    var irqs: seq<bool>

    function View(): State
      reads this
    {
      State(n, p, ppc, locked, inpDpcs, outDpcs, dpcRefs, live, frees, freer, writes, written, cpus, irqs)
    }

    constructor (n: nat)
      ensures View() == Boot(n)
    {
      this.n := n;
      p, ppc, locked := 0, PIdle, false;
      inpDpcs, outDpcs, dpcRefs := 0, 0, 0;
      live, frees, freer := false, 0, 0;
      writes, written := 0, 0;
      cpus, irqs := seq(n, _ => Running), seq(n, _ => true);
    }

    /** global_lock, the patch and global_unlock on processor p. */
    method ExecutePatcher()
      requires Enabled(View(), Patcher)
      modifies this
      ensures View() == old(PatcherStep(View()))
    {
      match ppc
      case PIdle =>
      case PRaise => ppc := PLock;
      case PLock => locked, ppc := true, PSetInp;
      case PSetInp => inpDpcs, ppc := n - 1, PSetOut;
      case PSetOut => outDpcs, ppc := inpDpcs, PSetRefs;
      case PSetRefs => dpcRefs, ppc := inpDpcs, PQueue(0);
      case PQueue(i) =>
        if i < n {
          if i != p {
            cpus := cpus[i := Queued];
          }
          ppc := PQueue(i + 1);
        } else {
          ppc := PSpinIn;
        }
      case PSpinIn =>
        if inpDpcs == 0 {
          ppc := PDisable;
        }
      case PDisable => irqs, ppc := irqs[p := false], PPatch;
      case PPatch =>
        if written < writes {
          written := written + 1;
        } else {
          ppc := PUnlock;
        }
      case PUnlock => locked, ppc := false, PSpinOut;
      case PSpinOut =>
        if outDpcs == 0 {
          ppc := PEnable;
        }
      case PEnable => irqs, ppc := irqs[p := true], PLower;
      case PLower => ppc := PIdle;
    }

    /** global_lock_proc on processor c. */
    method ExecuteProcessor(c: Cpu)
      requires Enabled(View(), Processor(c))
      modifies this
      ensures View() == old(ProcessorStep(View(), c))
    {
      match cpus[c]
      case Running =>
      case Queued => cpus := cpus[c := DDisable];
      case DDisable => irqs, cpus := irqs[c := false], cpus[c := DDecInp];
      case DDecInp => inpDpcs, cpus := inpDpcs - 1, cpus[c := DSpin];
      case DSpin =>
        if !locked {
          cpus := cpus[c := DEnable];
        }
      case DEnable => irqs, cpus := irqs[c := true], cpus[c := DDecRefs];
      case DDecRefs =>
        dpcRefs := dpcRefs - 1;
        if dpcRefs == 0 {
          freer, cpus := c, cpus[c := DFree];
        } else {
          cpus := cpus[c := DDecOut];
        }
      case DFree => live, frees, cpus := false, frees + 1, cpus[c := DDecOut];
      case DDecOut => outDpcs, cpus := outDpcs - 1, cpus[c := Running];
    }

    method Execute(mv: Move)
      requires Enabled(View(), mv)
      modifies this
      ensures View() == old(Step(View(), mv))
    {
      match mv
      case Start(q, patch) =>
        p, live, frees := q, true, 0;
        writes, written, ppc := patch, 0, PRaise;
      case Patcher => ExecutePatcher();
      case Processor(c) => ExecuteProcessor(c);
    }

    /** Lets the processors of the schedule move in turn, passing over one that cannot. */
    method Interleave(schedule: seq<Move>) returns (done: seq<Move>, ghost states: seq<State>)
      requires View() == Boot(n)
      modifies this
      ensures IsRun(states, done) && states[|done|] == View()
    {
      done, states := [], [View()];
      for i := 0 to |schedule|
        invariant IsRun(states, done) && states[|done|] == View()
      {
        if Enabled(View(), schedule[i]) {
          ghost var before, soFar := states, done;
          Execute(schedule[i]);
          done, states := done + [schedule[i]], states + [View()];
          RunExtends(before, soFar, schedule[i], View());
        }
      }
    }
  }

  lemma RunExtends(states: seq<State>, moves: seq<Move>, mv: Move, s: State)
    requires IsRun(states, moves) && StepOf(states[|moves|], mv, s)
    ensures IsRun(states + [s], moves + [mv])
  {
    forall i | 0 <= i < |moves| + 1 ensures StepOf((states + [s])[i], (moves + [mv])[i], (states + [s])[i + 1]) {
    }
  }
}
