/** A processor that executes the instructions it finds in memory, one after the other. */
module Machines {
  import opened Words
  import opened Memory
  import opened Trampoline

  /** Instructions, and the pushing of a return address. */
  datatype Machine<!D> = Machine(sem: Semantics<D>, push: (Address, D) -> D)

  datatype Cpu<D> = Cpu(pc: Address, data: D)

  function Landing<D>(mc: Machine<D>, o: Outcome<D>, next: Address): Cpu<D> {
    match o
    case Falls(d) => Cpu(next, d)
    case Transfers(t, d) => Cpu(t, d)
    case Calls(t, ret, d) => Cpu(t, mc.push(ret, d))
  }

  /** One instruction; None if there is none at the program counter. */
  function Next<D>(mc: Machine<D>, m: Bytes, c: Cpu<D>): Option<Cpu<D>> {
    match InstructionAt(m, c.pc)
    case None => None
    case Some(ins) => Some(Landing(mc, Run(mc.sem, ins, c.pc, c.data), Wrap(c.pc + |ins|)))
  }

  function Execute<D>(mc: Machine<D>, m: Bytes, c: Cpu<D>, n: nat): Option<Cpu<D>>
    decreases n
  {
    if n == 0 then Some(c)
    else match Next(mc, m, c)
      case None => None
      case Some(c') => Execute(mc, m, c', n - 1)
  }

  /** The next n instructions are the same in both memories. */
  predicate Untouched<D>(mc: Machine<D>, m: Bytes, m': Bytes, c: Cpu<D>, n: nat)
    decreases n
  {
    n > 0 ==>
      && InstructionAt(m, c.pc).Some? && InstructionAt(m', c.pc) == InstructionAt(m, c.pc)
      && Untouched(mc, m, m', Next(mc, m, c).value, n - 1)
  }

  lemma {:induction false} SameRun<D>(mc: Machine<D>, m: Bytes, m': Bytes, c: Cpu<D>, n: nat)
    requires Untouched(mc, m, m', c, n)
    ensures Execute(mc, m, c, n).Some? && Execute(mc, m', c, n) == Execute(mc, m, c, n)
    decreases n
  {
    hide InstructionAt, Run, IsInstruction;
    if n > 0 {
      SameRun(mc, m, m', Next(mc, m, c).value, n - 1);
    }
  }

  lemma ExecuteStep<D>(mc: Machine<D>, m: Bytes, pc: nat, data: D, ins: Bytes, n: nat)
    requires pc < SPACE && InstructionAt(m, pc) == Some(ins)
    ensures Execute(mc, m, Cpu(pc, data), n + 1) ==
      Execute(mc, m, Landing(mc, Run(mc.sem, ins, pc, data), Wrap(pc + |ins|)), n)
  {
    hide InstructionAt, Run, IsInstruction, Landing;
  }

  lemma NoStep<D>(mc: Machine<D>, m: Bytes, c: Cpu<D>)
    ensures Execute(mc, m, c, 0) == Some(c)
  {
  }
}
