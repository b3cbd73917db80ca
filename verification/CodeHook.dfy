/** Redirecting procedures by patching their code in place: the hot patch through the padding in front of
    a procedure, and the splice over its first instructions. */
module CodeHook {
  import opened Words
  import opened OpcodeTable
  import opened Ldasm
  import opened Memory
  import opened Trampoline

  datatype HookKind = HotPatch | DoubleHotPatch | Splicing

  datatype HookDescriptor =
    HookDescriptor(kind: HookKind, src: Address, oldProc: Address, newProc: Address, oldCodeSize: nat)

  const NOPS: Bytes := [0x90, 0x90, 0x90, 0x90, 0x90]
  const BREAKPOINTS: Bytes := [0xCC, 0xCC, 0xCC, 0xCC, 0xCC]
  const MOV_EDI_EDI: Bytes := [0x8B, 0xFF]

  // ----------------------------------------------------------------------------------------------
  // What the two kinds of patch make of a memory

  /** The ten bytes that a patch can change do not wrap around the address space. */
  predicate Window(m: Bytes, src: nat) {
    5 <= src && src + 5 <= |m|
  }

  predicate Apart(a: nat, size: nat, b: nat, size': nat) {
    a + size <= b || b + size' <= a
  }

  predicate Padded(m: Bytes, src: nat)
    requires Window(m, src)
  {
    m[src - 5..src] == NOPS || m[src - 5..src] == BREAKPOINTS
  }

  predicate AlreadyPatched(m: Bytes, src: nat)
    requires Window(m, src)
  {
    m[src..src + 2] == SHORT_BACK && m[src - 5] == 0xE9
  }

  /** The padding jumps to the hook, and the procedure into the padding. */
  function Published(m: Bytes, src: nat, newProc: nat): (r: Bytes)
    requires Window(m, src)
    ensures |r| == |m|
  {
    Write(Write(m, src - 5, Jump(src - 5, newProc)), src, SHORT_BACK)
  }

  /** The first two bytes moved away, with a jump back behind them. */
  function FirstMoved(m: Bytes, src: nat, buf: nat): (r: Bytes)
    requires Window(m, src) && buf + 16 <= |m|
    ensures |r| == |m|
  {
    Write(m, buf, m[src..src + 2] + Jump(buf + 2, src + 2))
  }

  datatype Hooked = Hooked(memory: Bytes, hook: HookDescriptor) | Refused

  function HotPatched(m: Bytes, src: Address, newProc: Address, buf: Address): (r: Hooked)
    requires IsMemory(m) && Window(m, src) && buf + 16 <= |m|
    ensures r.Hooked? ==> IsMemory(r.memory)
  {
    if Padded(m, src) then
      if m[src..src + 2] == MOV_EDI_EDI then
        Hooked(Published(m, src, newProc), HookDescriptor(HotPatch, src, src + 2, newProc, 2))
      else if SizeOf(m[src..]).Some? && SizeOf(m[src..]).value.size == 2 then
        Hooked(Published(FirstMoved(m, src, buf), src, newProc), HookDescriptor(HotPatch, src, buf, newProc, 2))
      else Refused
    else if AlreadyPatched(m, src) then
      Hooked(Write(m, src - 4, Bytes32(Wrap(newProc - src))),
             HookDescriptor(DoubleHotPatch, src, Wrap(src + Word32(m[src - 4..src])), newProc, 0))
    else Refused
  }

  /** How many bytes from the start of the buffer on are written at most: the whole trampoline, or less
      than five bytes before a short branch. */
  function Reach(b: Build): nat {
    match b
    case Built(code, _) => |code|
    case ShortBranch(_) => 5
    case Unreadable => 0
  }

  /** What is written overlaps neither the patched bytes nor the code that is looked at.  Nothing is said
      of its staying inside the 64 bytes that were allocated. */
  predicate Roomy(m: Bytes, src: nat, buf: nat, b: Build)
    requires Window(m, src)
  {
    && buf + 64 <= |m| && buf + Reach(b) <= |m| && Apart(buf, Reach(b), src - 5, 10)
    && match b
       case Built(_, len) => Apart(buf, Reach(b), src, len)
       case ShortBranch(len) => Apart(buf, Reach(b), src, len)
       case Unreadable => true
  }

  function Spliced(m: Bytes, src: Address, newProc: Address, buf: Address): (r: Hooked)
    requires IsMemory(m) && Window(m, src) && Roomy(m, src, buf, BuildFrom(m, src, buf, 0))
    ensures r.Hooked? ==> IsMemory(r.memory)
  {
    match BuildFrom(m, src, buf, 0)
    case Built(code, len) =>
      Hooked(Write(Write(m, buf, code), src, Jump(src, newProc)), HookDescriptor(Splicing, src, buf, newProc, len))
    case _ => Refused
  }

  /** The memory a caller of set_hook provides: a procedure whose first instructions can be decoded, and
      the buffers the two kinds of patch allocate. */
  predicate CanHook(m: Bytes, src: Address, small: Address, large: Address) {
    && IsMemory(m) && Window(m, src)
    && small + 16 <= |m| && Apart(small, 16, src - 5, 10)
    && Roomy(m, src, large, BuildFrom(m, src, large, 0)) && !BuildFrom(m, src, large, 0).Unreadable?
  }

  /** set_hook tries the hot patch first. */
  function SetHookOn(m: Bytes, src: Address, newProc: Address, small: Address, large: Address): (r: Hooked)
    requires CanHook(m, src, small, large)
    ensures r.Hooked? ==> IsMemory(r.memory)
  {
    match HotPatched(m, src, newProc, small)
    case Hooked(memory, hook) => Hooked(memory, hook)
    case Refused => Spliced(m, src, newProc, large)
  }

  /** Where entering a procedure leads: through the short jump into the padding, or through the jump at its
      start; None if it runs its own code. */
  function Entered(m: Bytes, src: nat): Option<Address>
    requires Window(m, src)
  {
    if m[src..src + 2] == SHORT_BACK then JumpTarget(m, src - 5) else JumpTarget(m, src)
  }

  // ----------------------------------------------------------------------------------------------
  // Writes that combine

  lemma WritesJoin(m: Bytes, a: nat, b: Bytes, c: Bytes)
    requires a + |b| + |c| <= |m|
    ensures Write(Write(m, a, b), a + |b|, c) == Write(m, a, b + c)
  {
  }

  lemma WriteReads(m: Bytes, a: nat, b: Bytes, lo: nat, hi: nat)
    requires a + |b| <= |m| && lo <= hi <= |b|
    ensures Write(m, a, b)[a + lo..a + hi] == b[lo..hi]
  {
  }

  /** What memory and the caller's old-procedure pointer are between two machine instructions. */
  datatype Moment = Moment(memory: Bytes, oldProc: Address)

  /** The moments while the first two bytes are moved into the buffer. */
  function MoveMoments(m: Bytes, src: nat, buf: Address): seq<Moment>
    requires Window(m, src) && buf + 16 <= |m|
  {
    var copied := Write(m, buf, m[src..src + 2]);
    [Moment(m, buf), Moment(copied, buf), Moment(Write(copied, buf + 2, [0xE9]), buf), Moment(FirstMoved(m, src, buf), buf)]
  }

  /** The moments while the jump is written into the padding, and then the short jump to it. */
  function PublishMoments(m: Bytes, oldProc: Address, src: nat, newProc: nat): seq<Moment>
    requires Window(m, src)
  {
    [Moment(Write(m, src - 5, [0xE9]), oldProc), Moment(Write(m, src - 5, Jump(src - 5, newProc)), oldProc),
     Moment(Published(m, src, newProc), oldProc)]
  }

  /** All moments of a hot patch, after each of its writes. */
  function PatchMoments(m: Bytes, src: Address, newProc: Address, buf: Address): seq<Moment>
    requires IsMemory(m) && Window(m, src) && buf + 16 <= |m| && HotPatched(m, src, newProc, buf).Hooked?
  {
    var r := HotPatched(m, src, newProc, buf);
    if !Padded(m, src) then
      [Moment(m, Word32(m[src - 4..src])), Moment(m, r.hook.oldProc), Moment(r.memory, r.hook.oldProc)]
    else if m[src..src + 2] == MOV_EDI_EDI then [Moment(m, src + 2)] + PublishMoments(m, src + 2, src, newProc)
    else MoveMoments(m, src, buf) + PublishMoments(FirstMoved(m, src, buf), buf, src, newProc)
  }

  class Patcher {
    const mem: array<Byte>
    var oldProc: Address
    var hooks: seq<HookDescriptor>
    ghost var history: seq<Moment>

    ghost predicate Valid()
    {
      mem.Length == SPACE
    }

    /** One machine write. */
    method Poke(a: nat, b: Bytes)
      requires Valid() && a + |b| <= SPACE
      modifies mem, this`history
      ensures mem[..] == Write(old(mem[..]), a, b)
      ensures history == old(history) + [Moment(mem[..], oldProc)]
    {
      forall k | 0 <= k < |b| {
        mem[a + k] := b[k];
      }
      assert mem[..] == Write(old(mem[..]), a, b);
      history := history + [Moment(mem[..], oldProc)];
    }

    /** The set_jump macro: two writes. */
    method SetJump(from: nat, to: nat)
      requires Valid() && from + 5 <= SPACE
      modifies mem, this`history
      ensures mem[..] == Write(old(mem[..]), from, Jump(from, to))
      ensures history == old(history) +
        [Moment(Write(old(mem[..]), from, [0xE9]), oldProc), Moment(mem[..], oldProc)]
    {
      Poke(from, [0xE9]);
      Poke(from + 1, Bytes32(Wrap(to - from - 5)));
      WritesJoin(old(mem[..]), from, [0xE9], Bytes32(Wrap(to - from - 5)));
    }

    method SetOld(value: Address)
      requires Valid()
      modifies this`oldProc, this`history
      ensures oldProc == value
      ensures history == old(history) + [Moment(mem[..], oldProc)]
    {
      oldProc := value;
      history := history + [Moment(mem[..], oldProc)];
    }

    /** set_jump into the padding, then the short jump to it. */
    method Publish(src: Address, newProc: Address)
      requires Valid() && Window(mem[..], src)
      modifies mem, this`history
      ensures mem[..] == Published(old(mem[..]), src, newProc)
      ensures history == old(history) + PublishMoments(old(mem[..]), oldProc, src, newProc)
    {
      hide Jump, Bytes32, Wrap;
      SetJump(src - 5, newProc);
      Poke(src, SHORT_BACK);
    }

    /** The first instruction, two bytes long, moved into a buffer. */
    method MoveFirst(src: Address, buf: Address)
      requires Valid() && Window(mem[..], src) && buf + 16 <= SPACE && Apart(buf, 16, src - 5, 10)
      modifies mem, this`oldProc, this`history
      ensures mem[..] == FirstMoved(old(mem[..]), src, buf) && oldProc == buf
      ensures history == old(history) + MoveMoments(old(mem[..]), src, buf)
    {
      hide Jump, Bytes32, Wrap, Write;
      ghost var m := mem[..];
      var two := mem[src..src + 2];
      SetOld(buf);
      Poke(buf, two);
      SetJump(buf + 2, src + 2);
      WritesJoin(m, buf, two, Jump(buf + 2, src + 2));
    }

    /** The new state and the moments since the old one are those of a hot patch, or nothing has changed. */
    ghost predicate Patches(
      m: Bytes, was: Address, past: seq<Moment>, src: Address, newProc: Address, buf: Address, r: Option<HookDescriptor>)
      requires IsMemory(m) && Window(m, src) && buf + 16 <= |m|
      reads this, mem
    {
      match HotPatched(m, src, newProc, buf)
      case Hooked(memory, hook) =>
        && r == Some(hook) && mem[..] == memory && oldProc == hook.oldProc
        && history == past + PatchMoments(m, src, newProc, buf)
      case Refused => r == None && mem[..] == m && oldProc == was && history == past
    }

    /** hot_patch on a padded procedure. */
    method PatchPadded(src: Address, newProc: Address, buf: Address) returns (r: Option<HookDescriptor>)
      requires Valid() && Window(mem[..], src) && buf + 16 <= SPACE && Apart(buf, 16, src - 5, 10)
      requires Padded(mem[..], src) && SizeOf(mem[src..]).Some?
      modifies mem, this`oldProc, this`history
      ensures Patches(old(mem[..]), old(oldProc), old(history), src, newProc, buf, r)
    {
      hide Jump, Bytes32, Wrap, Write, SizeOf, Published, FirstMoved, MoveMoments, PublishMoments, Padded;
      ghost var m, was := mem[..], history;
      assert mem[src..] == m[src..];
      if mem[src..src + 2] == MOV_EDI_EDI {
        SetOld(src + 2);
        Publish(src, newProc);
        SeqsJoin(was, [Moment(m, src + 2)], PublishMoments(m, src + 2, src, newProc));
      } else {
        var command := SizeOfCode(mem[src..]);
        if command.value.size != 2 {
          return None;
        }
        MoveFirst(src, buf);
        Publish(src, newProc);
        SeqsJoin(was, MoveMoments(m, src, buf), PublishMoments(FirstMoved(m, src, buf), buf, src, newProc));
      }
      r := Some(HookDescriptor(HookKind.HotPatch, src, oldProc, newProc, 2));
    }

    /** hot_patch on a procedure that was hot patched before. */
    method PatchAgain(src: Address, newProc: Address, ghost buf: Address) returns (r: Option<HookDescriptor>)
      requires Valid() && Window(mem[..], src) && buf + 16 <= SPACE
      requires !Padded(mem[..], src) && AlreadyPatched(mem[..], src)
      modifies mem, this`oldProc, this`history
      ensures Patches(old(mem[..]), old(oldProc), old(history), src, newProc, buf, r)
    {
      hide Bytes32, Word32, Wrap, Write, SizeOf, Padded, AlreadyPatched;
      assert mem[src - 4..src] == mem[..][src - 4..src];
      SetOld(Word32(mem[src - 4..src]));
      SetOld(Wrap(src + oldProc));
      Poke(src - 4, Bytes32(Wrap(newProc - src)));
      r := Some(HookDescriptor(DoubleHotPatch, src, oldProc, newProc, 0));
    }

    /** hot_patch.  The procedure is not null unless the call is refused for it; `buf` is the buffer that
        is allocated if one is needed. */
    method HotPatch(src: Address, newProc: Address, wantsOld: bool, buf: Address) returns (r: Option<HookDescriptor>)
      requires Valid()
      requires src != 0 ==> Window(mem[..], src) && buf + 16 <= SPACE && Apart(buf, 16, src - 5, 10)
      requires src != 0 ==> SizeOf(mem[src..]).Some?
      modifies mem, this`oldProc, this`history
      ensures src == 0 || newProc == 0 || !wantsOld ==>
        r == None && mem[..] == old(mem[..]) && oldProc == old(oldProc) && history == old(history)
      ensures src != 0 && newProc != 0 && wantsOld ==>
        Patches(old(mem[..]), old(oldProc), old(history), src, newProc, buf, r)
    {
      hide Jump, Bytes32, Wrap, Write, SizeOf, Published, FirstMoved, PatchMoments;
      if newProc == 0 || src == 0 || !wantsOld {
        return None;
      }
      if mem[src - 5..src] == NOPS || mem[src - 5..src] == BREAKPOINTS {
        r := PatchPadded(src, newProc, buf);
      } else if mem[src..src + 2] == SHORT_BACK && mem[src - 5] == 0xE9 {
        r := PatchAgain(src, newProc, buf);
      } else {
        r := None;
      }
    }

    /** One instruction copied, and its displacement corrected if it is a plain rel32 branch. */
    method MoveInstruction(from: nat, to: nat, size: nat, flags: nat)
      requires Valid() && from + size <= SPACE && to + size <= SPACE
      requires HasFlag(flags, OP_REL32) ==> (if HasFlag(flags, OP_EXTENDED) then 2 else 1) + 4 <= size
      modifies mem, this`history
      ensures mem[..] == Write(old(mem[..]), to, Relocated(old(mem[from..from + size]), flags, from, to))
    {
      hide Bytes32, Word32, Wrap, Write;
      ghost var m := mem[..];
      var ins := mem[from..from + size];
      Poke(to, ins);
      if HasFlag(flags, OP_REL32) {
        var at := if HasFlag(flags, OP_EXTENDED) then 2 else 1;
        WriteReads(m, to, ins, at, at + 4);
        assert mem[to + at..to + at + 4] == mem[..][to + at..to + at + 4];
        var displacement := Wrap(Word32(mem[to + at..to + at + 4]) + from - to);
        Poke(to + at, Bytes32(displacement));
        WriteInside(m, to, ins, at, Bytes32(displacement));
      }
    }

    /** One turn of the loop; false at a short branch. */
    method MoveNext(src: Address, buf: Address, srcAddr: nat, dstAddr: nat, ghost m: Bytes, ghost done: Bytes)
      returns (ok: bool, cmdLen: nat, ghost piece: Bytes)
      requires Valid() && |done| < 5 && MovedSoFar(m, src, buf, |done|, done)
      requires srcAddr == src + |done| && dstAddr == buf + |done|
      requires buf + |done| + 5 <= |m| == SPACE && mem[..] == Write(m, buf, done)
      modifies mem, this`history
      ensures ok ==>
        && |piece| == cmdLen >= 1 && buf + |done + piece| + 5 <= |m|
        && MovedSoFar(m, src, buf, |done + piece|, done + piece) && mem[..] == Write(m, buf, done + piece)
      ensures !ok ==> BuildFrom(m, src, buf, 0).ShortBranch? && OnlyBuffer(m, mem[..], buf)
    {
      hide Jump, Bytes32, Wrap, Write, SizeOf, CodeFlags, BuildFrom, Relocated, InstructionAt, XCodeFlags, IsInstruction,
        Roomy, OnlyBuffer, MovedSoFar, HasFlag;
      ghost var ins := TurnOfLoop(m, src, buf, |done|, done, mem[..]);
      assert mem[srcAddr..] == mem[..][srcAddr..];
      var command := SizeOfCode(mem[srcAddr..]);
      var flags: nat := XCodeFlags(mem[srcAddr..]).value;
      cmdLen, ok, piece := command.value.size, true, Relocated(ins, flags, srcAddr, dstAddr);
      if cmdLen == 0 || HasFlag(flags, OP_REL8) {
        ok := false;
      } else {
        MoveInstruction(srcAddr, dstAddr, cmdLen, flags);
        WritesJoin(m, buf, done, piece);
      }
    }

    /** The loop of hook_code and the jump that closes the trampoline; false at a short branch. */
    method BuildTrampoline(src: Address, buf: Address) returns (ok: bool, allLen: nat)
      requires Valid() && Window(mem[..], src) && !BuildFrom(mem[..], src, buf, 0).Unreadable?
      requires Roomy(mem[..], src, buf, BuildFrom(mem[..], src, buf, 0))
      modifies mem, this`history
      ensures match BuildFrom(old(mem[..]), src, buf, 0)
        case Built(code, len) => ok && allLen == len && mem[..] == Write(old(mem[..]), buf, code)
        case _ => !ok && OnlyBuffer(old(mem[..]), mem[..], buf)
    {
      hide Jump, Bytes32, Wrap, Write, BuildFrom, Roomy, OnlyBuffer, MovedSoFar;
      ghost var m, done, piece := mem[..], [], [];
      var srcAddr: nat, dstAddr: nat := src, buf;
      var cmdLen: nat;
      allLen := 0;
      NothingMoved(m, src, buf);
      while allLen < 5
        invariant srcAddr == src + allLen && dstAddr == buf + allLen && |done| == allLen
        invariant MovedSoFar(m, src, buf, allLen, done)
        invariant buf + allLen + 5 <= |m| == SPACE && mem[..] == Write(m, buf, done)
      {
        ok, cmdLen, piece := MoveNext(src, buf, srcAddr, dstAddr, m, done);
        if !ok {
          return;
        }
        done := done + piece;
        srcAddr, dstAddr, allLen := srcAddr + cmdLen, dstAddr + cmdLen, allLen + cmdLen;
      }
      MovedAll(m, src, buf, allLen, done);
      SetJump(dstAddr, srcAddr);
      WritesJoin(m, buf, done, Jump(dstAddr, srcAddr));
      ok := true;
    }

    /** hook_code.  `buf` is the 64-byte buffer it allocates. */
    method HookCode(src: Address, newProc: Address, wantsOld: bool, buf: Address) returns (r: Option<HookDescriptor>)
      requires Valid()
      requires src != 0 ==> Window(mem[..], src) && Roomy(mem[..], src, buf, BuildFrom(mem[..], src, buf, 0))
      requires src != 0 ==> !BuildFrom(mem[..], src, buf, 0).Unreadable?
      modifies mem, this`oldProc, this`history
      ensures src == 0 || newProc == 0 || !wantsOld ==> r == None && mem[..] == old(mem[..]) && oldProc == old(oldProc)
      ensures src != 0 && newProc != 0 && wantsOld ==>
        match Spliced(old(mem[..]), src, newProc, buf)
        case Hooked(memory, hook) => r == Some(hook) && mem[..] == memory && oldProc == hook.oldProc
        case Refused => r == None && oldProc == old(oldProc) && OnlyBuffer(old(mem[..]), mem[..], buf)
    {
      hide Jump, Bytes32, Wrap, Write, SizeOf, CodeFlags, BuildFrom, OnlyBuffer;
      if newProc == 0 || src == 0 || !wantsOld {
        return None;
      }
      var ok, allLen := BuildTrampoline(src, buf);
      if !ok {
        return None;
      }
      SetOld(buf);
      SetJump(src, newProc);
      r := Some(HookDescriptor(Splicing, src, oldProc, newProc, allLen));
    }

    /** set_hook. */
    method SetHook(src: Address, newProc: Address, wantsOld: bool, small: Address, large: Address) returns (ok: bool)
      requires Valid()
      requires src != 0 ==> CanHook(mem[..], src, small, large)
      modifies mem, this`oldProc, this`history, this`hooks
      ensures src == 0 || newProc == 0 || !wantsOld ==>
        !ok && mem[..] == old(mem[..]) && oldProc == old(oldProc) && hooks == old(hooks)
      ensures src != 0 && newProc != 0 && wantsOld ==>
        match SetHookOn(old(mem[..]), src, newProc, small, large)
        case Hooked(memory, hook) =>
          ok && mem[..] == memory && oldProc == hook.oldProc && hooks == old(hooks) + [hook]
        case Refused =>
          !ok && oldProc == old(oldProc) && hooks == old(hooks) && OnlyBuffer(old(mem[..]), mem[..], large)
    {
      hide HotPatched, Spliced, OnlyBuffer, BuildFrom, Roomy, CodeFlags;
      if src != 0 {
        Decodable(mem[..], src, large);
        assert mem[src..] == mem[..][src..];
      }
      var hook := HotPatch(src, newProc, wantsOld, small);
      if hook.Some? {
        hooks := hooks + [hook.value];
        return true;
      }
      hook := HookCode(src, newProc, wantsOld, large);
      if hook.Some? {
        hooks := hooks + [hook.value];
        return true;
      }
      return false;
    }
  }

  lemma SeqsJoin(a: seq<Moment>, b: seq<Moment>, c: seq<Moment>)
    ensures a + b + c == a + (b + c)
  {
  }

  lemma WriteInside(m: Bytes, a: nat, b: Bytes, at: nat, c: Bytes)
    requires a + |b| <= |m| && at + |c| <= |b|
    ensures Write(Write(m, a, b), a + at, c) == Write(m, a, Write(b, at, c))
  {
  }

  lemma Decodable(m: Bytes, src: nat, buf: nat)
    requires src <= |m| && !BuildFrom(m, src, buf, 0).Unreadable?
    ensures SizeOf(m[src..]).Some?
  {
    hide CodeFlags, SizeOf, XCodeFlags;
  }

  predicate OnlyBuffer(before: Bytes, after: Bytes, buf: nat) {
    |after| == |before| && forall a :: 0 <= a < |before| && !(buf <= a < buf + 64) ==> after[a] == before[a]
  }

  // ----------------------------------------------------------------------------------------------
  // The loop of hook_code

  /** What has been moved so far is the beginning of the trampoline. */
  predicate MovedSoFar(m: Bytes, src: nat, buf: nat, off: nat, done: Bytes) {
    && Window(m, src) && src + off <= |m| && |done| == off
    && var whole := BuildFrom(m, src, buf, 0);
       !whole.Unreadable? && Roomy(m, src, buf, whole) &&
       if off >= 5 then whole == Built(done + Jump(buf + off, src + off), off)
       else !BuildFrom(m, src, buf, off).Unreadable? &&
            whole == match BuildFrom(m, src, buf, off)
                     case Built(rest, len) => Built(done + rest, len)
                     case refused => refused
  }

  lemma NothingMoved(m: Bytes, src: nat, buf: nat)
    requires Window(m, src) && !BuildFrom(m, src, buf, 0).Unreadable? && Roomy(m, src, buf, BuildFrom(m, src, buf, 0))
    ensures MovedSoFar(m, src, buf, 0, []) && Write(m, buf, []) == m && buf + 5 <= |m|
  {
    hide BuildFrom;
  }

  lemma LoopReads(m: Bytes, src: nat, buf: nat, off: nat, done: Bytes) returns (ins: Bytes)
    requires MovedSoFar(m, src, buf, off, done) && off < 5
    ensures InstructionAt(m, src + off) == Some(ins) && XCodeFlags(ins).Some? && |ins| >= 1
    ensures Accepted(ins) <==> !HasFlag(XCodeFlags(ins).value, OP_REL8)
  {
    hide Jump, SizeOf, CodeFlags, BuildFrom, XCodeFlags, Relocated;
    ins := Turn(m, src, buf, off);
  }

  /** Copying has not changed the code that is still to be copied. */
  lemma StillThere(m: Bytes, src: nat, buf: nat, off: nat, done: Bytes, ins: Bytes)
    requires MovedSoFar(m, src, buf, off, done) && off < 5 && buf + |done| <= |m|
    requires InstructionAt(m, src + off) == Some(ins) && XCodeFlags(ins).Some?
    ensures var now := Write(m, buf, done);
      && now[src + off..src + off + |ins|] == ins
      && SizeOf(now[src + off..]).Some? && SizeOf(now[src + off..]).value.size == |ins|
      && XCodeFlags(now[src + off..]) == XCodeFlags(ins)
  {
    hide Jump, SizeOf, CodeFlags, BuildFrom, Relocated, InstructionAt, XCodeFlags, Move, Accepted, Write;
    var ins' := Turn(m, src, buf, off);
    WriteFrame(m, buf, done, src + off, src + off + |ins|);
    FoundAt(Write(m, buf, done), src + off, ins);
    SeenThrough(Write(m, buf, done), src + off, ins);
  }

  lemma BufferOnly(m: Bytes, src: nat, buf: nat, off: nat, done: Bytes, ins: Bytes)
    requires MovedSoFar(m, src, buf, off, done) && off < 5 && buf + |done| <= |m|
    requires InstructionAt(m, src + off) == Some(ins) && XCodeFlags(ins).Some? && HasFlag(XCodeFlags(ins).value, OP_REL8)
    ensures BuildFrom(m, src, buf, 0).ShortBranch?
    ensures OnlyBuffer(m, Write(m, buf, done), buf)
  {
    hide Jump, SizeOf, CodeFlags, BuildFrom, Relocated, InstructionAt, XCodeFlags, Move;
    var ins' := Turn(m, src, buf, off);
  }

  lemma MovedAll(m: Bytes, src: nat, buf: nat, off: nat, done: Bytes)
    requires MovedSoFar(m, src, buf, off, done) && off >= 5
    ensures BuildFrom(m, src, buf, 0) == Built(done + Jump(buf + off, src + off), off)
  {
    hide Jump, BuildFrom;
  }

  lemma MovedFurther(m: Bytes, src: nat, buf: nat, off: nat, done: Bytes, ins: Bytes)
    requires MovedSoFar(m, src, buf, off, done) && off < 5
    requires InstructionAt(m, src + off) == Some(ins) && Accepted(ins)
    ensures MovedSoFar(m, src, buf, off + |ins|, done + Move(ins, src + off, buf + off))
    ensures buf + off + |ins| + 5 <= |m|
  {
    hide Jump, SizeOf, CodeFlags, BuildFrom, Relocated, InstructionAt, XCodeFlags, Move, Accepted;
    var ins' := Turn(m, src, buf, off);
  }

  /** What one turn of the loop sees and establishes. */
  lemma TurnOfLoop(m: Bytes, src: nat, buf: nat, off: nat, done: Bytes, now: Bytes) returns (ins: Bytes)
    requires MovedSoFar(m, src, buf, off, done) && off < 5 && buf + |done| <= |m| && now == Write(m, buf, done)
    ensures src + off + |ins| <= |now| == |m| && |ins| >= 1
    ensures SizeOf(now[src + off..]).Some? && SizeOf(now[src + off..]).value.size == |ins|
    ensures XCodeFlags(now[src + off..]).Some?
    ensures var flags := XCodeFlags(now[src + off..]).value;
      if HasFlag(flags, OP_REL8) then BuildFrom(m, src, buf, 0).ShortBranch? && OnlyBuffer(m, now, buf)
      else
        && buf + off + |ins| + 5 <= |m| && now[src + off..src + off + |ins|] == ins
        && (HasFlag(flags, OP_REL32) ==> (if HasFlag(flags, OP_EXTENDED) then 2 else 1) + 4 <= |ins|)
        && MovedSoFar(m, src, buf, off + |ins|, done + Relocated(ins, flags, src + off, buf + off))
  {
    hide Jump, SizeOf, CodeFlags, BuildFrom, XCodeFlags, Relocated, MovedSoFar, OnlyBuffer, HasFlag, Write, InstructionAt;
    ins := LoopReads(m, src, buf, off, done);
    StillThere(m, src, buf, off, done, ins);
    if HasFlag(XCodeFlags(ins).value, OP_REL8) {
      BufferOnly(m, src, buf, off, done, ins);
    } else {
      MovedFurther(m, src, buf, off, done, ins);
      if HasFlag(XCodeFlags(ins).value, OP_REL32) {
        RoomForBranch(ins);
      }
    }
  }
}
