/** Any number of hooks on any number of procedures: each procedure's hooks form a chain, newest first,
    that ends in the original code. */
module HookChain {
  import opened Words
  import opened OpcodeTable
  import opened Ldasm
  import opened InstructionGrammar
  import opened Memory
  import opened Trampoline
  import opened CodeHook

  /** The memory before any hook, where the allocator takes its buffers from, and for every procedure that
      is ever hooked how many of its bytes belong to it alone. */
  datatype Setting = Setting(original: Bytes, heapLow: nat, heapHigh: nat, spans: map<Address, nat>)

  predicate ProperSpan(s: Setting, t: Address)
    requires t in s.spans
  {
    && 5 <= s.spans[t] && 5 <= t && t + s.spans[t] <= SPACE && s.heapLow <= s.heapHigh
    && Apart(t - 5, s.spans[t] + 5, s.heapLow, s.heapHigh - s.heapLow)
  }

  predicate Proper(s: Setting) {
    && IsMemory(s.original) && s.heapLow <= s.heapHigh <= SPACE
    && (forall t :: t in s.spans ==> ProperSpan(s, t))
    && (forall t, u :: t in s.spans && u in s.spans && t != u ==> Apart(t - 5, s.spans[t] + 5, u - 5, s.spans[u] + 5))
  }

  datatype World = World(memory: Bytes, hooks: seq<HookDescriptor>)

  datatype Call = Call(src: Address, newProc: Address, small: Address, large: Address)

  /** The size of the buffer behind an old-procedure pointer, if it is one. */
  function Block(h: HookDescriptor): nat {
    match h.kind
    case Splicing => 64
    case HotPatch => if h.oldProc == h.src + 2 then 0 else 16
    case DoubleHotPatch => 0
  }

  /** What the allocator may hand out: heap that no hook uses. */
  predicate Free(s: Setting, hooks: seq<HookDescriptor>, a: nat, size: nat) {
    s.heapLow <= a && a + size <= s.heapHigh &&
    forall i :: 0 <= i < |hooks| ==> Apart(a, size, hooks[i].oldProc, Block(hooks[i]))
  }

  /** set_hook can be called, and stays inside its buffers. */
  predicate Hookable(m: Bytes, t: Address, small: Address, large: Address) {
    && CanHook(m, t, small, large) && large + 64 <= |m| && Apart(large, 64, t - 5, 10)
    && var b := BuildFrom(m, t, large, 0);
       (b.Built? ==> |b.code| <= 64)
  }

  /** A call of set_hook on one of the procedures; the code it moves belongs to that procedure alone. */
  predicate CallOk(s: Setting, w: World, c: Call) {
    && c.src in s.spans && Hookable(w.memory, c.src, c.small, c.large)
    && Free(s, w.hooks, c.small, 16) && Free(s, w.hooks, c.large, 64)
    && var b := BuildFrom(w.memory, c.src, c.large, 0);
       (b.Built? ==> b.len <= s.spans[c.src])
  }

  predicate Step(s: Setting, w: World, c: Call, w': World) {
    CallOk(s, w, c) &&
    match SetHookOn(w.memory, c.src, c.newProc, c.small, c.large)
    case Hooked(memory, hook) => w' == World(memory, w.hooks + [hook])
    case Refused => w'.hooks == w.hooks && OnlyBuffer(w.memory, w'.memory, c.large)
  }

  /** The hooks of one procedure, oldest first. */
  function ChainOf(hooks: seq<HookDescriptor>, t: Address): (c: seq<HookDescriptor>)
    ensures forall i :: 0 <= i < |c| ==> c[i] in hooks && c[i].src == t
  {
    if hooks == [] then []
    else
      var rest := ChainOf(hooks[..|hooks| - 1], t);
      if hooks[|hooks| - 1].src == t then rest + [hooks[|hooks| - 1]] else rest
  }

  // ----------------------------------------------------------------------------------------------
  // Chains

  /** The first hook's old pointer leads to the original behaviour: behind the two bytes of a MOV EDI, EDI,
      to a moved first instruction and then behind it, to where the procedure already jumped, or to the
      trampoline built from the original code. */
  predicate FirstIsOriginal(original: Bytes, m: Bytes, h: HookDescriptor) {
    var t := h.src;
    Window(original, t) &&
    match h.kind
    case Splicing =>
      && Placed(original, m, t, h.oldProc, 0) && |BuildFrom(original, t, h.oldProc, 0).code| <= 64
      && h.oldCodeSize == BuildFrom(original, t, h.oldProc, 0).len
    case DoubleHotPatch =>
      h.oldCodeSize == 0 && AlreadyPatched(original, t) && JumpTarget(original, t - 5) == Some(h.oldProc)
    case HotPatch =>
      h.oldCodeSize == 2 &&
      if h.oldProc == t + 2 then original[t..t + 2] == MOV_EDI_EDI
      else
        && SizeOf(original[t..]).Some? && SizeOf(original[t..]).value.size == 2
        && h.oldProc + 7 <= |m| && m[h.oldProc..h.oldProc + 7] == original[t..t + 2] + Jump(h.oldProc + 2, t + 2)
  }

  /** A later hook's old pointer is the hook before it, or a buffer that jumps there. */
  predicate Link(m: Bytes, h: HookDescriptor, previous: Address) {
    match h.kind
    case Splicing =>
      h.oldProc + 10 <= |m| && m[h.oldProc..h.oldProc + 10] == Jump(h.oldProc, previous) + Jump(h.oldProc + 5, h.src + 5)
    case DoubleHotPatch => h.oldProc == previous
    case HotPatch => false
  }

  predicate Linked(m: Bytes, c: seq<HookDescriptor>) {
    forall i :: 1 <= i < |c| ==> Link(m, c[i], c[i - 1].newProc)
  }

  predicate SameMode(c: seq<HookDescriptor>) {
    forall i :: 0 <= i < |c| ==> (c[i].kind == Splicing <==> c[0].kind == Splicing)
  }

  function Newest(c: seq<HookDescriptor>): Address
    requires c != []
  {
    c[|c| - 1].newProc
  }

  /** How the procedure's ten bytes look, given its hooks. */
  predicate Entrance(original: Bytes, m: Bytes, t: Address, c: seq<HookDescriptor>) {
    && Window(m, t)
    && if c == [] then Agree(original, m, t - 5, t + 5)
       else if c[0].kind == Splicing then Agree(original, m, t - 5, t) && m[t..t + 5] == Jump(t, Newest(c))
       else m[t - 5..t] == Jump(t - 5, Newest(c)) && m[t..t + 2] == SHORT_BACK && Agree(original, m, t + 2, t + 5)
  }

  predicate ChainInv(original: Bytes, m: Bytes, t: Address, c: seq<HookDescriptor>) {
    && Entrance(original, m, t, c) && Linked(m, c) && SameMode(c)
    && (c != [] ==> FirstIsOriginal(original, m, c[0]))
  }

  // ----------------------------------------------------------------------------------------------
  // Writes elsewhere leave a chain alone

  predicate BlockKept(m: Bytes, m': Bytes, h: HookDescriptor) {
    Agree(m, m', h.oldProc, h.oldProc + Block(h))
  }

  lemma AgreeWithin(m: Bytes, m': Bytes, a: nat, b: nat, lo: nat, hi: nat)
    requires Agree(m, m', a, b) && a <= lo <= hi <= b
    ensures Agree(m, m', lo, hi)
  {
    forall k | lo <= k < hi ensures m[k] == m'[k] {
      assert m[k] == m[a..b][k - a] && m'[k] == m'[a..b][k - a];
    }
  }

  lemma FirstKept(original: Bytes, m: Bytes, m': Bytes, h: HookDescriptor)
    requires FirstIsOriginal(original, m, h) && BlockKept(m, m', h)
    ensures FirstIsOriginal(original, m', h)
  {
    hide BuildFrom, SizeOf, Jump;
    match h.kind
    case Splicing =>
      AgreeWithin(m, m', h.oldProc, h.oldProc + 64, h.oldProc, h.oldProc + h.oldCodeSize + 5);
    case DoubleHotPatch =>
    case HotPatch =>
      if h.oldProc != h.src + 2 {
        AgreeWithin(m, m', h.oldProc, h.oldProc + 16, h.oldProc, h.oldProc + 7);
      }
  }

  lemma LinkKept(m: Bytes, m': Bytes, h: HookDescriptor, previous: Address)
    requires Link(m, h, previous) && BlockKept(m, m', h)
    ensures Link(m', h, previous)
  {
    hide Jump;
    if h.kind == Splicing {
      AgreeWithin(m, m', h.oldProc, h.oldProc + 64, h.oldProc, h.oldProc + 10);
    }
  }

  lemma LinksKept(m: Bytes, m': Bytes, c: seq<HookDescriptor>)
    requires Linked(m, c) && forall i :: 0 <= i < |c| ==> BlockKept(m, m', c[i])
    ensures Linked(m', c)
  {
    hide Link, BlockKept;
    forall i | 1 <= i < |c| ensures Link(m', c[i], c[i - 1].newProc) {
      LinkKept(m, m', c[i], c[i - 1].newProc);
    }
  }

  lemma ChainKept(original: Bytes, m: Bytes, m': Bytes, t: Address, c: seq<HookDescriptor>)
    requires ChainInv(original, m, t, c) && Agree(m, m', t - 5, t + 5)
    requires forall i :: 0 <= i < |c| ==> BlockKept(m, m', c[i])
    ensures ChainInv(original, m', t, c)
  {
    hide FirstIsOriginal, Linked, Jump, BlockKept;
    AgreeWithin(m, m', t - 5, t + 5, t - 5, t);
    AgreeWithin(m, m', t - 5, t + 5, t, t + 5);
    AgreeWithin(m, m', t - 5, t + 5, t, t + 2);
    AgreeWithin(m, m', t - 5, t + 5, t + 2, t + 5);
    LinksKept(m, m', c);
    if c != [] {
      FirstKept(original, m, m', c[0]);
    }
  }

  // ----------------------------------------------------------------------------------------------
  // A new hook becomes the newest of its chain

  lemma PublishedBytes(m: Bytes, t: Address, newProc: Address)
    requires Window(m, t)
    ensures var p := Published(m, t, newProc);
      && p[t - 5..t] == Jump(t - 5, newProc) && p[t..t + 2] == SHORT_BACK && Agree(m, p, t + 2, t + 5)
      && forall a, b :: 0 <= a <= b <= |m| && (b <= t - 5 || t + 2 <= a) ==> p[a..b] == m[a..b]
  {
    hide Jump;
    var first := Write(m, t - 5, Jump(t - 5, newProc));
    var p := Published(m, t, newProc);
    WriteFrame(first, t, SHORT_BACK, t - 5, t);
    forall a, b | 0 <= a <= b <= |m| && (b <= t - 5 || t + 2 <= a) ensures p[a..b] == m[a..b] {
      WriteFrame(m, t - 5, Jump(t - 5, newProc), a, b);
      WriteFrame(first, t, SHORT_BACK, a, b);
    }
  }

  /** A procedure that can be hot patched without a buffer. */
  lemma FirstByName(original: Bytes, m: Bytes, t: Address, newProc: Address)
    requires IsMemory(m) && Window(m, t) && Agree(original, m, t - 5, t + 5) && m[t..t + 2] == MOV_EDI_EDI
    requires t + 2 < SPACE
    ensures ChainInv(original, Published(m, t, newProc), t, [HookDescriptor(HotPatch, t, t + 2, newProc, 2)])
  {
    hide Jump, BuildFrom, SizeOf, Published;
    PublishedBytes(m, t, newProc);
    AgreeWithin(original, m, t - 5, t + 5, t, t + 2);
    AgreeWithin(original, m, t - 5, t + 5, t + 2, t + 5);
  }

  lemma SameSize(original: Bytes, m: Bytes, t: nat, size: nat)
    requires t <= |m| && SizeOf(m[t..]).Some? && SizeOf(m[t..]).value.size == size
    requires Agree(original, m, t, t + size)
    ensures SizeOf(original[t..]).Some? && SizeOf(original[t..]).value.size == size
  {
    hide SizeOf, CodeFlags;
    var ins := m[t..][..size];
    SizeIsBounded(m[t..]);
    DecodingIsLocal(m[t..], ins);
    assert original[t..][..size] == original[t..t + size] && ins == m[t..t + size];
    DecodingIsLocal(m[t..], original[t..]);
  }

  lemma FirstMovedBytes(m: Bytes, t: Address, buf: Address)
    requires Window(m, t) && buf + 16 <= |m| && Apart(buf, 16, t - 5, 10)
    ensures var f := FirstMoved(m, t, buf);
      f[buf..buf + 7] == m[t..t + 2] + Jump(buf + 2, t + 2) && Agree(m, f, t - 5, t + 5)
  {
    hide Jump;
    WriteFrame(m, buf, m[t..t + 2] + Jump(buf + 2, t + 2), t - 5, t + 5);
  }

  /** A procedure whose first instruction has to be moved. */
  lemma FirstInBuffer(original: Bytes, m: Bytes, t: Address, newProc: Address, buf: Address)
    requires IsMemory(m) && Window(m, t) && Agree(original, m, t - 5, t + 5) && buf + 16 <= |m| && Apart(buf, 16, t - 5, 10)
    requires SizeOf(m[t..]).Some? && SizeOf(m[t..]).value.size == 2
    ensures ChainInv(original, Published(FirstMoved(m, t, buf), t, newProc), t, [HookDescriptor(HotPatch, t, buf, newProc, 2)])
  {
    hide Jump, BuildFrom, SizeOf, Published, FirstMoved;
    var f := FirstMoved(m, t, buf);
    FirstMovedBytes(m, t, buf);
    PublishedBytes(f, t, newProc);
    AgreeWithin(original, m, t - 5, t + 5, t, t + 2);
    AgreeWithin(original, m, t - 5, t + 5, t + 2, t + 5);
    AgreeWithin(m, f, t - 5, t + 5, t + 2, t + 5);
    SameSize(original, m, t, 2);
  }

  /** Replacing the displacement of the jump in the padding. */
  lemma RedirectedBytes(m: Bytes, t: Address, newProc: Address)
    requires Window(m, t) && m[t - 5] == 0xE9
    ensures var p := Write(m, t - 4, Bytes32(Wrap(newProc - t)));
      p[t - 5..t] == Jump(t - 5, newProc) && Agree(m, p, t, t + 5)
  {
    hide Bytes32, Wrap;
    var b := Bytes32(Wrap(newProc - t));
    var p := Write(m, t - 4, b);
    assert p[t - 5..t] == [p[t - 5]] + p[t - 4..t];
    WriteFrame(m, t - 4, b, t, t + 5);
  }

  /** A procedure that was already patched before the first hook. */
  lemma FirstForeign(original: Bytes, m: Bytes, t: Address, newProc: Address)
    requires IsMemory(m) && Window(m, t) && Agree(original, m, t - 5, t + 5) && AlreadyPatched(m, t)
    ensures ChainInv(original, Write(m, t - 4, Bytes32(Wrap(newProc - t))), t,
      [HookDescriptor(DoubleHotPatch, t, Wrap(t + Word32(m[t - 4..t])), newProc, 0)])
  {
    hide Jump, BuildFrom, SizeOf, Bytes32, Word32, Wrap, Write;
    var p := Write(m, t - 4, Bytes32(Wrap(newProc - t)));
    RedirectedBytes(m, t, newProc);
    AgreeWithin(m, p, t, t + 5, t, t + 2);
    AgreeWithin(m, p, t, t + 5, t + 2, t + 5);
    AgreeWithin(original, m, t - 5, t + 5, t, t + 2);
    AgreeWithin(original, m, t - 5, t + 5, t + 2, t + 5);
    AgreeWithin(original, m, t - 5, t + 5, t - 4, t);
    AgreeWithin(original, m, t - 5, t + 5, t - 5, t - 4);
    assert original[t - 5] == original[t - 5..t - 4][0] && m[t - 5] == m[t - 5..t - 4][0];
  }

  /** A procedure whose first instructions are moved. */
  lemma FirstSpliced(original: Bytes, m: Bytes, t: Address, newProc: Address, buf: Address, span: nat)
    requires IsMemory(m) && Window(m, t) && 5 <= span && Agree(original, m, t - 5, t + span)
    requires Roomy(m, t, buf, BuildFrom(m, t, buf, 0)) && BuildFrom(m, t, buf, 0).Built? && BuildFrom(m, t, buf, 0).len <= span
    requires |BuildFrom(m, t, buf, 0).code| <= 64
    ensures var b := BuildFrom(m, t, buf, 0);
      ChainInv(original, Write(Write(m, buf, b.code), t, Jump(t, newProc)), t, [HookDescriptor(Splicing, t, buf, newProc, b.len)])
  {
    hide Jump, BuildFrom, SizeOf, Write;
    var b := BuildFrom(m, t, buf, 0);
    var first := Write(m, buf, b.code);
    var p := Write(first, t, Jump(t, newProc));
    AgreeWithin(original, m, t - 5, t + span, t, t + b.len);
    AgreeWithin(original, m, t - 5, t + span, t - 5, t);
    AgreeSwaps(original, m, t, t + b.len);
    BuildIsLocal(m, original, t, buf, 0, b.len);
    WriteFrame(m, buf, b.code, t - 5, t);
    WriteFrame(first, t, Jump(t, newProc), t - 5, t);
    WriteFrame(first, t, Jump(t, newProc), buf, buf + b.len + 5);
  }

  lemma AgreeSwaps(m: Bytes, m': Bytes, a: nat, b: nat)
    requires Agree(m, m', a, b)
    ensures Agree(m', m, a, b)
  {
  }

  /** The first hook of a procedure. */
  lemma FirstHook(original: Bytes, m: Bytes, t: Address, newProc: Address, small: Address, large: Address, span: nat)
    requires Hookable(m, t, small, large) && 5 <= span && Agree(original, m, t - 5, t + span) && t + span <= SPACE
    requires BuildFrom(m, t, large, 0).Built? ==> BuildFrom(m, t, large, 0).len <= span
    requires SetHookOn(m, t, newProc, small, large).Hooked?
    ensures var r := SetHookOn(m, t, newProc, small, large); ChainInv(original, r.memory, t, [r.hook])
  {
    hide Jump, BuildFrom, SizeOf, Write, Published, FirstMoved, ChainInv, Bytes32, Word32, Wrap, Roomy;
    AgreeWithin(original, m, t - 5, t + span, t - 5, t + 5);
    if Padded(m, t) && m[t..t + 2] == MOV_EDI_EDI {
      FirstByName(original, m, t, newProc);
    } else if Padded(m, t) && SizeOf(m[t..]).Some? && SizeOf(m[t..]).value.size == 2 {
      FirstInBuffer(original, m, t, newProc, small);
    } else if !Padded(m, t) && AlreadyPatched(m, t) {
      FirstForeign(original, m, t, newProc);
    } else {
      FirstSpliced(original, m, t, newProc, large, span);
    }
  }

  /** A procedure that begins with a near jump is not hot patched: the jump is five bytes long, and neither
      MOV EDI, EDI nor a short jump. */
  lemma JumpIsNotHotPatched(m: Bytes, t: Address, newest: Address, newProc: Address, small: Address)
    requires IsMemory(m) && Window(m, t) && small + 16 <= |m| && m[t..t + 5] == Jump(t, newest)
    ensures HotPatched(m, t, newProc, small) == Refused
  {
    hide Jump, BuildFrom, SizeOf, Write, Published, FirstMoved, Bytes32, Wrap, Padded, InstructionAt;
    var j := Jump(t, newest);
    JumpDecodes(t, newest);
    FoundAt(m, t, j);
    SeenThrough(m, t, j);
    assert SizeOf(m[t..]).value.size == 5;
    assert m[t] == m[t..t + 5][0] == j[..1][0] == 0xE9;
    assert m[t..t + 2][0] == 0xE9;
    assert MOV_EDI_EDI[0] == 0x8B && SHORT_BACK[0] == 0xEB;
    assert m[t..t + 2] != MOV_EDI_EDI;
    assert m[t..t + 2] != SHORT_BACK;
    assert !AlreadyPatched(m, t);
  }

  /** set_hook on a spliced procedure: the jump to the newest hook is what moves. */
  lemma SplicedAgain(m: Bytes, t: Address, newest: Address, newProc: Address, small: Address, large: Address)
    requires CanHook(m, t, small, large) && m[t..t + 5] == Jump(t, newest)
    ensures HotPatched(m, t, newProc, small) == Refused
    ensures BuildFrom(m, t, large, 0) == Built(Jump(large, newest) + Jump(large + 5, t + 5), 5)
  {
    hide Jump, BuildFrom, SizeOf, HotPatched, Roomy, Move, Accepted, InstructionAt;
    var j := Jump(t, newest);
    JumpIsNotHotPatched(m, t, newest, newProc, small);
    JumpDecodes(t, newest);
    FoundAt(m, t, j);
    TurnOn(m, t, large, 0, j);
    JumpMoves(t, newest, large);
  }

  /** A near jump keeps its target when it moves. */
  lemma JumpMoves(t: nat, to: Address, buf: nat)
    ensures Accepted(Jump(t, to)) && Move(Jump(t, to), t, buf) == Jump(buf, to)
  {
    hide SizeOf, CodeFlags, IsInstruction, IsRelative, KeyLength, IsCall, Move, Bytes32, Word32, Wrap;
    var j := Jump(t, to);
    JumpDecodes(t, to);
    PlainBranchMoves(j, t, buf);
    WrapAdds(t - buf, to - t - 5);
    var moved := Move(j, t, buf);
    assert moved == moved[..1] + moved[1..];
  }

  lemma LinksGrow(m: Bytes, c: seq<HookDescriptor>, h: HookDescriptor)
    requires Linked(m, c) && c != [] && Link(m, h, Newest(c))
    ensures Linked(m, c + [h])
  {
    hide Link;
  }

  /** Another hook of a spliced procedure. */
  lemma NextSpliced(original: Bytes, m: Bytes, m': Bytes, t: Address, c: seq<HookDescriptor>, newProc: Address, large: Address)
    requires ChainInv(original, m, t, c) && c != [] && c[0].kind == Splicing && large + 64 <= |m| && Apart(large, 64, t - 5, 10)
    requires forall i :: 0 <= i < |c| ==> BlockKept(m, m', c[i])
    requires m' == Write(Write(m, large, Jump(large, Newest(c)) + Jump(large + 5, t + 5)), t, Jump(t, newProc))
    ensures ChainInv(original, m', t, c + [HookDescriptor(Splicing, t, large, newProc, 5)])
  {
    hide Jump, BuildFrom, SizeOf, Write, FirstIsOriginal, BlockKept, Linked;
    var h := HookDescriptor(Splicing, t, large, newProc, 5);
    var code := Jump(large, Newest(c)) + Jump(large + 5, t + 5);
    var first := Write(m, large, code);
    WriteFrame(m, large, code, t - 5, t);
    WriteFrame(first, t, Jump(t, newProc), t - 5, t);
    WriteFrame(first, t, Jump(t, newProc), large, large + 10);
    LinksKept(m, m', c);
    LinksGrow(m', c, h);
    FirstKept(original, m, m', c[0]);
  }

  /** Another hook of a hot-patched procedure. */
  lemma NextRedirected(original: Bytes, m: Bytes, m': Bytes, t: Address, c: seq<HookDescriptor>, newProc: Address)
    requires ChainInv(original, m, t, c) && c != [] && c[0].kind != Splicing && m[t - 5] == 0xE9
    requires forall i :: 0 <= i < |c| ==> BlockKept(m, m', c[i])
    requires m' == Write(m, t - 4, Bytes32(Wrap(newProc - t)))
    ensures ChainInv(original, m', t, c + [HookDescriptor(DoubleHotPatch, t, Newest(c), newProc, 0)])
  {
    hide Jump, BuildFrom, SizeOf, Write, FirstIsOriginal, BlockKept, Linked, Bytes32, Wrap;
    var h := HookDescriptor(DoubleHotPatch, t, Newest(c), newProc, 0);
    RedirectedBytes(m, t, newProc);
    AgreeWithin(m, m', t, t + 5, t, t + 2);
    AgreeWithin(m, m', t, t + 5, t + 2, t + 5);
    LinksKept(m, m', c);
    LinksGrow(m', c, h);
    FirstKept(original, m, m', c[0]);
  }

  /** set_hook on a hot-patched procedure exchanges the displacement. */
  lemma RedirectedAgain(m: Bytes, t: Address, newest: Address, newProc: Address, small: Address)
    requires IsMemory(m) && Window(m, t) && small + 16 <= |m|
    requires m[t - 5..t] == Jump(t - 5, newest) && m[t..t + 2] == SHORT_BACK
    ensures m[t - 5] == 0xE9
    ensures HotPatched(m, t, newProc, small) ==
      Hooked(Write(m, t - 4, Bytes32(Wrap(newProc - t))), HookDescriptor(DoubleHotPatch, t, newest, newProc, 0))
  {
    hide SizeOf, Write, Published, FirstMoved, Bytes32, Wrap, Word32;
    var b := m[t - 5..t];
    assert m[t - 5] == b[0] && m[t - 4..t] == b[1..];
    WrapRound(t, newest);
  }

  // ----------------------------------------------------------------------------------------------
  // What one call changes

  predicate Within(a: nat, low: nat, size: nat) {
    low <= a < low + size
  }

  /** Nothing changes but the procedure's ten bytes and the buffers. */
  predicate ChangesOnly(m: Bytes, m': Bytes, t: Address, small: Address, large: Address) {
    |m'| == |m| && 5 <= t &&
    forall a :: 0 <= a < |m| && !Within(a, t - 5, 10) && !Within(a, small, 16) && !Within(a, large, 64) ==> m'[a] == m[a]
  }

  lemma PublishingChanges(m: Bytes, t: Address, newProc: Address, small: Address, large: Address)
    requires Window(m, t)
    ensures ChangesOnly(m, Published(m, t, newProc), t, small, large)
  {
    hide Jump;
  }

  lemma MovingChanges(m: Bytes, t: Address, small: Address, large: Address)
    requires Window(m, t) && small + 16 <= |m|
    ensures ChangesOnly(m, FirstMoved(m, t, small), t, small, large)
  {
    hide Jump;
  }

  lemma SplicingChanges(m: Bytes, t: Address, newProc: Address, small: Address, large: Address, code: Bytes)
    requires Window(m, t) && large + 64 <= |m| && |code| <= 64
    ensures ChangesOnly(m, Write(Write(m, large, code), t, Jump(t, newProc)), t, small, large)
  {
    hide Jump;
  }

  lemma ChangesTwice(m: Bytes, m': Bytes, m'': Bytes, t: Address, small: Address, large: Address)
    requires ChangesOnly(m, m', t, small, large) && ChangesOnly(m', m'', t, small, large)
    ensures ChangesOnly(m, m'', t, small, large)
  {
  }

  /** The buffer behind a new hook is one of the two that were handed out. */
  predicate OwnBlock(h: HookDescriptor, small: Address, large: Address) {
    Block(h) > 0 ==> (h.oldProc == small && Block(h) == 16) || (h.oldProc == large && Block(h) == 64)
  }

  lemma HookingChanges(m: Bytes, t: Address, newProc: Address, small: Address, large: Address)
    requires Hookable(m, t, small, large) && SetHookOn(m, t, newProc, small, large).Hooked?
    ensures var r := SetHookOn(m, t, newProc, small, large);
      && ChangesOnly(m, r.memory, t, small, large) && OwnBlock(r.hook, small, large)
      && r.hook.src == t && r.hook.newProc == newProc
  {
    hide Jump, BuildFrom, SizeOf, Write, Published, FirstMoved, ChangesOnly, Bytes32, Word32, Wrap;
    PublishingChanges(m, t, newProc, small, large);
    MovingChanges(m, t, small, large);
    PublishingChanges(FirstMoved(m, t, small), t, newProc, small, large);
    ChangesTwice(m, FirstMoved(m, t, small), Published(FirstMoved(m, t, small), t, newProc), t, small, large);
    RedirectingChanges(m, t, newProc, small, large);
    if BuildFrom(m, t, large, 0).Built? {
      SplicingChanges(m, t, newProc, small, large, BuildFrom(m, t, large, 0).code);
    }
  }

  lemma RedirectingChanges(m: Bytes, t: Address, newProc: Address, small: Address, large: Address)
    requires Window(m, t)
    ensures ChangesOnly(m, Write(m, t - 4, Bytes32(Wrap(newProc - t))), t, small, large)
  {
    hide Bytes32, Wrap;
  }

  lemma KeptElsewhere(m: Bytes, m': Bytes, t: Address, small: Address, large: Address, lo: nat, size: nat)
    requires ChangesOnly(m, m', t, small, large) && lo + size <= |m|
    requires size == 0 || (Apart(lo, size, t - 5, 10) && Apart(lo, size, small, 16) && Apart(lo, size, large, 64))
    ensures Agree(m, m', lo, lo + size)
  {
  }

  // ----------------------------------------------------------------------------------------------
  // The invariant

  predicate InHeap(s: Setting, h: HookDescriptor) {
    Block(h) > 0 ==> s.heapLow <= h.oldProc && h.oldProc + Block(h) <= s.heapHigh
  }

  /** A procedure's chain, and its code behind the ten bytes. */
  predicate TargetInv(s: Setting, w: World, t: Address)
    requires t in s.spans
  {
    && ChainInv(s.original, w.memory, t, ChainOf(w.hooks, t))
    && Agree(s.original, w.memory, t + 5, t + s.spans[t])
  }

  predicate InSpan(s: Setting, t: Address, a: nat)
    requires t in s.spans
  {
    t - 5 <= a < t + s.spans[t]
  }

  /** Memory that belongs neither to a procedure nor to the allocator never changes. */
  predicate RestKept(s: Setting, w: World) {
    |w.memory| == |s.original| &&
    forall a :: 0 <= a < |s.original| && !(s.heapLow <= a < s.heapHigh) && (forall t :: t in s.spans ==> !InSpan(s, t, a))
      ==> w.memory[a] == s.original[a]
  }

  predicate WorldInv(s: Setting, w: World) {
    && IsMemory(w.memory) && RestKept(s, w)
    && (forall i :: 0 <= i < |w.hooks| ==> w.hooks[i].src in s.spans && InHeap(s, w.hooks[i]))
    && (forall t :: t in s.spans ==> TargetInv(s, w, t))
  }

  lemma BlocksKept(s: Setting, w: World, m': Bytes, c: Call, i: nat)
    requires Proper(s) && WorldInv(s, w) && CallOk(s, w, c) && ChangesOnly(w.memory, m', c.src, c.small, c.large)
    requires i < |w.hooks|
    ensures BlockKept(w.memory, m', w.hooks[i])
  {
    hide BuildFrom, ChangesOnly, Hookable, TargetInv, RestKept;
    var h := w.hooks[i];
    assert ProperSpan(s, c.src);
    KeptElsewhere(w.memory, m', c.src, c.small, c.large, h.oldProc, Block(h));
  }

  lemma BehindKept(s: Setting, w: World, m': Bytes, c: Call, t: Address)
    requires Proper(s) && WorldInv(s, w) && CallOk(s, w, c) && ChangesOnly(w.memory, m', c.src, c.small, c.large)
    requires t in s.spans
    ensures Agree(s.original, m', t + 5, t + s.spans[t])
    ensures t != c.src ==> Agree(w.memory, m', t - 5, t + 5)
  {
    hide BuildFrom, ChangesOnly, Hookable, ChainInv, RestKept;
    assert ProperSpan(s, c.src) && ProperSpan(s, t) && TargetInv(s, w, t);
    KeptElsewhere(w.memory, m', c.src, c.small, c.large, t + 5, s.spans[t] - 5);
    AgreesOn(s.original, w.memory, m', t + 5, t + s.spans[t]);
    if t != c.src {
      KeptElsewhere(w.memory, m', c.src, c.small, c.large, t - 5, 10);
    }
  }

  lemma AgreesOn(m: Bytes, m': Bytes, m'': Bytes, a: nat, b: nat)
    requires Agree(m, m', a, b) && Agree(m', m'', a, b)
    ensures Agree(m, m'', a, b)
  {
  }

  lemma RestStaysKept(s: Setting, w: World, w': World, c: Call)
    requires Proper(s) && WorldInv(s, w) && CallOk(s, w, c) && ChangesOnly(w.memory, w'.memory, c.src, c.small, c.large)
    ensures RestKept(s, w')
  {
    hide BuildFrom, Hookable, TargetInv;
    assert ProperSpan(s, c.src);
    forall a | 0 <= a < |s.original| && !(s.heapLow <= a < s.heapHigh) && (forall t :: t in s.spans ==> !InSpan(s, t, a))
      ensures w'.memory[a] == s.original[a]
    {
      assert !InSpan(s, c.src, a);
    }
  }

  /** The chain of a procedure that gets no new hook. */
  lemma UnhookedKept(s: Setting, w: World, w': World, c: Call, t: Address)
    requires Proper(s) && WorldInv(s, w) && CallOk(s, w, c) && ChangesOnly(w.memory, w'.memory, c.src, c.small, c.large)
    requires t in s.spans && ChainOf(w'.hooks, t) == ChainOf(w.hooks, t) && Agree(w.memory, w'.memory, t - 5, t + 5)
    ensures TargetInv(s, w', t)
  {
    hide BuildFrom, ChangesOnly, Hookable, ChainInv, RestKept, BlockKept, InHeap, Free;
    assert TargetInv(s, w, t);
    BehindKept(s, w, w'.memory, c, t);
    ChainBlocks(s, w, w'.memory, c, t, ChainOf(w.hooks, t));
    ChainKept(s.original, w.memory, w'.memory, t, ChainOf(w.hooks, t));
  }

  lemma ChainBlocks(s: Setting, w: World, m': Bytes, c: Call, t: Address, chain: seq<HookDescriptor>)
    requires chain == ChainOf(w.hooks, t)
    requires Proper(s) && WorldInv(s, w) && CallOk(s, w, c) && ChangesOnly(w.memory, m', c.src, c.small, c.large)
    ensures forall i :: 0 <= i < |chain| ==> BlockKept(w.memory, m', chain[i])
  {
    hide Proper, WorldInv, CallOk, ChangesOnly, BlockKept;
    forall i | 0 <= i < |chain| ensures BlockKept(w.memory, m', chain[i]) {
      var k :| 0 <= k < |w.hooks| && w.hooks[k] == chain[i];
      BlocksKept(s, w, m', c, k);
    }
  }

  /** The chain of the procedure that is hooked. */
  lemma HookedGrows(s: Setting, w: World, c: Call)
    requires Proper(s) && WorldInv(s, w) && CallOk(s, w, c) && SetHookOn(w.memory, c.src, c.newProc, c.small, c.large).Hooked?
    ensures var r := SetHookOn(w.memory, c.src, c.newProc, c.small, c.large);
      ChainInv(s.original, r.memory, c.src, ChainOf(w.hooks, c.src) + [r.hook])
  {
    hide BuildFrom, ChangesOnly, CanHook, ChainInv, RestKept, BlockKept, InHeap, Free, SetHookOn;
    var t, m := c.src, w.memory;
    var chain := ChainOf(w.hooks, t);
    var r := SetHookOn(m, t, c.newProc, c.small, c.large);
    assert ProperSpan(s, t) && TargetInv(s, w, t);
    HookingChanges(m, t, c.newProc, c.small, c.large);
    ChainBlocks(s, w, r.memory, c, t, chain);
    GrownChain(s.original, m, t, chain, c.newProc, c.small, c.large, s.spans[t]);
  }

  lemma GrownChain(original: Bytes, m: Bytes, t: Address, c: seq<HookDescriptor>, newProc: Address, small: Address, large: Address,
                   span: nat)
    requires Hookable(m, t, small, large) && SetHookOn(m, t, newProc, small, large).Hooked?
    requires ChainInv(original, m, t, c) && 5 <= span && t + span <= SPACE && Agree(original, m, t + 5, t + span)
    requires BuildFrom(m, t, large, 0).Built? ==> BuildFrom(m, t, large, 0).len <= span
    requires forall i :: 0 <= i < |c| ==> BlockKept(m, SetHookOn(m, t, newProc, small, large).memory, c[i])
    ensures var r := SetHookOn(m, t, newProc, small, large); ChainInv(original, r.memory, t, c + [r.hook])
  {
    hide BuildFrom, BlockKept, SizeOf, Jump, HotPatched, Linked, FirstIsOriginal, SameMode, Write, Bytes32, Wrap, Roomy, SHORT_BACK;
    var r := SetHookOn(m, t, newProc, small, large);
    if c == [] {
      JoinAgree(original, m, t - 5, t + 5, t + span);
      FirstHook(original, m, t, newProc, small, large, span);
      assert c + [r.hook] == [r.hook];
    } else if c[0].kind == Splicing {
      SplicedAgain(m, t, Newest(c), newProc, small, large);
      NextSpliced(original, m, r.memory, t, c, newProc, large);
    } else {
      RedirectedAgain(m, t, Newest(c), newProc, small);
      NextRedirected(original, m, r.memory, t, c, newProc);
    }
  }

  lemma JoinAgree(m: Bytes, m': Bytes, a: nat, b: nat, c: nat)
    requires Agree(m, m', a, b) && Agree(m, m', b, c)
    ensures Agree(m, m', a, c)
  {
    assert m[a..c] == m[a..b] + m[b..c] && m'[a..c] == m'[a..b] + m'[b..c];
  }

  lemma StepKeepsInv(s: Setting, w: World, c: Call, w': World)
    requires Proper(s) && WorldInv(s, w) && Step(s, w, c, w')
    ensures WorldInv(s, w')
  {
    hide BuildFrom, ChangesOnly, Hookable, TargetInv, RestKept, InHeap, SetHookOn, CallOk, OwnBlock, OnlyBuffer, Proper, WorldInv;
    StepChanges(s, w, c, w');
    RestStaysKept(s, w, w', c);
    HooksStayKnown(s, w, c, w');
    forall t | t in s.spans ensures TargetInv(s, w', t) {
      TargetStep(s, w, c, w', t);
    }
    InvFrom(s, w');
  }

  lemma InvFrom(s: Setting, w: World)
    requires IsMemory(w.memory) && RestKept(s, w)
    requires forall i :: 0 <= i < |w.hooks| ==> w.hooks[i].src in s.spans && InHeap(s, w.hooks[i])
    requires forall t :: t in s.spans ==> TargetInv(s, w, t)
    ensures WorldInv(s, w)
  {
    hide RestKept, InHeap, TargetInv;
  }

  lemma StepChanges(s: Setting, w: World, c: Call, w': World)
    requires Proper(s) && WorldInv(s, w) && Step(s, w, c, w')
    ensures IsMemory(w'.memory) && ChangesOnly(w.memory, w'.memory, c.src, c.small, c.large) && CallOk(s, w, c)
  {
    hide BuildFrom, TargetInv, RestKept, InHeap, SetHookOn, Roomy, Free, ProperSpan;
    if SetHookOn(w.memory, c.src, c.newProc, c.small, c.large).Hooked? {
      HookingChanges(w.memory, c.src, c.newProc, c.small, c.large);
    }
  }

  lemma HooksStayKnown(s: Setting, w: World, c: Call, w': World)
    requires WorldInv(s, w) && Step(s, w, c, w')
    ensures forall i :: 0 <= i < |w'.hooks| ==> w'.hooks[i].src in s.spans && InHeap(s, w'.hooks[i])
  {
    hide BuildFrom, TargetInv, RestKept, SetHookOn, CanHook;
    if SetHookOn(w.memory, c.src, c.newProc, c.small, c.large).Hooked? {
      HookingChanges(w.memory, c.src, c.newProc, c.small, c.large);
    }
  }

  lemma TargetStep(s: Setting, w: World, c: Call, w': World, t: Address)
    requires Proper(s) && WorldInv(s, w) && Step(s, w, c, w') && t in s.spans
    ensures TargetInv(s, w', t)
  {
    hide BuildFrom, ChangesOnly, CanHook, ChainInv, RestKept, InHeap, SetHookOn, WorldInv, Proper, Free, OnlyBuffer;
    StepChanges(s, w, c, w');
    BehindKept(s, w, w'.memory, c, t);
    if SetHookOn(w.memory, c.src, c.newProc, c.small, c.large).Refused? {
      RefusedKeeps(s, w, c, w', t);
    } else {
      HookingChanges(w.memory, c.src, c.newProc, c.small, c.large);
      ChainAppends(w.hooks, w'.hooks[|w.hooks|], t);
      if t == c.src {
        HookedGrows(s, w, c);
      } else {
        UnhookedKept(s, w, w', c, t);
      }
    }
  }

  lemma ChainAppends(hooks: seq<HookDescriptor>, h: HookDescriptor, t: Address)
    ensures ChainOf(hooks + [h], t) == ChainOf(hooks, t) + (if h.src == t then [h] else [])
  {
    assert (hooks + [h])[..|hooks|] == hooks;
  }

  lemma RefusedKeeps(s: Setting, w: World, c: Call, w': World, t: Address)
    requires Proper(s) && WorldInv(s, w) && Step(s, w, c, w') && t in s.spans
    requires SetHookOn(w.memory, c.src, c.newProc, c.small, c.large).Refused?
    ensures TargetInv(s, w', t)
  {
    hide BuildFrom, ChainInv, RestKept, InHeap, SetHookOn, Proper, WorldInv, TargetInv, Roomy;
    StepChanges(s, w, c, w');
    HeapApart(s, w, c, t);
    UnhookedKept(s, w, w', c, t);
  }

  lemma HeapApart(s: Setting, w: World, c: Call, t: Address)
    requires Proper(s) && WorldInv(s, w) && CallOk(s, w, c) && t in s.spans
    ensures 5 <= t && t + 5 <= |w.memory| && Apart(c.large, 64, t - 5, 10)
  {
    hide BuildFrom, Hookable, RestKept, InHeap, TargetInv;
    assert ProperSpan(s, t);
  }
}
