/** The hot patch byte for byte: which procedures it takes, and what it leaves in memory. */
module HotPatchBytes {
  import opened Words
  import opened Ldasm
  import opened Memory
  import opened Trampoline
  import opened CodeHook

  /** The five bytes in front of the procedure are filler of one kind. */
  predicate Filler(m: Bytes, src: nat, b: Byte)
    requires 5 <= src <= |m|
  {
    m[src - 5] == b && m[src - 4] == b && m[src - 3] == b && m[src - 2] == b && m[src - 1] == b
  }

  /** The little-endian number in the four bytes from a on. */
  function Number(m: Bytes, a: nat): nat
    requires a + 4 <= |m|
  {
    m[a] as int + 0x100 * m[a + 1] as int + 0x1_0000 * m[a + 2] as int + 0x100_0000 * m[a + 3] as int
  }

  lemma NumberIsWord(m: Bytes, a: nat)
    requires a + 4 <= |m|
    ensures Word32(m[a..a + 4]) == Number(m, a)
  {
  }

  lemma PaddedMeans(m: Bytes, src: nat)
    requires Window(m, src)
    ensures Padded(m, src) <==> Filler(m, src, 0x90) || Filler(m, src, 0xCC)
    ensures m[src..src + 2] == MOV_EDI_EDI <==> m[src] == 0x8B && m[src + 1] == 0xFF
    ensures AlreadyPatched(m, src) <==> m[src - 5] == 0xE9 && m[src] == 0xEB && m[src + 1] == 0xF9
  {
    var p, f := m[src - 5..src], m[src..src + 2];
    assert p == [m[src - 5], m[src - 4], m[src - 3], m[src - 2], m[src - 1]];
    assert f == [m[src], m[src + 1]];
  }

  /** The procedure is behind filler and begins with a two-byte instruction, or was hot patched before. */
  predicate HotPatchable(m: Bytes, src: nat)
    requires Window(m, src)
  {
    if Filler(m, src, 0x90) || Filler(m, src, 0xCC)
    then (m[src] == 0x8B && m[src + 1] == 0xFF) || (SizeOf(m[src..]).Some? && SizeOf(m[src..]).value.size == 2)
    else m[src - 5] == 0xE9 && m[src] == 0xEB && m[src + 1] == 0xF9
  }

  /** hot_patch takes exactly the procedures behind five NOPs or five breakpoints that begin with
      MOV EDI, EDI or another two-byte instruction, and those that a hot patch was at before. */
  lemma HotPatchTakes(m: Bytes, src: Address, newProc: Address, buf: Address)
    requires IsMemory(m) && Window(m, src) && buf + 16 <= |m|
    ensures HotPatched(m, src, newProc, buf).Hooked? <==> HotPatchable(m, src)
    ensures var r := HotPatched(m, src, newProc, buf);
      r.Hooked? ==>
        && r.hook.src == src && r.hook.newProc == newProc
        && (if m[src - 5] == 0xE9
            then r.hook.kind.DoubleHotPatch? && r.hook.oldCodeSize == 0
                 && r.hook.oldProc == (src + Number(m, src - 4)) % 0x1_0000_0000
            else r.hook.kind.HotPatch? && r.hook.oldCodeSize == 2
                 && r.hook.oldProc == (if m[src] == 0x8B && m[src + 1] == 0xFF then src + 2 else buf))
  {
    hide SizeOf, Write, Jump, Bytes32, Word32;
    PaddedMeans(m, src);
    NumberIsWord(m, src - 4);
  }

  lemma JumpBytes(from: int, to: int)
    ensures var j := Jump(from, to); j[0] == 0xE9 && Number(j, 1) == (to - from - 5) % 0x1_0000_0000
  {
    var j := Jump(from, to);
    NumberIsWord(j, 1);
    assert j[1..5] == Bytes32(Wrap(to - from - 5));
  }

  /** A near jump is at address a, with this displacement. */
  predicate NearJumpAt(m: Bytes, a: nat, distance: int)
    requires a + 5 <= |m|
  {
    m[a] == 0xE9 && Number(m, a + 1) == distance % 0x1_0000_0000
  }

  lemma JumpIsThere(m: Bytes, a: nat, from: int, to: int)
    requires a + 5 <= |m| && m[a..a + 5] == Jump(from, to)
    ensures NearJumpAt(m, a, to - from - 5)
  {
    hide Jump;
    JumpBytes(from, to);
    var j := m[a..a + 5];
    assert m[a] == j[0] && m[a + 1] == j[1] && m[a + 2] == j[2] && m[a + 3] == j[3] && m[a + 4] == j[4];
  }

  lemma PublishedBytes(m: Bytes, src: nat, newProc: nat)
    requires Window(m, src)
    ensures var r := Published(m, src, newProc);
      && NearJumpAt(r, src - 5, newProc - src) && r[src] == 0xEB && r[src + 1] == 0xF9
      && forall a :: 0 <= a < |m| && !(src - 5 <= a < src + 2) ==> r[a] == m[a]
  {
    hide Jump, Write;
    var w, r := Write(m, src - 5, Jump(src - 5, newProc)), Published(m, src, newProc);
    WriteFrame(w, src, SHORT_BACK, src - 5, src);
    JumpIsThere(r, src - 5, src - 5, newProc);
    assert r[src] == r[src..src + 2][0] && r[src + 1] == r[src..src + 2][1];
  }

  lemma FirstMovedBytes(m: Bytes, src: nat, buf: nat)
    requires Window(m, src) && buf + 16 <= |m|
    ensures var r := FirstMoved(m, src, buf);
      && r[buf] == m[src] && r[buf + 1] == m[src + 1] && NearJumpAt(r, buf + 2, src - buf - 5)
      && forall a :: 0 <= a < |m| && !(buf <= a < buf + 7) ==> r[a] == m[a]
  {
    hide Jump, Write;
    var r, j := FirstMoved(m, src, buf), Jump(buf + 2, src + 2);
    var b := m[src..src + 2] + j;
    assert r[buf..buf + 7] == b && b[2..7] == j;
    assert r[buf + 2..buf + 7] == r[buf..buf + 7][2..7];
    JumpIsThere(r, buf + 2, buf + 2, src + 2);
    assert r[buf] == r[buf..buf + 7][0] && r[buf + 1] == r[buf..buf + 7][1];
  }

  lemma RepatchedBytes(m: Bytes, src: nat, newProc: nat)
    requires Window(m, src)
    ensures var r := Write(m, src - 4, Bytes32(Wrap(newProc - src)));
      && Number(r, src - 4) == (newProc - src) % 0x1_0000_0000
      && forall a :: 0 <= a < |m| && !(src - 4 <= a < src) ==> r[a] == m[a]
  {
    hide Write;
    NumberIsWord(Write(m, src - 4, Bytes32(Wrap(newProc - src))), src - 4);
  }

  /** The hot patch keeps the first two bytes in its buffer. */
  predicate UsesBuffer(h: HookDescriptor, buf: Address) {
    h.kind.HotPatch? && h.oldProc == buf && h.oldProc != h.src + 2
  }

  /** What the hot patch leaves behind: in the padding a near jump to the hook, at the procedure a short
      jump to it; in the buffer, if it is used, the two bytes that were at the procedure and a near jump
      behind them; everything else as it was. */
  lemma HotPatchWrites(m: Bytes, src: Address, newProc: Address, buf: Address)
    requires IsMemory(m) && Window(m, src) && buf + 16 <= |m| && Apart(buf, 16, src - 5, 10)
    ensures var r := HotPatched(m, src, newProc, buf);
      r.Hooked? ==>
        && |r.memory| == |m|
        && NearJumpAt(r.memory, src - 5, newProc - src) && r.memory[src] == 0xEB && r.memory[src + 1] == 0xF9
        && (UsesBuffer(r.hook, buf) ==>
              r.memory[buf] == m[src] && r.memory[buf + 1] == m[src + 1] && NearJumpAt(r.memory, buf + 2, src - buf - 5))
        && forall a :: 0 <= a < |m| && !(src - 5 <= a < src + 2) && !(UsesBuffer(r.hook, buf) && buf <= a < buf + 7) ==>
             r.memory[a] == m[a]
  {
    hide SizeOf, Jump, Bytes32, Word32, Published, FirstMoved, Write;
    PaddedMeans(m, src);
    PublishedBytes(m, src, newProc);
    FirstMovedBytes(m, src, buf);
    PublishedBytes(FirstMoved(m, src, buf), src, newProc);
    RepatchedBytes(m, src, newProc);
  }

  // ----------------------------------------------------------------------------------------------
  // set_hook

  /** set_hook hot patches whatever can be hot patched, and splices whatever else has no unprefixed short
      branch among the instructions that begin in its first five bytes. */
  lemma SetHookTakes(m: Bytes, src: Address, newProc: Address, small: Address, large: Address)
    requires CanHook(m, src, small, large)
    ensures var r := SetHookOn(m, src, newProc, small, large);
      if HotPatchable(m, src) then r == HotPatched(m, src, newProc, small) && r.Hooked? && !r.hook.kind.Splicing?
      else
        && (r.Refused? <==> exists k :: k in Boundaries(m, src, 0, 5) && ShortBranchAt(m, src + k))
        && (r.Hooked? ==>
              && r.hook.kind.Splicing? && r.hook.src == src && r.hook.newProc == newProc && r.hook.oldProc == large
              && NearJumpAt(r.memory, src, newProc - src - 5)
              && Boundaries(m, src, 0, r.hook.oldCodeSize) == Boundaries(m, src, 0, 5))
  {
    hide SizeOf, Jump, BuildFrom, Write, Boundaries, ShortBranchAt, Roomy;
    HotPatchTakes(m, src, newProc, small);
    BuildOutcome(m, src, large, 0);
    if SetHookOn(m, src, newProc, small, large).Hooked? && !HotPatchable(m, src) {
      JumpIsThere(SetHookOn(m, src, newProc, small, large).memory, src, src, newProc);
    }
  }
}
