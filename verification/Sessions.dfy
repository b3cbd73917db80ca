/** The find/use/drop discipline of debug.c over the reference-counted sessions: any number of
    concurrently running routines, each holding at most one item. */
module Sessions {
  import opened Words
  import opened DbgItem

  /** A running routine of debug.c.
      Attach: dbg_attach_call.  UserCall: dbg_set_filter, dbg_get_message, dbg_countinue.
      Hook: NewNtCreateThread, NewNtTerminateThread, dbg_process_exception, load_image_notify_routine.
      Terminated: dbg_process_terminated, in its loop or past it.  Delayed: dbg_delayed_term_event. */
  datatype Routine =
    | Attach(me: Process, target: Process)
    | UserCall(me: Process, target: Process)
    | Hook(target: Process)
    | Terminated(process: Process, looping: bool)
    | Delayed

  /** What a routine that has an item does with it next. */
  datatype Op =
    | SetChan       // debug->chan = chan
    | SetActive     // debug->active = 1
    | Using         // found; may enter the channel, or not
    | InChannel     // inside channel_recv, channel_send or channel_send_recv
    | Used          // done with the item
    | Deactivate    // dbg_delete_item: active = 0
    | ReleaseChan   //                  channel_release
    | DropList      //                  dbg_deref_item for the list
    | Drop          // dbg_deref_item for the routine's own reference
    | Unlink        // the count was zero: RemoveEntryList
    | FreeChan      //                     channel_free
    | FreeItem      //                     mem_free

  datatype Pc = Finding | Creating | With(i: ItemId, op: Op) | Done

  datatype Act = Act(routine: Routine, pc: Pc)

  datatype State = State(items: seq<Item>, acts: map<ActId, Act>)

  const FINISHED := Act(Delayed, Done)

  function At(s: State, a: ActId): Act {
    if a in s.acts then s.acts[a] else FINISHED
  }

  predicate FreeingOp(op: Op) {
    op.Unlink? || op.FreeChan? || op.FreeItem?
  }

  /** The routine owns a counted reference to item i. */
  predicate Holds(pc: Pc, i: ItemId) {
    pc.With? && pc.i == i && !FreeingOp(pc.op)
  }

  /** A routine starts; it moves on; or it takes the other branch: it leaves the channel alone, or
      hands its item to a new system thread running dbg_delayed_term_event. */
  datatype Move = Start(routine: Routine) | Go | Skip | Spawn(thread: ActId)

  function QueryOf(r: Routine): Query {
    match r
    case Attach(_, target) => Query(None, Some(target))
    case UserCall(me, target) => Query(Some(me), Some(target))
    case Hook(target) => Query(None, Some(target))
    case Terminated(process, looping) => if looping then Query(Some(process), None) else Query(None, Some(process))
    case Delayed => Query(None, None)
  }

  /** A step on an item is possible when nothing blocks it: channel_free waits for the threads inside.
      `Deactivate` is where "each item is deleted at most once" is assumed. */
  predicate OpEnabled(it: Item, r: Routine, op: Op) {
    match op
    case Using => !r.Terminated?
    case Deactivate => it.deleter.None?
    case FreeChan => it.inside == 0
    case _ => true
  }

  predicate Enabled(s: State, a: ActId, mv: Move) {
    var act := At(s, a);
    match mv
    case Start(r) => act.pc.Done? && !r.Delayed? && (r.Attach? ==> r.me != r.target) && (r.Terminated? ==> r.looping)
    case Skip => act.pc.With? && act.pc.op.Using? && !act.routine.Delayed?
    case Spawn(b) =>
      act.pc.With? && act.pc.op.Using? && act.routine.Terminated? && !act.routine.looping && b != a && At(s, b).pc.Done?
    case Go =>
      match act.pc
      case Finding => true
      case Creating => act.routine.Attach?
      case With(i, op) => i < |s.items| && OpEnabled(s.items[i], act.routine, op)
      case Done => false
  }

  /** Where a routine goes with the item it found. */
  function AfterFound(r: Routine): Op {
    match r
    case Attach(_, _) => Drop
    case Terminated(_, looping) => if looping then Deactivate else Using
    case _ => Using
  }

  /** Where a routine goes when it found none. */
  function AfterNone(r: Routine): Act {
    match r
    case Attach(_, _) => Act(r, Creating)
    case Terminated(p, looping) => if looping then Act(Terminated(p, false), Finding) else Act(r, Done)
    case _ => Act(r, Done)
  }

  /** Where a routine goes after its own reference is gone. */
  function AfterDrop(r: Routine): Pc {
    if r.Terminated? && r.looping then Finding else Done
  }

  /** The item after routine a's next operation on it. */
  function ItemAfter(it: Item, a: ActId, op: Op): Item {
    match op
    case SetChan => it.(hasChan := true)
    case SetActive => it.(active := true, published := true)
    case Using => it.(inside := it.inside + 1)
    case InChannel => it.(inside := it.inside - 1)
    case Used => it
    case Deactivate => it.(active := false, deleter := Some(a))
    case ReleaseChan => it.(released := true)
    case DropList => Dropped(it, a).(listRef := false)
    case Drop => Dropped(it, a)
    case Unlink => it.(linked := false)
    case FreeChan => it.(chanFreed := true)
    case FreeItem => it.(freed := true)
  }

  /** Where the routine goes after that operation. */
  function PcAfter(it: Item, r: Routine, i: ItemId, op: Op): Pc {
    match op
    case SetChan => With(i, SetActive)
    case SetActive => With(i, Drop)
    case Using => With(i, InChannel)
    case InChannel => With(i, Used)
    case Used => With(i, if r.Delayed? then Deactivate else Drop)
    case Deactivate => With(i, ReleaseChan)
    case ReleaseChan => With(i, DropList)
    case DropList => With(i, if it.refCount == 1 then Unlink else Drop)
    case Drop => if it.refCount == 1 then With(i, Unlink) else AfterDrop(r)
    case Unlink => With(i, FreeChan)
    case FreeChan => With(i, FreeItem)
    case FreeItem => AfterDrop(r)
  }

  function Goto(s: State, a: ActId, act: Act): (s': State)
    ensures At(s', a) == act && forall b {:trigger At(s', b)} :: b != a ==> At(s', b) == At(s, b)
  {
    s.(acts := s.acts[a := act])
  }

  function GoStep(s: State, a: ActId): State
    requires Enabled(s, a, Go)
  {
    var act := At(s, a);
    match act.pc
    case Finding =>
      var found := Find(s.items, QueryOf(act.routine));
      if found.None? then Goto(s, a, AfterNone(act.routine))
      else
        var i, it := found.value, s.items[found.value];
        Goto(s.(items := s.items[i := it.(refCount := it.refCount + 1)]), a, act.(pc := With(i, AfterFound(act.routine))))
    case Creating =>
      Goto(s.(items := s.items + [NewItem(act.routine.me, act.routine.target, a)]), a, act.(pc := With(|s.items|, SetChan)))
    case With(i, op) =>
      Goto(s.(items := s.items[i := ItemAfter(s.items[i], a, op)]), a, act.(pc := PcAfter(s.items[i], act.routine, i, op)))
    case Done => s
  }

  function Step(s: State, a: ActId, mv: Move): State
    requires Enabled(s, a, mv)
  {
    var act := At(s, a);
    match mv
    case Start(r) => Goto(s, a, Act(r, Finding))
    case Go => GoStep(s, a)
    case Skip => Goto(s, a, act.(pc := With(act.pc.i, if act.routine.Terminated? then Drop else Used)))
    case Spawn(b) => Goto(Goto(s, a, act.(pc := Done)), b, Act(Delayed, act.pc))
  }

  // ----------------------------------------------------------------------------------------------
  // Invariant

  predicate ItemOk(it: Item) {
    && (it.active ==> it.published && it.listRef && it.deleter.None?)
    && (it.published ==> it.hasChan)
    && (it.deleter.Some? ==> it.published)
    && (it.published && it.deleter.None? ==> it.active)
    && (!it.listRef ==> it.deleter.Some?)
    && (it.freer.Some? <==> it.refCount == 0)
    && (!it.linked || it.chanFreed ==> it.freer.Some?)
    && (it.freed ==> it.chanFreed)
  }

  /** What routine a knows about its item before an operation. */
  predicate OpClaim(it: Item, a: ActId, r: Routine, op: Op) {
    match op
    case SetChan => it.creator == a && !it.published && it.deleter.None?
    case SetActive => it.creator == a && !it.published && it.hasChan && it.deleter.None?
    case ReleaseChan => it.published && it.deleter == Some(a) && it.listRef
    case DropList => it.published && it.deleter == Some(a) && it.listRef
    case Unlink => it.freer == Some(a) && it.linked && !it.chanFreed
    case FreeChan => it.freer == Some(a) && !it.linked && !it.chanFreed
    case FreeItem => it.freer == Some(a) && it.chanFreed && !it.freed
    case _ => it.published
  }

  predicate Claim(items: seq<Item>, a: ActId, act: Act) {
    && (act.pc.With? ==> act.pc.i < |items| && OpClaim(items[act.pc.i], a, act.routine, act.pc.op))
    && (act.pc.Creating? ==> act.routine.Attach?)
  }

  function Holders(s: State, i: ItemId): set<ActId> {
    set a | a in s.acts && Holds(At(s, a).pc, i)
  }

  function Insiders(s: State, i: ItemId): set<ActId> {
    set a | a in s.acts && At(s, a).pc == With(i, InChannel)
  }

  function One(b: bool): int {
    if b then 1 else 0
  }

  ghost predicate Counted(s: State, i: ItemId)
    requires i < |s.items|
  {
    && s.items[i].refCount == |Holders(s, i)| + One(s.items[i].listRef)
    && s.items[i].inside == |Insiders(s, i)|
  }

  ghost predicate Inv(s: State) {
    && (forall i: ItemId :: i < |s.items| ==> ItemOk(s.items[i]) && Counted(s, i))
    && (forall a :: Claim(s.items, a, At(s, a)))
  }

  // ----------------------------------------------------------------------------------------------
  // One operation on one item, seen by the routine a that performs it and by another one, b

  /** The count covers both routines' references and the list's. */
  predicate Covered(it: Item, op: Op, opb: Op) {
    it.refCount >= One(!FreeingOp(op)) + One(!FreeingOp(opb)) + One(it.listRef)
  }

  predicate OpAfterOk(it: Item, a: ActId, r: Routine, op: Op) {
    var it' := ItemAfter(it, a, op);
    var pc' := PcAfter(it, r, 0, op);
    ItemOk(it') && (pc'.With? ==> OpClaim(it', a, r, pc'.op))
  }

  lemma OwnOp(it: Item, a: ActId, r: Routine, op: Op)
    requires ItemOk(it) && OpClaim(it, a, r, op) && OpEnabled(it, r, op)
    requires it.refCount >= One(!FreeingOp(op)) + One(it.listRef)
    ensures OpAfterOk(it, a, r, op)
  {
    match op
    case SetChan => case SetActive => case Using => case InChannel => case Used => case Deactivate =>
    case ReleaseChan => case DropList => case Drop => case Unlink => case FreeChan => case FreeItem =>
  }

  lemma OthersOp(it: Item, a: ActId, r: Routine, op: Op, b: ActId, rb: Routine, opb: Op)
    requires a != b && ItemOk(it) && OpClaim(it, a, r, op) && OpEnabled(it, r, op) && OpClaim(it, b, rb, opb)
    requires Covered(it, op, opb)
    ensures OpClaim(ItemAfter(it, a, op), b, rb, opb)
  {
    match op
    case SetChan => case SetActive => case Using => case InChannel => case Used => case Deactivate =>
    case ReleaseChan => case DropList => case Drop => case Unlink => case FreeChan => case FreeItem =>
  }

  lemma FoundItem(it: Item, a: ActId, r: Routine, b: ActId, rb: Routine, opb: Op)
    requires ItemOk(it) && it.active && it.refCount >= One(it.listRef)
    ensures var it' := it.(refCount := it.refCount + 1);
            && ItemOk(it') && OpClaim(it', a, r, AfterFound(r))
            && (OpClaim(it, b, rb, opb) ==> OpClaim(it', b, rb, opb))
  {
  }

  // ----------------------------------------------------------------------------------------------
  // Counting references

  lemma CountOthers(x: set<ActId>, a: ActId)
    ensures |x - {a}| == |x| - One(a in x)
  {
    if a !in x {
      assert x - {a} == x;
    }
  }

  lemma HoldersMeans(s: State, i: ItemId, b: ActId)
    ensures b in Holders(s, i) <==> Holds(At(s, b).pc, i)
    ensures b in Insiders(s, i) <==> At(s, b).pc == With(i, InChannel)
  {
  }

  lemma HoldersChange(s: State, s': State, a: ActId, i: ItemId)
    requires forall b {:trigger At(s', b)} :: b != a ==> At(s', b) == At(s, b)
    ensures |Holders(s', i)| - One(Holds(At(s', a).pc, i)) == |Holders(s, i)| - One(Holds(At(s, a).pc, i))
  {
    forall b | b != a ensures b in Holders(s', i) <==> b in Holders(s, i) {
      HoldersMeans(s, i, b);
      HoldersMeans(s', i, b);
    }
    assert Holders(s', i) - {a} == Holders(s, i) - {a};
    CountOthers(Holders(s, i), a);
    CountOthers(Holders(s', i), a);
    HoldersMeans(s, i, a);
    HoldersMeans(s', i, a);
  }

  lemma InsidersChange(s: State, s': State, a: ActId, i: ItemId)
    requires forall b {:trigger At(s', b)} :: b != a ==> At(s', b) == At(s, b)
    ensures |Insiders(s', i)| - One(At(s', a).pc == With(i, InChannel)) == |Insiders(s, i)| - One(At(s, a).pc == With(i, InChannel))
  {
    forall b | b != a ensures b in Insiders(s', i) <==> b in Insiders(s, i) {
      HoldersMeans(s, i, b);
      HoldersMeans(s', i, b);
    }
    assert Insiders(s', i) - {a} == Insiders(s, i) - {a};
    CountOthers(Insiders(s, i), a);
    CountOthers(Insiders(s', i), a);
    HoldersMeans(s, i, a);
    HoldersMeans(s', i, a);
  }

  /** Two different routines with an item are both covered by its count. */
  lemma BothCovered(s: State, i: ItemId, a: ActId, b: ActId)
    requires i < |s.items| && Counted(s, i) && a != b
    ensures s.items[i].refCount >= One(Holds(At(s, a).pc, i)) + One(Holds(At(s, b).pc, i)) + One(s.items[i].listRef)
  {
    HoldersMeans(s, i, a);
    HoldersMeans(s, i, b);
    CountOthers(Holders(s, i), a);
    CountOthers(Holders(s, i) - {a}, b);
  }

  // ----------------------------------------------------------------------------------------------
  // Every step keeps the invariant

  lemma OpCounts(it: Item, a: ActId, r: Routine, i: ItemId, op: Op)
    requires OpClaim(it, a, r, op) && (op.DropList? ==> it.refCount > 1)
    ensures var it', pc' := ItemAfter(it, a, op), PcAfter(it, r, i, op);
            && it'.refCount - One(it'.listRef) - One(Holds(pc', i)) == it.refCount - One(it.listRef) - One(!FreeingOp(op))
            && it'.inside - One(pc' == With(i, InChannel)) == it.inside - One(op.InChannel?)
  {
    match op
    case SetChan => case SetActive => case Using => case InChannel => case Used => case Deactivate =>
    case ReleaseChan => case DropList => case Drop => case Unlink => case FreeChan => case FreeItem =>
  }

  lemma OnItemKeepsCounts(s: State, a: ActId, i: ItemId)
    requires Inv(s) && Enabled(s, a, Go) && At(s, a).pc.With? && i < |s.items|
    ensures var s' := GoStep(s, a); |s'.items| == |s.items| && Counted(s', i)
  {
    var s', act := GoStep(s, a), At(s, a);
    assert Counted(s, i) && Claim(s.items, a, act);
    HoldersChange(s, s', a, i);
    InsidersChange(s, s', a, i);
    if i == act.pc.i {
      BothCovered(s, i, a, a + 1);
      OpCounts(s.items[i], a, act.routine, i, act.pc.op);
    }
  }

  lemma OnItemKeepsClaims(s: State, a: ActId, b: ActId)
    requires Inv(s) && Enabled(s, a, Go) && At(s, a).pc.With? && b != a
    ensures Claim(GoStep(s, a).items, b, At(s, b))
  {
    var act := At(s, a);
    assert Claim(s.items, a, act) && Claim(s.items, b, At(s, b)) && ItemOk(s.items[act.pc.i]) && Counted(s, act.pc.i);
    if At(s, b).pc.With? && At(s, b).pc.i == act.pc.i {
      BothCovered(s, act.pc.i, a, b);
      OthersOp(s.items[act.pc.i], a, act.routine, act.pc.op, b, At(s, b).routine, At(s, b).pc.op);
    }
  }

  lemma OnItemKeepsOwn(s: State, a: ActId)
    requires Inv(s) && Enabled(s, a, Go) && At(s, a).pc.With?
    ensures var s' := GoStep(s, a);
            && Claim(s'.items, a, At(s', a))
            && |s'.items| == |s.items|
            && forall j: ItemId :: j < |s'.items| ==> ItemOk(s'.items[j])
  {
    var act := At(s, a);
    assert Claim(s.items, a, act) && ItemOk(s.items[act.pc.i]) && Counted(s, act.pc.i);
    BothCovered(s, act.pc.i, a, a + 1);
    OwnOp(s.items[act.pc.i], a, act.routine, act.pc.op);
  }

  lemma OnItemKeepsInv(s: State, a: ActId)
    requires Inv(s) && Enabled(s, a, Go) && At(s, a).pc.With?
    ensures Inv(GoStep(s, a))
  {
    var s' := GoStep(s, a);
    OnItemKeepsOwn(s, a);
    forall j: ItemId | j < |s'.items| ensures ItemOk(s'.items[j]) && Counted(s', j) {
      OnItemKeepsCounts(s, a, j);
    }
    forall b ensures Claim(s'.items, b, At(s', b)) {
      if b != a {
        OnItemKeepsClaims(s, a, b);
      }
    }
  }

  lemma FindingKeepsInv(s: State, a: ActId)
    requires Inv(s) && At(s, a).pc.Finding?
    ensures Inv(GoStep(s, a))
  {
    hide Find, FindFrom, Holders, Insiders, ItemAfter, PcAfter;
    var s', act := GoStep(s, a), At(s, a);
    var found := Find(s.items, QueryOf(act.routine));
    forall j: ItemId | j < |s'.items| ensures ItemOk(s'.items[j]) && Counted(s', j) {
      assert ItemOk(s.items[j]) && Counted(s, j);
      HoldersChange(s, s', a, j);
      InsidersChange(s, s', a, j);
    }
    forall b ensures Claim(s'.items, b, At(s', b)) {
      assert Claim(s.items, b, At(s, b));
      if found.Some? {
        assert ItemOk(s.items[found.value]) && Counted(s, found.value);
        FoundItem(s.items[found.value], a, act.routine, b, At(s, b).routine, if At(s, b).pc.With? then At(s, b).pc.op else Used);
      }
    }
  }

  lemma CreatingKeepsInv(s: State, a: ActId)
    requires Inv(s) && At(s, a).pc.Creating?
    ensures At(s, a).routine.Attach? && Inv(GoStep(s, a))
  {
    assert Claim(s.items, a, At(s, a));
    var s', n := GoStep(s, a), |s.items|;
    forall j: ItemId | j < |s'.items| ensures ItemOk(s'.items[j]) && Counted(s', j) {
      HoldersChange(s, s', a, j);
      InsidersChange(s, s', a, j);
      if j < n {
        assert ItemOk(s.items[j]) && Counted(s, j);
      } else {
        NobodyAtNew(s, n);
      }
    }
    forall b ensures Claim(s'.items, b, At(s', b)) {
      assert Claim(s.items, b, At(s, b));
    }
  }

  lemma NobodyAtNew(s: State, n: ItemId)
    requires Inv(s) && n >= |s.items|
    ensures Holders(s, n) == {} && Insiders(s, n) == {}
  {
    forall b ensures b !in Holders(s, n) && b !in Insiders(s, n) {
      assert Claim(s.items, b, At(s, b));
    }
  }

  /** A routine changes only where it is, keeping the same reference. */
  lemma RelabelKeepsInv(s: State, s': State, a: ActId)
    requires Inv(s) && s'.items == s.items
    requires forall b {:trigger At(s', b)} :: b != a ==> At(s', b) == At(s, b)
    requires Claim(s.items, a, At(s', a))
    requires forall i :: Holds(At(s', a).pc, i) <==> Holds(At(s, a).pc, i)
    requires forall i :: At(s', a).pc == With(i, InChannel) <==> At(s, a).pc == With(i, InChannel)
    ensures Inv(s')
  {
    forall j: ItemId | j < |s'.items| ensures ItemOk(s'.items[j]) && Counted(s', j) {
      assert ItemOk(s.items[j]) && Counted(s, j);
      HoldersChange(s, s', a, j);
      InsidersChange(s, s', a, j);
    }
    forall b ensures Claim(s'.items, b, At(s', b)) {
      assert Claim(s.items, b, At(s, b));
    }
  }

  lemma SpawnKeepsInv(s: State, a: ActId, b: ActId)
    requires Inv(s) && Enabled(s, a, Spawn(b))
    ensures Inv(Step(s, a, Spawn(b)))
  {
    var act := At(s, a);
    var mid := Goto(s, a, act.(pc := Done));
    var s' := Goto(mid, b, Act(Delayed, act.pc));
    assert Claim(s.items, a, act);
    forall j: ItemId | j < |s'.items| ensures ItemOk(s'.items[j]) && Counted(s', j) {
      assert ItemOk(s.items[j]) && Counted(s, j);
      HoldersChange(s, mid, a, j);
      InsidersChange(s, mid, a, j);
      HoldersChange(mid, s', b, j);
      InsidersChange(mid, s', b, j);
    }
    forall c ensures Claim(s'.items, c, At(s', c)) {
      assert Claim(s.items, c, At(s, c));
    }
  }

  lemma StepKeepsInv(s: State, a: ActId, mv: Move)
    requires Inv(s) && Enabled(s, a, mv)
    ensures Inv(Step(s, a, mv))
  {
    assert Claim(s.items, a, At(s, a));
    match mv
    case Start(_) => RelabelKeepsInv(s, Step(s, a, mv), a);
    case Skip => RelabelKeepsInv(s, Step(s, a, mv), a);
    case Spawn(b) => SpawnKeepsInv(s, a, b);
    case Go =>
      match At(s, a).pc
      case Finding => FindingKeepsInv(s, a);
      case Creating => CreatingKeepsInv(s, a);
      case With(_, _) => OnItemKeepsInv(s, a);
      case Done =>
  }

  // ----------------------------------------------------------------------------------------------
  // Nobody walks away from a deletion or a release half done

  predicate Finishing(items: seq<Item>, i: ItemId, pc: Pc, a: ActId)
    requires i < |items|
  {
    && (items[i].deleter == Some(a) && items[i].listRef ==> pc == With(i, ReleaseChan) || pc == With(i, DropList))
    && (items[i].freer == Some(a) && !items[i].freed ==> pc.With? && pc.i == i && FreeingOp(pc.op))
  }

  ghost predicate AllFinishing(s: State) {
    forall i: ItemId, a: ActId :: i < |s.items| ==> Finishing(s.items, i, At(s, a).pc, a)
  }

  lemma OpFinishes(it: Item, a: ActId, r: Routine, i: ItemId, op: Op)
    requires ItemOk(it) && OpClaim(it, a, r, op)
    requires Finishing([it], 0, With(0, op), a)
    ensures Finishing([ItemAfter(it, a, op)], 0, PcAfter(it, r, 0, op), a)
  {
    match op
    case SetChan => case SetActive => case Using => case InChannel => case Used => case Deactivate =>
    case ReleaseChan => case DropList => case Drop => case Unlink => case FreeChan => case FreeItem =>
  }

  lemma OnItemKeepsFinishing(s: State, a: ActId, i: ItemId, b: ActId)
    requires Inv(s) && AllFinishing(s) && Enabled(s, a, Go) && At(s, a).pc.With? && i < |s.items|
    ensures var s' := GoStep(s, a); |s'.items| == |s.items| && Finishing(s'.items, i, At(s', b).pc, b)
  {
    var act := At(s, a);
    assert Claim(s.items, a, act) && ItemOk(s.items[i]) && ItemOk(s.items[act.pc.i]);
    assert Finishing(s.items, i, At(s, b).pc, b) && Finishing(s.items, i, act.pc, a);
    if i == act.pc.i && b == a {
      OpFinishes(s.items[i], a, act.routine, i, act.pc.op);
    }
  }

  lemma StepKeepsFinishing(s: State, a: ActId, mv: Move)
    requires Inv(s) && AllFinishing(s) && Enabled(s, a, mv)
    ensures AllFinishing(Step(s, a, mv))
  {
    var s' := Step(s, a, mv);
    hide ItemAfter, PcAfter;
    forall i: ItemId, b: ActId | i < |s'.items| ensures Finishing(s'.items, i, At(s', b).pc, b) {
      assert Claim(s.items, a, At(s, a));
      assert i < |s.items| ==> Finishing(s.items, i, At(s, b).pc, b) && Finishing(s.items, i, At(s, a).pc, a) && ItemOk(s.items[i]);
      if mv.Go? && At(s, a).pc.With? {
        OnItemKeepsFinishing(s, a, i, b);
      } else if i < |s.items| && mv.Spawn? {
        assert Finishing(s.items, i, At(s, mv.thread).pc, mv.thread);
      }
    }
  }

  // ----------------------------------------------------------------------------------------------
  // Runs

  datatype Action = Action(act: ActId, move: Move)

  const EMPTY := State([], map[])

  ghost predicate StepOf(s: State, x: Action, s': State) {
    Enabled(s, x.act, x.move) && s' == Step(s, x.act, x.move)
  }

  ghost predicate IsRun(states: seq<State>, actions: seq<Action>) {
    && |states| == |actions| + 1
    && states[0] == EMPTY
    && forall i :: 0 <= i < |actions| ==> StepOf(states[i], actions[i], states[i + 1])
  }

  lemma {:induction false} InvInRuns(states: seq<State>, actions: seq<Action>, k: nat)
    requires IsRun(states, actions) && k < |states|
    ensures Inv(states[k]) && AllFinishing(states[k])
  {
    if k > 0 {
      InvInRuns(states, actions, k - 1);
      assert StepOf(states[k - 1], actions[k - 1], states[k]);
      StepKeepsInv(states[k - 1], actions[k - 1].act, actions[k - 1].move);
      StepKeepsFinishing(states[k - 1], actions[k - 1].act, actions[k - 1].move);
    }
  }

  /** The count of every item is the number of routines holding it, plus one until its deletion drops
      the list's reference. */
  lemma CountIsHandles(states: seq<State>, actions: seq<Action>, k: nat, i: ItemId)
    requires IsRun(states, actions) && k < |states| && i < |states[k].items|
    ensures states[k].items[i].refCount == |Holders(states[k], i)| + (if states[k].items[i].listRef then 1 else 0)
    ensures states[k].items[i].deleter.None? ==> states[k].items[i].listRef
    ensures states[k].items[i].active ==> states[k].items[i].refCount > 0
  {
    InvInRuns(states, actions, k);
    assert ItemOk(states[k].items[i]) && Counted(states[k], i);
  }

  lemma ZeroStaysForOneStep(s: State, a: ActId, mv: Move, i: ItemId)
    requires Inv(s) && Enabled(s, a, mv) && i < |s.items| && s.items[i].refCount == 0
    ensures var s' := Step(s, a, mv); i < |s'.items| && s'.items[i].refCount == 0
  {
    assert ItemOk(s.items[i]) && Counted(s, i) && Claim(s.items, a, At(s, a));
    HoldersMeans(s, i, a);
    assert a !in Holders(s, i);
  }

  /** A count that has reached zero never rises again. */
  lemma {:induction false} ZeroStays(states: seq<State>, actions: seq<Action>, k: nat, m: nat, i: ItemId)
    requires IsRun(states, actions) && k <= m < |states| && i < |states[k].items| && states[k].items[i].refCount == 0
    ensures i < |states[m].items| && states[m].items[i].refCount == 0
  {
    if k < m {
      ZeroStays(states, actions, k, m - 1, i);
      InvInRuns(states, actions, m - 1);
      assert StepOf(states[m - 1], actions[m - 1], states[m]);
      ZeroStaysForOneStep(states[m - 1], actions[m - 1].act, actions[m - 1].move, i);
    }
  }

  /** Whoever is about to touch an item finds it allocated, and whoever is about to enter its channel,
      is inside it, or releases it, finds the channel allocated and holds a counted reference. */
  lemma NoUseAfterFree(states: seq<State>, actions: seq<Action>, k: nat, a: ActId)
    requires IsRun(states, actions) && k < |states| && At(states[k], a).pc.With?
    ensures var s, pc := states[k], At(states[k], a).pc;
            && pc.i < |s.items| && !s.items[pc.i].freed
            && (pc.op.Using? || pc.op.InChannel? || pc.op.ReleaseChan? ==>
                  s.items[pc.i].hasChan && !s.items[pc.i].chanFreed && a in Holders(s, pc.i) && s.items[pc.i].refCount > 0)
  {
    var s, pc := states[k], At(states[k], a).pc;
    InvInRuns(states, actions, k);
    assert Claim(s.items, a, At(s, a)) && ItemOk(s.items[pc.i]) && Counted(s, pc.i);
    BothCovered(s, pc.i, a, a + 1);
    HoldersMeans(s, pc.i, a);
  }

  /** When a routine reaches channel_free nobody is inside, so its wait loop ends at once; it is the
      only one to release the item, and nobody holds it any more. */
  lemma FreesAloneAndWithoutWaiting(states: seq<State>, actions: seq<Action>, k: nat, a: ActId, b: ActId)
    requires IsRun(states, actions) && k < |states| && a != b
    requires At(states[k], a).pc.With? && FreeingOp(At(states[k], a).pc.op)
    ensures var s, i := states[k], At(states[k], a).pc.i;
            && i < |s.items| && s.items[i].inside == 0 && Holders(s, i) == {} && !s.items[i].active
            && Enabled(s, a, Go) && (At(s, b).pc.With? ==> At(s, b).pc.i != i)
  {
    var s, i := states[k], At(states[k], a).pc.i;
    InvInRuns(states, actions, k);
    assert Claim(s.items, a, At(s, a)) && Claim(s.items, b, At(s, b)) && ItemOk(s.items[i]) && Counted(s, i);
    assert |Holders(s, i)| == 0;
    HoldersMeans(s, i, b);
    InsidersHold(s, i);
  }

  lemma InsidersHold(s: State, i: ItemId)
    ensures Insiders(s, i) <= Holders(s, i)
    ensures Holders(s, i) == {} ==> |Insiders(s, i)| == 0
  {
    forall b | b in Insiders(s, i) ensures b in Holders(s, i) {
      HoldersMeans(s, i, b);
    }
    if Holders(s, i) == {} {
      assert Insiders(s, i) == {};
    }
  }

  /** A deletion is the item's first one exactly if dbg_delete_item finds it still active. */
  lemma FirstDeletionIffActive(states: seq<State>, actions: seq<Action>, k: nat, a: ActId)
    requires IsRun(states, actions) && k < |states|
    requires At(states[k], a).pc.With? && At(states[k], a).pc.op.Deactivate?
    ensures var s, i := states[k], At(states[k], a).pc.i;
      i < |s.items| && (Enabled(s, a, Go) <==> s.items[i].active)
  {
    var s, i := states[k], At(states[k], a).pc.i;
    InvInRuns(states, actions, k);
    assert Claim(s.items, a, At(s, a)) && ItemOk(s.items[i]);
  }

  /** Nothing leaks: when no routine is running, an item has been freed if and only if it was deleted,
      and one that was not is still listed with the list's reference alone. */
  lemma NothingLeaks(states: seq<State>, actions: seq<Action>, k: nat, i: ItemId)
    requires IsRun(states, actions) && k < |states| && i < |states[k].items|
    requires forall a :: At(states[k], a).pc.Done?
    ensures states[k].items[i].freed <==> states[k].items[i].deleter.Some?
    ensures states[k].items[i].deleter.None? ==> states[k].items[i].refCount == 1 && states[k].items[i].linked
  {
    var s := states[k];
    InvInRuns(states, actions, k);
    assert ItemOk(s.items[i]) && Counted(s, i);
    forall a ensures a !in Holders(s, i) {
      HoldersMeans(s, i, a);
    }
    assert Holders(s, i) == {};
    if s.items[i].deleter.Some? {
      assert Finishing(s.items, i, At(s, s.items[i].deleter.value).pc, s.items[i].deleter.value);
    }
    if s.items[i].freer.Some? {
      assert Finishing(s.items, i, At(s, s.items[i].freer.value).pc, s.items[i].freer.value);
    }
  }
}
