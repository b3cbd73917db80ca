/** The list of debugging sessions as dbg_item.c keeps it.  Items are numbered in creation order,
    which is their order in the list, and are never renumbered. */
module DbgItem {
  import opened Words

  type Process = nat
  type ItemId = nat
  type ActId = nat

  /** `published`, `creator`, `deleter` and `freer` are bookkeeping: the item has been activated; the
      routine that created it, that deletes it, and that dropped its last reference.  `listRef` says
      whether the reference counted for the list is still there. */
  datatype Item = Item(
    debugger: Process, debugged: Process, active: bool, refCount: int,
    hasChan: bool, released: bool, inside: int, chanFreed: bool,
    eventMask: nat,
    linked: bool, freed: bool,
    published: bool, listRef: bool, creator: ActId, deleter: Option<ActId>, freer: Option<ActId>)

  /** dbg_new_item: one reference for the list, one for the creator. */
  function NewItem(debugger: Process, debugged: Process, creator: ActId): Item {
    Item(debugger, debugged, false, 2, false, false, 0, false, 0, true, false, false, true, creator, None, None)
  }

  /** The two optional arguments of dbg_find_item; None stands for NULL. */
  datatype Query = Query(debugger: Option<Process>, debugged: Option<Process>)

  predicate Matches(q: Query, it: Item) {
    && (q.debugger.Some? ==> it.debugger == q.debugger.value)
    && (q.debugged.Some? ==> it.debugged == q.debugged.value)
    && it.active
  }

  predicate Listed(q: Query, it: Item) {
    it.linked && Matches(q, it)
  }

  /** dbg_find_item: the first listed item that matches. */
  function FindFrom(items: seq<Item>, q: Query, from: nat): (r: Option<ItemId>)
    requires from <= |items|
    ensures r.Some? ==> from <= r.value < |items| && Listed(q, items[r.value])
    ensures r.Some? ==> forall j :: from <= j < r.value ==> !Listed(q, items[j])
    ensures r.None? ==> forall j :: from <= j < |items| ==> !Listed(q, items[j])
    decreases |items| - from
  {
    if from == |items| then None
    else if Listed(q, items[from]) then Some(from)
    else FindFrom(items, q, from + 1)
  }

  function Find(items: seq<Item>, q: Query): (r: Option<ItemId>)
    ensures r.Some? ==> r.value < |items| && Listed(q, items[r.value])
    ensures r.None? ==> forall j :: 0 <= j < |items| ==> !Listed(q, items[j])
  {
    FindFrom(items, q, 0)
  }

  /** lock_dec(&item->ref_count); whoever reaches zero frees the item. */
  function Dropped(it: Item, a: ActId): Item {
    it.(refCount := it.refCount - 1, freer := if it.refCount == 1 then Some(a) else it.freer)
  }

  /** dbg_deref_item as a whole. */
  function Dereferenced(it: Item, a: ActId): Item {
    var d := Dropped(it, a);
    if d.refCount == 0 then d.(linked := false, chanFreed := true, freed := true) else d
  }

  /** dbg_delete_item as a whole. */
  function Deleted(it: Item, a: ActId): Item {
    Dereferenced(it.(active := false, deleter := Some(a), released := true, listRef := false), a)
  }
}
