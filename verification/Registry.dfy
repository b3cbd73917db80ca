/** The session list under serialized calls: attach, filter, receive, continue, terminate, and the
    delayed terminate event. */
module Registry {
  import opened Words
  import opened DbgItem
  import opened SessionBook

  const DBG_TERMINATED := 2

  /** Bit 1 of the event mask. */
  predicate WantsTermination(it: Item) {
    it.eventMask / DBG_TERMINATED % 2 == 1
  }

  /** A session that is in the list for good: it can be found, and holds the list's reference. */
  predicate Alive(it: Item) {
    && it.active && it.linked && !it.freed && !it.chanFreed && !it.released
    && it.hasChan && it.published && it.listRef && it.deleter.None? && it.refCount >= 1
  }

  ghost predicate Consistent(items: seq<Item>) {
    && (forall j :: 0 <= j < |items| && items[j].active ==> Alive(items[j]) && items[j].debugger != items[j].debugged)
    && (forall j, k :: 0 <= j < k < |items| && items[j].active && items[k].active ==> items[j].debugged != items[k].debugged)
    && (forall j :: 0 <= j < |items| && !items[j].active ==> items[j].released && items[j].deleter.Some? && !items[j].listRef)
  }

  /** The item dbg_attach_call leaves behind. */
  function Attached(me: Process, target: Process, a: ActId): Item {
    NewItem(me, target, a).(hasChan := true, active := true, published := true, refCount := 1)
  }

  predicate Watched(items: seq<Item>, target: Process) {
    exists j :: 0 <= j < |items| && Listed(Query(None, Some(target)), items[j])
  }

  /** The terminated process was this session's debugger. */
  predicate IsOrphan(it: Item, process: Process) {
    it.active && it.debugger == process
  }

  /** What the loop of dbg_process_terminated leaves. */
  function Cleared(items: seq<Item>, process: Process, a: ActId): (r: seq<Item>)
    ensures |r| == |items|
  {
    seq(|items|, j requires 0 <= j < |items| => if IsOrphan(items[j], process) then Deleted(items[j], a) else items[j])
  }

  function Orphans(items: seq<Item>, process: Process): set<ItemId> {
    set j: ItemId | 0 <= j < |items| && IsOrphan(items[j], process)
  }

  /** Finding a session, deleting it and dropping the reference just taken costs it exactly the list's
      reference. */
  lemma TakenAndDeleted(it: Item, a: ActId)
    requires it.refCount >= 1
    ensures Dereferenced(Deleted(it.(refCount := it.refCount + 1), a), a) == Deleted(it, a)
  {
  }

  /** Some of the orphans are gone, nothing else has changed. */
  ghost predicate PartlyCleared(before: seq<Item>, now: seq<Item>, process: Process, a: ActId) {
    && Consistent(before) && |now| == |before|
    && forall j :: 0 <= j < |now| ==>
         now[j] == before[j] || (IsOrphan(before[j], process) && now[j] == Deleted(before[j], a))
  }

  lemma OrphanFound(before: seq<Item>, now: seq<Item>, i: ItemId, process: Process, a: ActId)
    requires PartlyCleared(before, now, process, a)
    requires i < |now| && Listed(Query(Some(process), None), now[i])
    ensures now[i] == before[i] && now[i].refCount >= 1
    ensures Dereferenced(Deleted(now[i].(refCount := now[i].refCount + 1), a), a) == Deleted(now[i], a)
    ensures PartlyCleared(before, now[i := Deleted(now[i], a)], process, a)
    ensures Orphans(now[i := Deleted(now[i], a)], process) < Orphans(now, process)
  {
    assert Alive(before[i]);
    TakenAndDeleted(now[i], a);
    assert i in Orphans(now, process) && i !in Orphans(now[i := Deleted(now[i], a)], process);
  }

  lemma NoneFound(before: seq<Item>, now: seq<Item>, process: Process, a: ActId)
    requires PartlyCleared(before, now, process, a)
    requires Find(now, Query(Some(process), None)).None?
    ensures now == Cleared(before, process, a) && Consistent(now)
  {
    forall j | 0 <= j < |now| ensures now[j] == Cleared(before, process, a)[j] {
      assert !Listed(Query(Some(process), None), now[j]);
      assert before[j].active ==> Alive(before[j]);
    }
  }

  /** Every orphan is inactive and released, and has lost one reference, the list's; it is freed if that
      was the last one.  Every other session is untouched. */
  lemma ClearedMeans(items: seq<Item>, process: Process, a: ActId, j: ItemId)
    requires Consistent(items) && j < |items|
    ensures var it, now := items[j], Cleared(items, process, a)[j];
            if IsOrphan(it, process) then
              && !now.active && now.released && !now.listRef && now.refCount == it.refCount - 1
              && (now.freed <==> it.refCount == 1) && (now.linked <==> it.refCount > 1)
              && now.debugger == it.debugger && now.debugged == it.debugged
            else now == it
  {
    assert items[j].active ==> Alive(items[j]);
  }

  // ----------------------------------------------------------------------------------------------
  // The list as a book of sessions

  /** The active items are the book's sessions; each has the list's reference and one for every terminate
      event on its way. */
  ghost predicate Represents(items: seq<Item>, b: Book) {
    && b.next == |items|
    && (forall j: ItemId :: j < |items| && items[j].active ==>
          && items[j].debugged in b.sessions
          && var s := b.sessions[items[j].debugged];
             s.id == j && s.debugger == items[j].debugger && s.mask == items[j].eventMask && s.pending + 1 == items[j].refCount)
    && (forall p :: p in b.sessions ==>
          b.sessions[p].id < |items| && items[b.sessions[p].id].active && items[b.sessions[p].id].debugged == p)
  }

  lemma FoundInBook(items: seq<Item>, b: Book, debugger: Option<Process>, p: Process)
    requires Consistent(items) && Represents(items, b)
    ensures Find(items, Query(debugger, Some(p))) ==
      if p in b.sessions && (debugger.Some? ==> b.sessions[p].debugger == debugger.value) then Some(b.sessions[p].id) else None
  {
    var q := Query(debugger, Some(p));
    if p in b.sessions {
      var i := b.sessions[p].id;
      assert Alive(items[i]);
      assert Listed(q, items[i]) <==> (debugger.Some? ==> b.sessions[p].debugger == debugger.value);
    }
  }

  lemma AttachIsBooked(items: seq<Item>, b: Book, me: Process, sizeOk: bool, target: Option<Process>, a: ActId)
    requires Consistent(items) && Represents(items, b)
    ensures var succs := sizeOk && target.Some? && target.value != me && !Watched(items, target.value);
      && Next(b, AttachTo(me, sizeOk, target)).1 == succs
      && Represents(if succs then items + [Attached(me, target.value, a)] else items, Next(b, AttachTo(me, sizeOk, target)).0)
  {
    if target.Some? {
      FoundInBook(items, b, None, target.value);
    }
  }

  lemma FilterIsBooked(items: seq<Item>, b: Book, me: Process, sizeOk: bool, target: Option<Process>, mask: nat)
    requires Consistent(items) && Represents(items, b)
    ensures var acted := if sizeOk && target.Some? then Find(items, Query(Some(me), target)) else None;
      && Next(b, Filter(me, sizeOk, target, mask)).1 == acted.Some?
      && Represents(if acted.Some? then items[acted.value := items[acted.value].(eventMask := mask)] else items,
                    Next(b, Filter(me, sizeOk, target, mask)).0)
  {
    if target.Some? {
      FoundInBook(items, b, Some(me), target.value);
    }
  }

  lemma ChannelIsBooked(items: seq<Item>, b: Book, me: Process, sizeOk: bool, target: Option<Process>, channelResult: bool)
    requires Consistent(items) && Represents(items, b)
    ensures var acted := if sizeOk && target.Some? then Find(items, Query(Some(me), target)) else None;
      Next(b, Channel(me, sizeOk, target, channelResult)) == (b, acted.Some? && channelResult)
  {
    if target.Some? {
      FoundInBook(items, b, Some(me), target.value);
    }
  }

  lemma ClearIsBooked(items: seq<Item>, b: Book, process: Process, a: ActId)
    requires Consistent(items) && Represents(items, b)
    ensures Represents(Cleared(items, process, a), Orphaned(b, process))
  {
    var now := Cleared(items, process, a);
    forall j: ItemId | j < |items| ensures now[j].active <==> items[j].active && items[j].debugger != process {
      ClearedMeans(items, process, a, j);
    }
  }

  lemma HandOverIsBooked(items: seq<Item>, b: Book, p: Process)
    requires Consistent(items) && Represents(items, b) && p in b.sessions
    ensures var i, s := b.sessions[p].id, b.sessions[p];
      && i < |items| && items[i].eventMask == s.mask
      && Represents(items[i := items[i].(refCount := items[i].refCount + 1)], b.(sessions := b.sessions[p := s.(pending := s.pending + 1)]))
  {
  }

  lemma TerminationIsBooked(items: seq<Item>, b: Book, process: Process, started: bool, a: ActId)
    requires Consistent(items) && Represents(items, b)
    ensures var cleared, (b', told) := Cleared(items, process, a), Next(b, Terminate(process, started));
      match Find(cleared, Query(None, Some(process)))
      case None => !told && Represents(cleared, b')
      case Some(i) =>
        && told == ((cleared[i].eventMask % 4 == 2 || cleared[i].eventMask % 4 == 3) && started)
        && Represents(if told then cleared[i := cleared[i].(refCount := cleared[i].refCount + 1)] else cleared, b')
  {
    hide Cleared, Orphaned, Consistent;
    var cleared, left := Cleared(items, process, a), Orphaned(b, process);
    ClearIsBooked(items, b, process, a);
    ClearedIsConsistent(items, process, a);
    FoundInBook(cleared, left, None, process);
    if process in left.sessions {
      HandOverIsBooked(cleared, left, process);
    }
  }

  lemma ClearedIsConsistent(items: seq<Item>, process: Process, a: ActId)
    requires Consistent(items)
    ensures Consistent(Cleared(items, process, a))
  {
    forall j: ItemId | j < |items| && items[j].active ensures Alive(items[j]) {
    }
  }

  lemma ClearedKeepsNames(items: seq<Item>, process: Process, a: ActId)
    ensures forall j :: 0 <= j < |items| ==>
      Cleared(items, process, a)[j].debugger == items[j].debugger && Cleared(items, process, a)[j].debugged == items[j].debugged
  {
  }

  lemma DelayedIsBooked(items: seq<Item>, b: Book, i: ItemId, a: ActId)
    requires Consistent(items) && Represents(items, b)
    ensures var acts := i < |items| && items[i].active && items[i].refCount >= 2;
      && Next(b, Delayed(i)).1 == acts
      && Represents(if acts then items[i := Dereferenced(Deleted(items[i], a), a)] else items, Next(b, Delayed(i)).0)
  {
    var acts := i < |items| && items[i].active && items[i].refCount >= 2;
    if acts {
      assert items[i].debugged in b.sessions && items[i].debugged !in Next(b, Delayed(i)).0.sessions;
    } else {
      assert Next(b, Delayed(i)).0.sessions == b.sessions;
    }
  }

  // ----------------------------------------------------------------------------------------------
  // Sequences of calls

  datatype Entry = Nothing | Attaches(me: Process, target: Process, i: ItemId) | ActsOn(me: Process, target: Process, i: ItemId)

  /** An entry that acts on an item follows the entry with which the same caller attached that item. */
  ghost predicate OnOwnSession(log: seq<Entry>, k: nat)
    requires k < |log|
  {
    log[k].ActsOn? ==> exists m :: 0 <= m < k && log[m] == Attaches(log[k].me, log[k].target, log[k].i)
  }

  ghost predicate CreatedBy(items: seq<Item>, log: seq<Entry>, j: ItemId)
    requires j < |items|
  {
    exists m :: 0 <= m < |log| && log[m] == Attaches(items[j].debugger, items[j].debugged, j)
  }

  ghost predicate Created(items: seq<Item>, log: seq<Entry>) {
    forall j: ItemId :: j < |items| ==> CreatedBy(items, log, j)
  }

  lemma LogGrows(before: seq<Item>, items: seq<Item>, log: seq<Entry>, e: Entry)
    requires Created(before, log) && |before| <= |items|
    requires forall j :: 0 <= j < |before| ==> items[j].debugger == before[j].debugger && items[j].debugged == before[j].debugged
    requires |items| > |before| ==> |items| == |before| + 1 && e == Attaches(items[|before|].debugger, items[|before|].debugged, |before|)
    requires e.ActsOn? ==> e.i < |before| && before[e.i].debugger == e.me && before[e.i].debugged == e.target
    requires forall k :: 0 <= k < |log| ==> OnOwnSession(log, k)
    ensures Created(items, log + [e])
    ensures forall k :: 0 <= k < |log| + 1 ==> OnOwnSession(log + [e], k)
  {
    var log' := log + [e];
    forall j: ItemId | j < |items| ensures CreatedBy(items, log', j) {
      if j < |before| {
        assert CreatedBy(before, log, j);
        var m :| 0 <= m < |log| && log[m] == Attaches(before[j].debugger, before[j].debugged, j);
        assert log'[m] == log[m];
      } else {
        assert log'[|log|] == e;
      }
    }
    forall k | 0 <= k < |log'| ensures OnOwnSession(log', k) {
      if k < |log| {
        assert OnOwnSession(log, k);
        if log[k].ActsOn? {
          var m :| 0 <= m < k && log[m] == Attaches(log[k].me, log[k].target, log[k].i);
          assert log'[m] == log[m];
        }
      } else if e.ActsOn? {
        assert CreatedBy(before, log, e.i);
        var m :| 0 <= m < |log| && log[m] == Attaches(before[e.i].debugger, before[e.i].debugged, e.i);
        assert log'[m] == log[m];
      }
    }
  }

  class DebugRegistry {
    var items: seq<Item>

    constructor ()
      ensures items == [] && Consistent(items)
    {
      items := [];
    }

    /** dbg_find_item: takes a reference to the first active item that matches. */
    method FindItem(q: Query) returns (found: Option<ItemId>)
      modifies this
      ensures found == Find(old(items), q)
      ensures items == match found
                       case None => old(items)
                       case Some(i) => old(items)[i := old(items)[i].(refCount := old(items)[i].refCount + 1)]
    {
      var i := 0;
      while i < |items|
        invariant 0 <= i <= |items| && items == old(items)
        invariant FindFrom(items, q, i) == Find(items, q)
      {
        var it := items[i];
        if it.linked && (q.debugger == None || it.debugger == q.debugger.value)
           && (q.debugged == None || it.debugged == q.debugged.value) && it.active
        {
          items := items[i := it.(refCount := it.refCount + 1)];
          return Some(i);
        }
        i := i + 1;
      }
      return None;
    }

    /** dbg_deref_item. */
    method DerefItem(i: ItemId, a: ActId)
      requires i < |items|
      modifies this
      ensures items == old(items)[i := Dereferenced(old(items)[i], a)]
    {
      var it := items[i];
      items := items[i := it.(refCount := it.refCount - 1, freer := if it.refCount == 1 then Some(a) else it.freer)];
      if items[i].refCount == 0 {
        items := items[i := items[i].(linked := false)];
        items := items[i := items[i].(chanFreed := true)];
        items := items[i := items[i].(freed := true)];
      }
    }

    /** dbg_delete_item. */
    method DeleteItem(i: ItemId, a: ActId)
      requires i < |items|
      modifies this
      ensures items == old(items)[i := Deleted(old(items)[i], a)]
    {
      items := items[i := items[i].(active := false, deleter := Some(a))];
      items := items[i := items[i].(released := true)];
      items := items[i := items[i].(listRef := false)];
      DerefItem(i, a);
    }

    /** dbg_attach_call; `target` is None when the process identifier is unknown. */
    method AttachCall(me: Process, sizeOk: bool, target: Option<Process>, a: ActId) returns (succs: bool)
      requires Consistent(items)
      modifies this
      ensures Consistent(items)
      ensures succs <==> sizeOk && target.Some? && target.value != me && !Watched(old(items), target.value)
      ensures items == if succs then old(items) + [Attached(me, target.value, a)] else old(items)
    {
      succs := false;
      if !sizeOk || target == None || target.value == me {
        return;
      }
      var debug := FindItem(Query(None, target));
      if debug == None {
        items := items + [NewItem(me, target.value, a)];
        debug := Some(|items| - 1);
        items := items[debug.value := items[debug.value].(hasChan := true)];
        items := items[debug.value := items[debug.value].(active := true, published := true)];
        succs := true;
      }
      DerefItem(debug.value, a);
    }

    /** dbg_set_filter. */
    method SetFilter(me: Process, sizeOk: bool, target: Option<Process>, mask: nat, a: ActId) returns (acted: Option<ItemId>)
      requires Consistent(items)
      modifies this
      ensures Consistent(items)
      ensures acted == if sizeOk && target.Some? then Find(old(items), Query(Some(me), target)) else None
      ensures items == match acted
                       case None => old(items)
                       case Some(i) => old(items)[i := old(items)[i].(eventMask := mask)]
    {
      acted := None;
      if !sizeOk || target == None {
        return;
      }
      acted := FindItem(Query(Some(me), target));
      if acted != None {
        items := items[acted.value := items[acted.value].(eventMask := mask)];
        DerefItem(acted.value, a);
      }
    }

    /** dbg_get_message and dbg_countinue; `channelResult` is what channel_recv or channel_send returns. */
    method UseChannel(me: Process, sizeOk: bool, target: Option<Process>, channelResult: bool, a: ActId)
      returns (acted: Option<ItemId>, succs: bool)
      requires Consistent(items)
      modifies this
      ensures Consistent(items) && items == old(items)
      ensures acted == if sizeOk && target.Some? then Find(old(items), Query(Some(me), target)) else None
      ensures succs <==> acted.Some? && channelResult
    {
      acted, succs := None, false;
      if !sizeOk || target == None {
        return;
      }
      acted := FindItem(Query(Some(me), target));
      if acted != None {
        succs := channelResult;
        DerefItem(acted.value, a);
      }
    }

    /** dbg_process_terminated.  `started` says whether the event could be allocated and its thread
        created; that thread then owns a reference to the item handed out. */
    method ProcessTerminated(process: Process, started: bool, a: ActId) returns (handed: Option<ItemId>)
      requires Consistent(items)
      modifies this
      ensures Consistent(items)
      ensures forall j :: 0 <= j < |items| ==> !IsOrphan(items[j], process)
      ensures var cleared := Cleared(old(items), process, a);
              match Find(cleared, Query(None, Some(process)))
              case None => handed == None && items == cleared
              case Some(i) =>
                if (cleared[i].eventMask % 4 == 2 || cleared[i].eventMask % 4 == 3) && started
                then handed == Some(i) && items == cleared[i := cleared[i].(refCount := cleared[i].refCount + 1)]
                else handed == None && items == cleared
    {
      handed := None;
      ClearOrphans(process, a);
      var debug := FindItem(Query(None, Some(process)));
      if debug != None {
        if WantsTermination(items[debug.value]) && started {
          handed := debug;
        } else {
          DerefItem(debug.value, a);
        }
      }
    }

    /** The loop of dbg_process_terminated over the sessions whose debugger is the terminated process. */
    method ClearOrphans(process: Process, a: ActId)
      requires Consistent(items)
      modifies this
      ensures Consistent(items) && items == Cleared(old(items), process, a)
    {
      ghost var before, now := items, items;
      var debug: Option<ItemId> := FindItem(Query(Some(process), None));
      while debug != None
        invariant PartlyCleared(before, now, process, a)
        invariant debug == Find(now, Query(Some(process), None))
        invariant items == match debug
                           case None => now
                           case Some(i) => now[i := now[i].(refCount := now[i].refCount + 1)]
        decreases Orphans(now, process)
      {
        ghost var i := debug.value;
        OrphanFound(before, now, i, process, a);
        DeleteItem(debug.value, a);
        DerefItem(debug.value, a);
        assert items == now[i := Deleted(now[i], a)];
        now := items;
        debug := FindItem(Query(Some(process), None));
      }
      NoneFound(before, now, process, a);
    }

    /** dbg_delayed_term_event, with the reference handed to it, once its message has been answered. */
    method DelayedTermEvent(i: ItemId, a: ActId)
      requires Consistent(items) && i < |items| && items[i].active && items[i].refCount >= 2
      modifies this
      ensures Consistent(items)
      ensures items == old(items)[i := Dereferenced(Deleted(old(items)[i], a), a)]
    {
      DeleteItem(i, a);
      DerefItem(i, a);
    }

    /** Any sequence of serialized calls.  The log tells which call created which item, and which item
        each filter, receive or continue call acted upon. */
    method Serve(calls: seq<Call>, a: ActId) returns (log: seq<Entry>, answers: seq<bool>)
      requires items == []
      modifies this
      ensures Consistent(items) && |log| == |calls|
      ensures Represents(items, Run(calls).0) && answers == Run(calls).1
      ensures forall k :: 0 <= k < |log| ==> OnOwnSession(log, k)
    {
      log, answers := [], [];
      for n := 0 to |calls|
        invariant Consistent(items) && |log| == n
        invariant Represents(items, Run(calls[..n]).0) && answers == Run(calls[..n]).1
        invariant Created(items, log)
        invariant forall k :: 0 <= k < n ==> OnOwnSession(log, k)
      {
        ghost var soFar, before := log, items;
        var entry, answer := Answer(calls[n], Run(calls[..n]).0, a);
        log, answers := log + [entry], answers + [answer];
        assert calls[..n + 1][..n] == calls[..n];
        LogGrows(before, items, soFar, entry);
      }
      assert calls[..|calls|] == calls;
    }

    /** One call, with what it did and what it answers. */
    method Answer(c: Call, ghost b: Book, a: ActId) returns (entry: Entry, answer: bool)
      requires Consistent(items) && Represents(items, b)
      modifies this
      ensures Consistent(items) && Represents(items, Next(b, c).0) && answer == Next(b, c).1
      ensures |items| >= |old(items)|
      ensures forall j :: 0 <= j < |old(items)| ==>
        items[j].debugger == old(items)[j].debugger && items[j].debugged == old(items)[j].debugged
      ensures |items| > |old(items)| ==>
        |items| == |old(items)| + 1 && entry == Attaches(items[|old(items)|].debugger, items[|old(items)|].debugged, |old(items)|)
      ensures entry.ActsOn? ==>
        entry.i < |old(items)| && old(items)[entry.i].debugger == entry.me && old(items)[entry.i].debugged == entry.target
    {
      hide Represents, Consistent, Cleared, Next;
      ghost var was := items;
      entry, answer := Nothing, false;
      match c {
        case AttachTo(me, sizeOk, target) =>
          answer := AttachCall(me, sizeOk, target, a);
          entry := if answer then Attaches(me, target.value, |items| - 1) else Nothing;
          AttachIsBooked(was, b, me, sizeOk, target, a);
        case Filter(me, sizeOk, target, mask) =>
          var acted := SetFilter(me, sizeOk, target, mask, a);
          entry, answer := if acted.Some? then ActsOn(me, target.value, acted.value) else Nothing, acted.Some?;
          FilterIsBooked(was, b, me, sizeOk, target, mask);
        case Channel(me, sizeOk, target, channelResult) =>
          var acted: Option<ItemId>;
          acted, answer := UseChannel(me, sizeOk, target, channelResult, a);
          entry := if acted.Some? then ActsOn(me, target.value, acted.value) else Nothing;
          ChannelIsBooked(was, b, me, sizeOk, target, channelResult);
        case Terminate(process, started) =>
          var handed := ProcessTerminated(process, started, a);
          answer := handed.Some?;
          TerminationIsBooked(was, b, process, started, a);
          ClearedKeepsNames(was, process, a);
        case Delayed(i) =>
          answer := i < |items| && items[i].active && items[i].refCount >= 2;
          if answer {
            DelayedTermEvent(i, a);
          }
          DelayedIsBooked(was, b, i, a);
      }
    }
  }
}
