/** Recursive deletion of a registry key, enumerating the subkeys while they disappear. */
module KeyTree {
  import opened Words

  type Name = string

  /** A key: its name, whether it can be opened, whether it could be deleted once it has no subkeys, and
      its subkeys in enumeration order. */
  datatype Key = Key(name: Name, openable: bool, deletable: bool, subkeys: seq<Key>)

  /** reg_enum_key's buffer holds 260 characters, eight of them taken by the fixed part of
      KEY_BASIC_INFORMATION. */
  const NAME_ROOM := 252

  predicate Enumerable(k: Key) {
    |k.name| <= NAME_ROOM
  }

  /** KEY_BASIC_INFORMATION with the name: a time of eight bytes, two numbers of four, and the characters. */
  function EnumeratedBytes(name: Name): nat {
    8 + 4 + 4 + 2 * |name|
  }

  /** A name is enumerated exactly if it fits reg_enum_key's buffer, and with its terminator it fits the
      caller's; both have room for 260 characters of two bytes. */
  lemma EnumerableFits(k: Key)
    ensures Enumerable(k) <==> EnumeratedBytes(k.name) <= 2 * 260
    ensures Enumerable(k) ==> |k.name| + 1 <= 260
  {
  }

  predicate DistinctNames(ks: seq<Key>) {
    forall i, j :: 0 <= i < j < |ks| ==> ks[i].name != ks[j].name
  }

  /** The registry keeps sibling names distinct. */
  predicate WellFormed(k: Key) {
    DistinctNames(k.subkeys) && forall i :: 0 <= i < |k.subkeys| ==> WellFormed(k.subkeys[i])
  }

  // ----------------------------------------------------------------------------------------------
  // What is left

  /** The key after delete_key_recurse was called on it; None when it is gone. */
  function Left(k: Key): (r: Option<Key>)
    ensures r.Some? ==> r.value.name == k.name
  {
    if !k.openable then Some(k)
    else
      var rest := LeftOf(k.subkeys);
      if rest == [] && k.deletable then None else Some(k.(subkeys := rest))
  }

  /** The subkeys after the loop, which ends early at a name that does not fit the buffer. */
  function LeftOf(ks: seq<Key>): seq<Key> {
    if ks == [] then []
    else if !Enumerable(ks[0]) then ks
    else match Left(ks[0])
      case None => LeftOf(ks[1..])
      case Some(k) => [k] + LeftOf(ks[1..])
  }

  /** The subkeys that survive among those the loop has already been through. */
  function Kept(ks: seq<Key>): (r: seq<Key>)
    ensures forall i :: 0 <= i < |r| ==> exists j :: 0 <= j < |ks| && r[i].name == ks[j].name
  {
    if ks == [] then []
    else
      var init, last := Kept(ks[..|ks| - 1]), Left(ks[|ks| - 1]);
      if last.None? then init else init + [last.value]
  }

  lemma {:induction false} LeftSplits(done: seq<Key>, rest: seq<Key>)
    requires forall i :: 0 <= i < |done| ==> Enumerable(done[i])
    ensures LeftOf(done + rest) == Kept(done) + LeftOf(rest)
    decreases |done|
  {
    if done == [] {
      assert done + rest == rest;
    } else {
      var init, last := done[..|done| - 1], done[|done| - 1];
      assert done + rest == init + ([last] + rest);
      LeftSplits(init, [last] + rest);
      assert ([last] + rest)[1..] == rest;
    }
  }

  function IndexOf(ks: seq<Key>, name: Name): (r: Option<nat>)
    ensures r.Some? ==> r.value < |ks| && ks[r.value].name == name
    ensures r.None? ==> forall i :: 0 <= i < |ks| ==> ks[i].name != name
  {
    if ks == [] then None
    else if ks[0].name == name then Some(0)
    else match IndexOf(ks[1..], name)
      case None => assert forall i :: 1 <= i < |ks| ==> ks[i] == ks[1..][i - 1]; None
      case Some(i) => Some(i + 1)
  }

  function WithChild(parent: Key, i: nat, child: Option<Key>): Key
    requires i < |parent.subkeys|
  {
    parent.(subkeys := parent.subkeys[..i] + (if child.None? then [] else [child.value]) + parent.subkeys[i + 1..])
  }

  lemma {:induction false} IndexFinds(ks: seq<Key>, i: nat)
    requires DistinctNames(ks) && i < |ks|
    ensures IndexOf(ks, ks[i].name) == Some(i)
  {
    assert IndexOf(ks, ks[i].name).Some?;
  }

  /** The enumeration index after n turns. */
  function Position(key: Key, n: nat): nat
    requires n <= |key.subkeys|
  {
    |Kept(key.subkeys[..n])|
  }

  /** The opened key after n turns of the loop. */
  function During(key: Key, n: nat): (h: Key)
    requires n <= |key.subkeys|
    ensures |h.subkeys| == Position(key, n) + |key.subkeys| - n
    ensures n < |key.subkeys| ==> h.subkeys[Position(key, n)] == key.subkeys[n]
  {
    key.(subkeys := Kept(key.subkeys[..n]) + key.subkeys[n..])
  }

  /** Sibling names stay distinct while the loop runs. */
  lemma {:induction false} DuringDistinct(ks: seq<Key>, n: nat)
    requires DistinctNames(ks) && n <= |ks|
    ensures DistinctNames(Kept(ks[..n]))
    ensures forall i, j :: 0 <= i < |Kept(ks[..n])| && n <= j < |ks| ==> Kept(ks[..n])[i].name != ks[j].name
    ensures DistinctNames(Kept(ks[..n]) + ks[n..])
  {
    if n > 0 {
      DuringDistinct(ks, n - 1);
      assert ks[..n][..n - 1] == ks[..n - 1];
      KeptNames(ks, n);
    }
  }

  lemma KeptNames(ks: seq<Key>, n: nat)
    requires DistinctNames(ks) && n <= |ks|
    ensures forall i, j :: 0 <= i < |Kept(ks[..n])| && n <= j < |ks| ==> Kept(ks[..n])[i].name != ks[j].name
  {
    forall i, j | 0 <= i < |Kept(ks[..n])| && n <= j < |ks| ensures Kept(ks[..n])[i].name != ks[j].name {
      var m :| 0 <= m < |ks[..n]| && Kept(ks[..n])[i].name == ks[..n][m].name;
      assert ks[..n][m] == ks[m];
    }
  }

  /** The name read at the current index opens the next of the original subkeys. */
  lemma TurnOpens(key: Key, n: nat)
    requires WellFormed(key) && n < |key.subkeys|
    ensures var h, idx := During(key, n), Position(key, n);
            && idx < |h.subkeys| && h.subkeys[idx] == key.subkeys[n]
            && IndexOf(h.subkeys, key.subkeys[n].name) == Some(idx)
  {
    DuringDistinct(key.subkeys, n);
    IndexFinds(During(key, n).subkeys, Position(key, n));
  }

  /** Deleting it, or what can be deleted of it, is one turn of the loop. */
  lemma TurnMoves(key: Key, n: nat)
    requires n < |key.subkeys|
    ensures Position(key, n) < |During(key, n).subkeys|
    ensures WithChild(During(key, n), Position(key, n), Left(key.subkeys[n])) == During(key, n + 1)
    ensures Position(key, n + 1) == Position(key, n) + (if Left(key.subkeys[n]).None? then 0 else 1)
  {
    var h, idx := During(key, n), Position(key, n);
    var kept := Kept(key.subkeys[..n]);
    assert key.subkeys[..n + 1][..n] == key.subkeys[..n];
    assert h.subkeys[..idx] == kept;
    assert h.subkeys[idx + 1..] == key.subkeys[n + 1..];
    assert Kept(key.subkeys[..n + 1]) == kept + (if Left(key.subkeys[n]).None? then [] else [Left(key.subkeys[n]).value]);
  }

  lemma LoopStarts(key: Key)
    ensures During(key, 0) == key && Position(key, 0) == 0
  {
    assert key.subkeys[0..] == key.subkeys;
  }

  /** The loop's last state, at the end of the list or at a name that does not fit. */
  lemma LoopEnds(key: Key, n: nat)
    requires n <= |key.subkeys| && (forall i :: 0 <= i < n ==> Enumerable(key.subkeys[i]))
    requires n == |key.subkeys| || !Enumerable(key.subkeys[n])
    ensures During(key, n) == key.(subkeys := LeftOf(key.subkeys))
  {
    assert key.subkeys == key.subkeys[..n] + key.subkeys[n..];
    LeftSplits(key.subkeys[..n], key.subkeys[n..]);
  }

  function Height(k: Key): nat {
    1 + HeightOf(k.subkeys)
  }

  function HeightOf(ks: seq<Key>): (h: nat)
    ensures forall i :: 0 <= i < |ks| ==> Height(ks[i]) <= h
  {
    if ks == [] then 0
    else
      var tail := HeightOf(ks[1..]);
      assert forall i :: 1 <= i < |ks| ==> ks[i] == ks[1..][i - 1];
      if Height(ks[0]) > tail then Height(ks[0]) else tail
  }

  /** How deep the key that the call opens is. */
  function Depth(parent: Key, sub: Name): nat {
    match IndexOf(parent.subkeys, sub)
    case None => 0
    case Some(i) => Height(parent.subkeys[i])
  }

  predicate OpensWellFormed(parent: Key, sub: Name) {
    match IndexOf(parent.subkeys, sub)
    case None => true
    case Some(i) => WellFormed(parent.subkeys[i])
  }

  /** delete_key_recurse on the subkey `sub` of `parent`; `after` is the parent once the call has
      returned. */
  method DeleteKeyRecurse(parent: Key, sub: Name) returns (res: bool, after: Key)
    requires OpensWellFormed(parent, sub)
    ensures match IndexOf(parent.subkeys, sub)
            case None => !res && after == parent
            case Some(i) => (res <==> Left(parent.subkeys[i]).None?) && after == WithChild(parent, i, Left(parent.subkeys[i]))
    decreases Depth(parent, sub)
  {
    var at := IndexOf(parent.subkeys, sub);
    res, after := false, parent;
    if at.Some? {
      var key := parent.subkeys[at.value];
      if key.openable {
        var h := EmptyKey(key);
        res := h.subkeys == [] && h.deletable;
        after := WithChild(parent, at.value, if res then None else Some(h));
      }
    }
  }

  /** The loop of delete_key_recurse over an opened key. */
  method EmptyKey(key: Key) returns (h: Key)
    requires WellFormed(key)
    ensures h == key.(subkeys := LeftOf(key.subkeys))
    decreases Height(key), 0
  {
    LoopStarts(key);
    hide During, Position, Kept, Left, LeftOf;
    h := key;
    var idx := 0;
    ghost var n := 0;
    while idx < |h.subkeys| && Enumerable(h.subkeys[idx])
      invariant 0 <= n <= |key.subkeys| && idx == Position(key, n)
      invariant forall i :: 0 <= i < n ==> Enumerable(key.subkeys[i])
      invariant h == During(key, n)
      decreases |key.subkeys| - n
    {
      var name := h.subkeys[idx].name;
      idx := idx + 1;
      TurnOpens(key, n);
      TurnMoves(key, n);
      var gone;
      gone, h := DeleteKeyRecurse(h, name);
      if gone {
        idx := idx - 1;
      }
      n := n + 1;
    }
    LoopEnds(key, n);
  }
}
