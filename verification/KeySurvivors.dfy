/** Which keys survive delete_key_recurse, said in terms of the tree as it was. */
module KeySurvivors {
  import opened Words
  import opened KeyTree

  type Path = seq<Name>

  function Child(ks: seq<Key>, name: Name): (r: Option<Key>) {
    var i := IndexOf(ks, name);
    if i.None? then None else Some(ks[i.value])
  }

  /** The enumeration gets as far as the subkey of that name. */
  predicate Reached(ks: seq<Key>, name: Name) {
    ks != [] && Enumerable(ks[0]) && (ks[0].name == name || Reached(ks[1..], name))
  }

  /** The tree has a key at this path. */
  predicate Has(k: Key, p: Path) {
    p == [] || (Child(k.subkeys, p[0]).Some? && Has(Child(k.subkeys, p[0]).value, p[1..]))
  }

  function At(k: Key, p: Path): Key
    requires Has(k, p)
  {
    if p == [] then k else At(Child(k.subkeys, p[0]).value, p[1..])
  }

  /** On the way to p lies a key that cannot be opened, or one that the enumeration does not reach. */
  predicate Sheltered(k: Key, p: Path)
    requires Has(k, p)
  {
    || !k.openable
    || (p != [] && (!Reached(k.subkeys, p[0]) || Sheltered(Child(k.subkeys, p[0]).value, p[1..])))
  }

  /** The key, or some key below it, cannot be opened, cannot be deleted, or is not reached. */
  predicate Obstructed(k: Key) {
    !k.openable || !k.deletable || exists i :: 0 <= i < |k.subkeys| && (!Enumerable(k.subkeys[i]) || Obstructed(k.subkeys[i]))
  }

  predicate SomeObstructed(ks: seq<Key>) {
    exists i :: 0 <= i < |ks| && (!Enumerable(ks[i]) || Obstructed(ks[i]))
  }

  /** The call succeeds, and leaves nothing, exactly when nothing in the subtree is in the way. */
  lemma {:induction false} GoneIffUnobstructed(k: Key)
    ensures Left(k).None? <==> !Obstructed(k)
    decreases k, |k.subkeys| + 1
  {
    if k.openable {
      EmptyIffNoneObstructed(k, k.subkeys);
    }
  }

  lemma {:induction false} EmptyIffNoneObstructed(k: Key, ks: seq<Key>)
    requires |ks| <= |k.subkeys| && ks == k.subkeys[|k.subkeys| - |ks|..]
    ensures LeftOf(ks) == [] <==> !SomeObstructed(ks)
    decreases k, |ks|
  {
    if ks != [] {
      var rest := ks[1..];
      EmptyIffNoneObstructed(k, rest);
      GoneIffUnobstructed(ks[0]);
      assert SomeObstructed(ks) <==> !Enumerable(ks[0]) || Obstructed(ks[0]) || SomeObstructed(rest) by {
        assert forall i :: 0 <= i < |rest| ==> rest[i] == ks[i + 1];
        if SomeObstructed(ks) && Enumerable(ks[0]) && !Obstructed(ks[0]) {
          var i :| 0 <= i < |ks| && (!Enumerable(ks[i]) || Obstructed(ks[i]));
          assert rest[i - 1] == ks[i];
        }
      }
    }
  }

  lemma ChildOfTail(ks: seq<Key>, name: Name)
    requires ks != []
    ensures Child(ks, name) == if ks[0].name == name then Some(ks[0]) else Child(ks[1..], name)
  {
  }

  /** A subkey that the loop does not reach stays as it was; one that it reaches leaves what Left says. */
  lemma {:induction false} ChildLeft(ks: seq<Key>, name: Name)
    requires DistinctNames(ks)
    ensures Child(LeftOf(ks), name) ==
            match Child(ks, name)
            case None => None
            case Some(c) => if Reached(ks, name) then Left(c) else Some(c)
  {
    if ks != [] {
      var rest := ks[1..];
      assert DistinctNames(rest);
      ChildOfTail(ks, name);
      if Enumerable(ks[0]) {
        ChildLeft(rest, name);
        if Left(ks[0]).Some? {
          ChildOfTail([Left(ks[0]).value] + LeftOf(rest), name);
          assert ([Left(ks[0]).value] + LeftOf(rest))[1..] == LeftOf(rest);
        } else if ks[0].name == name {
          NoOther(ks);
        }
      }
    }
  }

  lemma NoOther(ks: seq<Key>)
    requires DistinctNames(ks) && ks != []
    ensures Child(ks[1..], ks[0].name).None?
  {
    forall i | 0 <= i < |ks[1..]| ensures ks[1..][i].name != ks[0].name {
      assert ks[1..][i] == ks[i + 1];
    }
  }

  /** A key survives exactly when it lies under a key that could not be opened or was not reached, or
      it, or some key below it, could not be opened, deleted or reached. */
  lemma {:induction false} SurvivorsAreTheObstructed(k: Key, p: Path)
    requires WellFormed(k)
    ensures Left(k).Some? && Has(Left(k).value, p) <==> Has(k, p) && (Sheltered(k, p) || Obstructed(At(k, p)))
    decreases |p|
  {
    GoneIffUnobstructed(k);
    if p != [] && k.openable {
      ChildLeft(k.subkeys, p[0]);
      if Child(k.subkeys, p[0]).Some? {
        var i := IndexOf(k.subkeys, p[0]).value;
        SurvivorsAreTheObstructed(k.subkeys[i], p[1..]);
      }
    }
  }

  // ----------------------------------------------------------------------------------------------
  // Names of up to 252 characters

  /** Every key can be opened and deleted, and every name is short enough. */
  predicate Plain(k: Key) {
    k.openable && k.deletable && forall i :: 0 <= i < |k.subkeys| ==> |k.subkeys[i].name| <= 252 && Plain(k.subkeys[i])
  }

  lemma {:induction false} PlainIsUnobstructed(k: Key)
    requires Plain(k)
    ensures !Obstructed(k)
  {
    forall i | 0 <= i < |k.subkeys| ensures Enumerable(k.subkeys[i]) && !Obstructed(k.subkeys[i]) {
      PlainIsUnobstructed(k.subkeys[i]);
      EnumerableFits(k.subkeys[i]);
    }
  }

  /** Such a tree goes, all of it. */
  lemma PlainTreesGo(k: Key)
    requires Plain(k)
    ensures Left(k).None?
  {
    PlainIsUnobstructed(k);
    GoneIffUnobstructed(k);
  }

  /** One subkey whose name has 253 characters or more keeps its parent, and itself as it was. */
  lemma LongNamesStay(k: Key, i: nat)
    requires i < |k.subkeys| && |k.subkeys[i].name| >= 253
    ensures Left(k).Some? && k.subkeys[i] in Left(k).value.subkeys
  {
    if k.openable {
      LongNameStops(k.subkeys, i);
    }
  }

  lemma {:induction false} LongNameStops(ks: seq<Key>, i: nat)
    requires i < |ks| && |ks[i].name| >= 253
    ensures ks[i] in LeftOf(ks)
  {
    EnumerableFits(ks[0]);
    if i > 0 && Enumerable(ks[0]) {
      LongNameStops(ks[1..], i - 1);
    }
  }
}
