/** Reordering a form's fields by drag and drop (`hooks/useDragAndDrop.ts`).
    The hook remembers the dragged field; a drop on another field removes the
    dragged one from a copy of the list and inserts it at the target's old
    index. Fields are matched by name. */
module DragAndDrop {
  import opened Wrappers
  import opened Seqs
  import opened ApiTypes

  /** `a.splice(i, 1)`: the list without its entry at `i`. */
  function Remove<T>(s: seq<T>, i: nat): (r: seq<T>)
    requires i < |s|
    ensures |r| == |s| - 1
  {
    s[..i] + s[i + 1..]
  }

  /** `a.splice(i, 0, x)`: the list with `x` inserted before index `i`. */
  function Insert<T>(s: seq<T>, i: nat, x: T): (r: seq<T>)
    requires i <= |s|
    ensures |r| == |s| + 1
  {
    s[..i] + [x] + s[i..]
  }

  /** The two splices of `handleDrop`: the entry at `d` taken out, then put in
      at index `t` of the shortened list. */
  function Moved<T>(s: seq<T>, d: nat, t: nat): (r: seq<T>)
    requires d < |s| && t < |s|
    ensures |r| == |s| && r[t] == s[d]
  {
    Insert(Remove(s, d), t, s[d])
  }

  function NameIs(name: string): ApiField -> bool
  {
    (f: ApiField) => f.name == name
  }

  /** What `handleDrop` passes to `onReorder`, or `None` when it returns early. */
  function DropResult(items: seq<ApiField>, dragged: Option<ApiField>, target: ApiField): (r: Option<seq<ApiField>>)
    ensures r.Some? ==> dragged.Some? && dragged.value.name != target.name && |r.value| == |items|
  {
    if dragged.None? || dragged.value.name == target.name then None
    else
      var d := FindIndex(items, NameIs(dragged.value.name));
      var t := FindIndex(items, NameIs(target.name));
      if d == -1 || t == -1 then None
      else Some(Moved(items, d, t))
  }

  /** Entry by entry: the moved entry sits at `t`, the entries between the two
      indices shift by one towards `d`, all others stay where they were. */
  lemma MovedAt<T>(s: seq<T>, d: nat, t: nat, k: nat)
    requires d < |s| && t < |s| && k < |s|
    ensures |Moved(s, d, t)| == |s|
    ensures Moved(s, d, t)[k] ==
              if k == t then s[d]
              else if d <= k < t then s[k + 1]
              else if t < k <= d then s[k - 1]
              else s[k]
  {
  }

  /** Moving never loses, duplicates or invents an entry. */
  lemma MovedPermutes<T>(s: seq<T>, d: nat, t: nat)
    requires d < |s| && t < |s|
    ensures multiset(Moved(s, d, t)) == multiset(s)
  {
    var u := Remove(s, d);
    assert s == s[..d] + [s[d]] + s[d + 1..];
    assert multiset(s) == multiset(s[..d]) + multiset{s[d]} + multiset(s[d + 1..]);
    assert multiset(u) == multiset(s[..d]) + multiset(s[d + 1..]);
    assert u[..t] + u[t..] == u;
    assert multiset(u) == multiset(u[..t]) + multiset(u[t..]);
    assert multiset(Moved(s, d, t)) == multiset(u[..t]) + multiset{s[d]} + multiset(u[t..]);
    assert multiset(Moved(s, d, t)) == multiset(u) + multiset{s[d]};
  }

  /** Dropping the moved entry back where it came from restores the list. */
  lemma {:induction false} MovedInverse<T>(s: seq<T>, d: nat, t: nat)
    requires d < |s| && t < |s|
    ensures Moved(Moved(s, d, t), t, d) == s
  {
    var r := Moved(s, d, t);
    MovedAt(s, d, t, t);
    assert Remove(r, t) == Remove(s, d);
    assert Insert(Remove(s, d), d, s[d]) == s;
  }

  /** Moving an entry onto its own index changes nothing. */
  lemma MovedInPlace<T>(s: seq<T>, d: nat)
    requires d < |s|
    ensures Moved(s, d, d) == s
  {
    assert Insert(Remove(s, d), d, s[d]) == s;
  }

  /** `handleDrop` reorders exactly when something is dragged, the target has
      another name and both names are in the list; the new list is then the
      old one with the first field of the dragged name moved to the first
      index of the target's name, a permutation of the old list. */
  lemma {:induction false} DropResultSpec(items: seq<ApiField>, dragged: Option<ApiField>, target: ApiField)
    ensures var r := DropResult(items, dragged, target);
      (r.Some? <==> dragged.Some? && dragged.value.name != target.name &&
                    (exists k :: 0 <= k < |items| && items[k].name == dragged.value.name) &&
                    (exists k :: 0 <= k < |items| && items[k].name == target.name)) &&
      (r.Some? ==> exists d, t ::
         0 <= d < |items| && 0 <= t < |items| && d != t &&
         items[d].name == dragged.value.name && items[t].name == target.name &&
         (forall k :: 0 <= k < d ==> items[k].name != dragged.value.name) &&
         (forall k :: 0 <= k < t ==> items[k].name != target.name) &&
         r.value == Moved(items, d, t) &&
         |r.value| == |items| && r.value[t] == items[d] &&
         multiset(r.value) == multiset(items))
  {
    if dragged.Some? && dragged.value.name != target.name {
      var d := FindIndex(items, NameIs(dragged.value.name));
      var t := FindIndex(items, NameIs(target.name));
      if d != -1 && t != -1 {
        assert items[d].name == dragged.value.name && items[t].name == target.name;
        MovedAt(items, d, t, t);
        MovedPermutes(items, d, t);
      }
    }
  }

  /** Dragging a field forward lands it just after the field it was dropped
      on, dragging it backward lands it just before. */
  lemma DropSides(items: seq<ApiField>, d: nat, t: nat)
    requires d < |items| && t < |items| && d != t
    ensures d < t ==> Moved(items, d, t)[t - 1] == items[t] && Moved(items, d, t)[t] == items[d]
    ensures t < d ==> Moved(items, d, t)[t] == items[d] && Moved(items, d, t)[t + 1] == items[t]
  {
    MovedAt(items, d, t, t);
    if d < t {
      MovedAt(items, d, t, t - 1);
    } else {
      MovedAt(items, d, t, t + 1);
    }
  }

  /** Dropping the first of four fields onto the third: `[A,B,C,D]` becomes
      `[B,C,A,D]`. */
  lemma DropFirstOntoThird(a: ApiField, b: ApiField, c: ApiField, d: ApiField)
    requires a.name != b.name && a.name != c.name && a.name != d.name
    requires b.name != c.name && b.name != d.name && c.name != d.name
    ensures DropResult([a, b, c, d], Some(a), c) == Some([b, c, a, d])
  {
    var items := [a, b, c, d];
    assert FindIndex(items, NameIs(a.name)) == 0;
    assert !NameIs(c.name)(items[0]) && !NameIs(c.name)(items[1]) && NameIs(c.name)(items[2]);
    assert FindIndex(items, NameIs(c.name)) == 2;
    assert Remove(items, 0) == [b, c, d];
    assert Insert([b, c, d], 2, a) == [b, c, a, d];
    assert Moved(items, 0, 2) == [b, c, a, d];
  }

  /** The hook's state: the dragged field and the dragging flag. */
  class DragState {
    var draggedItem: Option<ApiField>
    var isDragging: bool

    /** The flag is up exactly while a field is held. */
    ghost predicate Valid()
      reads this
    {
      isDragging <==> draggedItem.Some?
    }

    constructor ()
      ensures draggedItem == None && !isDragging
      ensures Valid()
    {
      draggedItem := None;
      isDragging := false;
    }

    /** `handleDragStart`: remembers the field. */
    method HandleDragStart(item: ApiField)
      modifies this
      ensures draggedItem == Some(item) && isDragging
      ensures Valid()
    {
      draggedItem := Some(item);
      isDragging := true;
    }

    /** `handleDragEnd`: forgets the field. */
    method HandleDragEnd()
      modifies this
      ensures draggedItem == None && !isDragging
      ensures Valid()
    {
      draggedItem := None;
      isDragging := false;
    }

    /** `handleDrop`: returns what `onReorder` receives, if it is called, and
        resets the state only then. */
    method HandleDrop(items: seq<ApiField>, target: ApiField) returns (reordered: Option<seq<ApiField>>)
      modifies this
      ensures reordered == DropResult(items, old(draggedItem), target)
      ensures reordered.Some? ==> draggedItem == None && !isDragging
      ensures reordered.None? ==> draggedItem == old(draggedItem) && isDragging == old(isDragging)
      ensures old(Valid()) ==> Valid()
    {
      if draggedItem.None? || draggedItem.value.name == target.name {
        return None;
      }
      var currentItems := items;
      var draggedIndex := FindIndex(currentItems, NameIs(draggedItem.value.name));
      var targetIndex := FindIndex(currentItems, NameIs(target.name));
      if draggedIndex == -1 || targetIndex == -1 {
        return None;
      }
      var removedItem := currentItems[draggedIndex];
      currentItems := Remove(currentItems, draggedIndex);
      currentItems := Insert(currentItems, targetIndex, removedItem);
      reordered := Some(currentItems);
      draggedItem := None;
      isDragging := false;
    }
  }
}
