/**
 * The admin panel's drag-and-drop list: dropping an item at a new position
 * moves it there, sends the new id order to the server and reports the
 * outcome.
 */
module DraggableList {
  import opened Wrappers
  import opened Strings
  import opened Seqs
  import opened Json

  /** A listed item: its numeric id and whatever else the list renders. */
  datatype Item = Item(id: int, fields: Record)

  /** `s.splice(i, 1)`: `s` without its element at `i`. */
  function RemoveAt<T>(s: seq<T>, i: nat): (r: seq<T>)
    requires i < |s|
    ensures |r| == |s| - 1
  {
    s[..i] + s[i + 1..]
  }

  /** `s.splice(i, 0, x)`: `x` inserted before position `i`. */
  function InsertAt<T>(s: seq<T>, i: nat, x: T): (r: seq<T>)
    requires i <= |s|
    ensures |r| == |s| + 1
  {
    s[..i] + [x] + s[i..]
  }

  /** The list after the item at `from` is taken out and put back in at `to`. */
  function Moved<T>(s: seq<T>, from: nat, to: nat): seq<T>
    requires from < |s| && to < |s|
  {
    InsertAt(RemoveAt(s, from), to, s[from])
  }

  /** Element by element, a move forward shifts the items in between one place back. */
  lemma MovedForward<T>(s: seq<T>, from: nat, to: nat)
    requires from < to < |s|
    ensures |Moved(s, from, to)| == |s|
    ensures forall k :: 0 <= k < from ==> Moved(s, from, to)[k] == s[k]
    ensures forall k :: from <= k < to ==> Moved(s, from, to)[k] == s[k + 1]
    ensures Moved(s, from, to)[to] == s[from]
    ensures forall k :: to < k < |s| ==> Moved(s, from, to)[k] == s[k]
  {
  }

  /** Element by element, a move backward shifts the items in between one place on. */
  lemma MovedBackward<T>(s: seq<T>, from: nat, to: nat)
    requires to <= from < |s|
    ensures |Moved(s, from, to)| == |s|
    ensures forall k :: 0 <= k < to ==> Moved(s, from, to)[k] == s[k]
    ensures Moved(s, from, to)[to] == s[from]
    ensures forall k :: to < k <= from ==> Moved(s, from, to)[k] == s[k - 1]
    ensures forall k :: from < k < |s| ==> Moved(s, from, to)[k] == s[k]
  {
  }

  /**
   * The two splices done in place on an array: the items between the two
   * positions shift by one towards the old position and the moved item
   * lands at the new one.
   */
  method MoveInPlace<T>(a: array<T>, from: nat, to: nat)
    requires from < a.Length && to < a.Length
    modifies a
    ensures a[..] == Moved(old(a[..]), from, to)
  {
    ghost var s := a[..];
    var item := a[from];
    if from < to {
      var i := from;
      while i < to
        invariant from <= i <= to
        invariant forall k :: 0 <= k < from ==> a[k] == s[k]
        invariant forall k :: from <= k < i ==> a[k] == s[k + 1]
        invariant forall k :: i <= k < a.Length ==> a[k] == s[k]
      {
        a[i] := a[i + 1];
        i := i + 1;
      }
      a[to] := item;
      MovedForward(s, from, to);
    } else {
      var i := from;
      while i > to
        invariant to <= i <= from
        invariant forall k :: 0 <= k <= i ==> a[k] == s[k]
        invariant forall k :: i < k <= from ==> a[k] == s[k - 1]
        invariant forall k :: from < k < a.Length ==> a[k] == s[k]
      {
        a[i] := a[i - 1];
        i := i - 1;
      }
      a[to] := item;
      MovedBackward(s, from, to);
    }
    assert a[..] == Moved(s, from, to);
  }

  /** The move is a permutation: nothing is lost, duplicated or added. */
  lemma MovedPermutes<T>(s: seq<T>, from: nat, to: nat)
    requires from < |s| && to < |s|
    ensures |Moved(s, from, to)| == |s|
    ensures multiset(Moved(s, from, to)) == multiset(s)
  {
    var rest := RemoveAt(s, from);
    assert s == s[..from] + [s[from]] + s[from + 1..];
    assert multiset(s) == multiset(s[..from]) + multiset{s[from]} + multiset(s[from + 1..]);
    assert multiset(rest) == multiset(s[..from]) + multiset(s[from + 1..]);
    assert rest[..to] + rest[to..] == rest;
    assert multiset(rest) == multiset(rest[..to]) + multiset(rest[to..]);
    assert multiset(Moved(s, from, to)) == multiset(rest) + multiset{s[from]};
    assert multiset(Moved(s, from, to)) == multiset(rest[..to]) + multiset{s[from]} + multiset(rest[to..]);
  }

  /** The moved item ends at the drop position. */
  lemma MovedLandsAt<T>(s: seq<T>, from: nat, to: nat)
    requires from < |s| && to < |s|
    ensures Moved(s, from, to)[to] == s[from]
  {
  }

  /** Taking the moved item out again leaves the others in their old relative order. */
  lemma MovedKeepsOthersInOrder<T>(s: seq<T>, from: nat, to: nat)
    requires from < |s| && to < |s|
    ensures RemoveAt(Moved(s, from, to), to) == RemoveAt(s, from)
  {
    var rest := RemoveAt(s, from);
    var m := Moved(s, from, to);
    assert m[..to] == rest[..to];
    assert m[to + 1..] == rest[to..];
  }

  function IdOf(item: Item): int {
    item.id
  }

  /** A notification: title, text and whether it reports a failure. */
  datatype Toast = Toast(title: string, description: string, destructive: bool)

  class DragList {
    const itemName: string
    var items: seq<Item>
    var isReordering: bool

    constructor(itemName: string, items: seq<Item>)
      ensures this.itemName == itemName && this.items == items && !isReordering
    {
      this.itemName := itemName;
      this.items := items;
      isReordering := false;
    }

    /**
     * `handleDragEnd`: with no drop target, or a drop where the drag
     * started, nothing happens and no request is made.  Otherwise the ids
     * in their new order are sent and the list shows it is reordering.
     * The list itself changes only when the server's answer is fetched again.
     */
    method HandleDragEnd(source: nat, destination: Option<nat>) returns (reorderedIds: Option<seq<int>>)
      requires source < |items|
      requires destination.Some? ==> destination.value < |items|
      modifies this
      ensures items == old(items)
      ensures destination.None? || destination.value == source ==>
        reorderedIds == None && isReordering == old(isReordering)
      ensures destination.Some? && destination.value != source ==>
        reorderedIds == Some(Map(Moved(items, source, destination.value), IdOf)) && isReordering
    {
      if destination.None? || destination.value == source {
        return None;
      }
      var snapshot := items;
      var copy := new Item[|snapshot|](i requires 0 <= i < |snapshot| => snapshot[i]);
      assert copy[..] == snapshot;
      MoveInPlace(copy, source, destination.value);
      var ids := new int[copy.Length];
      var i := 0;
      while i < copy.Length
        invariant 0 <= i <= copy.Length
        invariant forall k :: 0 <= k < i ==> ids[k] == copy[k].id
        modifies ids
      {
        ids[i] := copy[i].id;
        i := i + 1;
      }
      assert forall k :: 0 <= k < ids.Length ==> ids[..][k] == Map(copy[..], IdOf)[k];
      assert ids[..] == Map(copy[..], IdOf);
      assert copy[..] == Moved(snapshot, source, destination.value);
      reorderedIds := Some(ids[..]);
      isReordering := true;
    }

    /** The request settled: reordering is over whichever way it went, and the toast says how. */
    method RequestSettled(succeeded: bool) returns (toast: Toast)
      modifies this
      ensures items == old(items) && !isReordering
      ensures succeeded ==> toast == Toast("Success", itemName + " reordered successfully!", false)
      ensures !succeeded ==> toast == Toast("Error", "Failed to reorder " + ToLower(itemName), true)
    {
      isReordering := false;
      if succeeded {
        toast := Toast("Success", itemName + " reordered successfully!", false);
      } else {
        toast := Toast("Error", "Failed to reorder " + ToLower(itemName), true);
      }
    }
  }
}
