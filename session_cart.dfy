/** The cart as the session driver keeps it: one PHP array under the session
    key, mapping each item id to its item record. PHP arrays keep their keys
    in insertion order, so the blob is a sequence of items whose ids are
    pairwise distinct; the key of each entry is the id of its item. This
    module holds the read-modify-write step of each session helper of
    CartManager as a function of the old blob. */
module SessionCart {
  import opened Items

  type Blob = seq<Item>

  /** Array keys are unique: no id appears twice. */
  predicate UniqueIds(b: Blob)
  {
    forall i, j :: 0 <= i < j < |b| ==> b[i].id != b[j].id
  }

  /** Position of the entry with key id, or |b| when no entry has that key. */
  function IndexOf(b: Blob, id: string): (k: nat)
    ensures k <= |b|
    ensures k < |b| ==> b[k].id == id
    ensures forall j :: 0 <= j < k ==> b[j].id != id
  {
    if b == [] then 0 else if b[0].id == id then 0 else 1 + IndexOf(b[1..], id)
  }

  /** The entry stored under key id, if there is one. */
  function Lookup(b: Blob, id: string): (r: Option<Item>)
    ensures r.None? <==> forall j :: 0 <= j < |b| ==> b[j].id != id
    ensures r.Some? ==> r.value in b && r.value.id == id
  {
    var k := IndexOf(b, id);
    if k < |b| then Some(b[k]) else None
  }

  /** addToSession: bump the quantity of an existing entry, keeping its name,
      price and options, or append the new item. */
  function Add(b: Blob, item: Item): (r: Blob)
    ensures |r| == |b| <==> Lookup(b, item.id).Some?
    ensures |r| != |b| ==> r == b + [item]
  {
    var k := IndexOf(b, item.id);
    if k < |b| then b[k := b[k].(quantity := b[k].quantity + item.quantity)]
    else b + [item]
  }

  /** removeFromSession: drop the entry under key id; afterwards no entry
      has that key. */
  function Remove(b: Blob, id: string): (r: Blob)
    ensures |r| <= |b|
    ensures forall i :: 0 <= i < |r| ==> r[i].id != id
  {
    if b == [] then []
    else if b[0].id == id then Remove(b[1..], id)
    else [b[0]] + Remove(b[1..], id)
  }

  /** increaseInSession on a blob: add quantity to an existing entry; the
      keys and their order stay as they were. */
  function Increase(b: Blob, id: string, quantity: int): (r: Blob)
    ensures SameIds(b, r)
  {
    var k := IndexOf(b, id);
    if k < |b| then b[k := b[k].(quantity := b[k].quantity + quantity)] else b
  }

  /** decreaseInSession on a blob: lower an existing entry's quantity,
      clamped at one; the keys and their order stay as they were. */
  function Decrease(b: Blob, id: string, quantity: int): (r: Blob)
    ensures SameIds(b, r)
  {
    var k := IndexOf(b, id);
    if k < |b| then b[k := b[k].(quantity := Max(1, b[k].quantity - quantity))] else b
  }

  /** Two blobs that list the same ids in the same order. */
  predicate SameIds(b: Blob, c: Blob)
  {
    |b| == |c| && forall i :: 0 <= i < |b| ==> b[i].id == c[i].id
  }

  lemma {:induction false} IndexOfSameIds(b: Blob, c: Blob, id: string)
    requires SameIds(b, c)
    ensures IndexOf(b, id) == IndexOf(c, id)
  {
    if b != [] && b[0].id != id {
      IndexOfSameIds(b[1..], c[1..], id);
    }
  }

  /** Replacing one entry by a record with the same id changes the lookup of
      that id only, and keeps the ids unique. */
  lemma UpdateInPlace(b: Blob, k: nat, x: Item)
    requires k < |b| && x.id == b[k].id && IndexOf(b, x.id) == k
    ensures SameIds(b, b[k := x])
    ensures UniqueIds(b) ==> UniqueIds(b[k := x])
    ensures Lookup(b[k := x], x.id) == Some(x)
    ensures forall other :: other != x.id ==> Lookup(b[k := x], other) == Lookup(b, other)
  {
    forall other
      ensures IndexOf(b[k := x], other) == IndexOf(b, other)
    {
      IndexOfSameIds(b, b[k := x], other);
    }
  }

  /** Appending an item whose id is absent: only that id's lookup changes. */
  lemma AppendAbsent(b: Blob, x: Item)
    requires Lookup(b, x.id).None?
    ensures UniqueIds(b) ==> UniqueIds(b + [x])
    ensures Lookup(b + [x], x.id) == Some(x)
    ensures forall other :: other != x.id ==> Lookup(b + [x], other) == Lookup(b, other)
  {
    assert forall j :: 0 <= j < |b| ==> (b + [x])[j] == b[j];
    assert (b + [x])[|b|] == x;
    forall other | other != x.id
      ensures Lookup(b + [x], other) == Lookup(b, other)
    {
      if Lookup(b, other).None? {
        assert forall j :: 0 <= j < |b + [x]| ==> (b + [x])[j].id != other;
      } else {
        var k := IndexOf(b, other);
        assert IndexOf(b + [x], other) == k by {
          IndexOfPrefix(b, [x], other);
        }
      }
    }
  }

  lemma {:induction false} IndexOfPrefix(b: Blob, c: Blob, id: string)
    requires IndexOf(b, id) < |b|
    ensures IndexOf(b + c, id) == IndexOf(b, id)
  {
    if b[0].id != id {
      assert (b + c)[1..] == b[1..] + c;
      IndexOfPrefix(b[1..], c, id);
    }
  }

  /** Session add: a new id is inserted exactly as given; an existing id ends
      with quantity old + q and keeps its old name, price and options. Every
      other id is untouched and the keys stay unique. */
  lemma AddSpec(b: Blob, item: Item)
    ensures Lookup(Add(b, item), item.id) ==
      match Lookup(b, item.id)
      case None => Some(item)
      case Some(was) => Some(was.(quantity := was.quantity + item.quantity))
    ensures forall other :: other != item.id ==> Lookup(Add(b, item), other) == Lookup(b, other)
    ensures UniqueIds(b) ==> UniqueIds(Add(b, item))
  {
    var k := IndexOf(b, item.id);
    if k < |b| {
      var x := b[k].(quantity := b[k].quantity + item.quantity);
      assert Lookup(b, item.id) == Some(b[k]);
      assert Add(b, item) == b[k := x];
      UpdateInPlace(b, k, x);
    } else {
      assert Lookup(b, item.id) == None;
      assert Add(b, item) == b + [item];
      AppendAbsent(b, item);
    }
  }

  /** Session add raises the item count by q whether it merges or inserts,
      and the total by q times the price that stays stored: the old price
      on a merge, the new one on an insert. */
  lemma AddFolds(b: Blob, item: Item)
    ensures CountOf(Add(b, item)) == CountOf(b) + item.quantity
    ensures TotalOf(Add(b, item)) == TotalOf(b) +
      (match Lookup(b, item.id)
       case None => item.price
       case Some(was) => was.price) * item.quantity as real
  {
    var k := IndexOf(b, item.id);
    if k < |b| {
      FoldsUpdate(b, k, b[k].(quantity := b[k].quantity + item.quantity));
    } else {
      FoldsAppend(b, [item]);
    }
  }

  /** Increase on a present id sets quantity to old + q; on an absent id the
      blob is returned unchanged. Every other id is untouched. */
  lemma IncreaseSpec(b: Blob, id: string, q: int)
    ensures Lookup(b, id).None? ==> Increase(b, id, q) == b
    ensures Lookup(Increase(b, id, q), id) ==
      match Lookup(b, id)
      case None => None
      case Some(was) => Some(was.(quantity := was.quantity + q))
    ensures forall other :: other != id ==> Lookup(Increase(b, id, q), other) == Lookup(b, other)
    ensures UniqueIds(b) ==> UniqueIds(Increase(b, id, q))
  {
    var k := IndexOf(b, id);
    if k < |b| {
      var x := b[k].(quantity := b[k].quantity + q);
      assert Lookup(b, id) == Some(b[k]);
      assert Increase(b, id, q) == b[k := x];
      UpdateInPlace(b, k, x);
    }
  }

  /** Increase raises the item count by q, and the total by q times the
      stored price, exactly when the id is present. */
  lemma IncreaseFolds(b: Blob, id: string, q: int)
    ensures CountOf(Increase(b, id, q)) == CountOf(b) + (if Lookup(b, id).Some? then q else 0)
    ensures TotalOf(Increase(b, id, q)) == TotalOf(b) +
      (match Lookup(b, id)
       case None => 0.0
       case Some(was) => was.price * q as real)
  {
    var k := IndexOf(b, id);
    if k < |b| {
      FoldsUpdate(b, k, b[k].(quantity := b[k].quantity + q));
    }
  }

  /** Decrease on a present id sets quantity to max(1, old - q): the entry is
      never deleted and its quantity never drops below one. On an absent id
      the blob is returned unchanged. Every other id is untouched. */
  lemma DecreaseSpec(b: Blob, id: string, q: int)
    ensures Lookup(b, id).None? ==> Decrease(b, id, q) == b
    ensures Lookup(Decrease(b, id, q), id) ==
      match Lookup(b, id)
      case None => None
      case Some(was) => Some(was.(quantity := Max(1, was.quantity - q)))
    ensures Lookup(b, id).Some? ==> Lookup(Decrease(b, id, q), id).Some? &&
                                    Lookup(Decrease(b, id, q), id).value.quantity >= 1
    ensures forall other :: other != id ==> Lookup(Decrease(b, id, q), other) == Lookup(b, other)
    ensures UniqueIds(b) ==> UniqueIds(Decrease(b, id, q))
  {
    var k := IndexOf(b, id);
    if k < |b| {
      var x := b[k].(quantity := Max(1, b[k].quantity - q));
      assert Lookup(b, id) == Some(b[k]);
      assert Decrease(b, id, q) == b[k := x];
      UpdateInPlace(b, k, x);
    }
  }

  /** Remove keeps exactly the entries whose id differs. */
  lemma {:induction false} RemoveKeeps(b: Blob, id: string)
    ensures forall x :: x in Remove(b, id) <==> x in b && x.id != id
    ensures |Remove(b, id)| <= |b|
    ensures UniqueIds(b) ==> UniqueIds(Remove(b, id))
  {
    if b != [] {
      RemoveKeeps(b[1..], id);
      if b[0].id != id && UniqueIds(b) {
        var r := Remove(b, id);
        assert r == [b[0]] + Remove(b[1..], id);
        forall i, j | 0 <= i < j < |r| ensures r[i].id != r[j].id {
          if i == 0 {
            assert r[j] in b[1..];
          }
        }
      }
    }
  }

  /** Removing an absent id gives back the same blob. */
  lemma {:induction false} RemoveAbsent(b: Blob, id: string)
    requires Lookup(b, id).None?
    ensures Remove(b, id) == b
  {
    if b != [] {
      assert Lookup(b[1..], id).None?;
      RemoveAbsent(b[1..], id);
    }
  }

  /** remove(id) deletes exactly that entry: afterwards the id is absent,
      every other id is looked up as before, removing an absent id is a
      no-op, and the count and total drop by the removed entry's share. */
  lemma RemoveSpec(b: Blob, id: string)
    requires UniqueIds(b)
    ensures Lookup(Remove(b, id), id).None?
    ensures forall other :: other != id ==> Lookup(Remove(b, id), other) == Lookup(b, other)
    ensures Lookup(b, id).None? ==> Remove(b, id) == b
    ensures UniqueIds(Remove(b, id))
    ensures CountOf(Remove(b, id)) == CountOf(b) - (if Lookup(b, id).Some? then Lookup(b, id).value.quantity else 0)
    ensures TotalOf(Remove(b, id)) == TotalOf(b) - (if Lookup(b, id).Some? then LineTotal(Lookup(b, id).value) else 0.0)
  {
    RemoveKeeps(b, id);
    if Lookup(b, id).None? {
      RemoveAbsent(b, id);
    }
    forall other | other != id
      ensures Lookup(Remove(b, id), other) == Lookup(b, other)
    {
      RemoveOther(b, id, other);
    }
    RemoveFolds(b, id);
  }

  lemma {:induction false} RemoveOther(b: Blob, id: string, other: string)
    requires UniqueIds(b) && other != id
    ensures Lookup(Remove(b, id), other) == Lookup(b, other)
  {
    if b != [] {
      RemoveOther(b[1..], id, other);
      RemoveKeeps(b[1..], id);
      if b[0].id == other {
        assert Lookup(b, other) == Some(b[0]);
      } else {
        assert Lookup(b, other) == Lookup(b[1..], other);
        if b[0].id != id {
          assert Remove(b, id) == [b[0]] + Remove(b[1..], id);
          assert Lookup(Remove(b, id), other) == Lookup(Remove(b[1..], id), other);
        }
      }
    }
  }

  lemma {:induction false} RemoveFolds(b: Blob, id: string)
    requires UniqueIds(b)
    ensures CountOf(Remove(b, id)) == CountOf(b) - (if Lookup(b, id).Some? then Lookup(b, id).value.quantity else 0)
    ensures TotalOf(Remove(b, id)) == TotalOf(b) - (if Lookup(b, id).Some? then LineTotal(Lookup(b, id).value) else 0.0)
  {
    if b != [] {
      RemoveFolds(b[1..], id);
      if b[0].id == id {
        assert Lookup(b[1..], id).None?;
        RemoveAbsent(b[1..], id);
      } else {
        assert Lookup(b, id) == Lookup(b[1..], id);
        assert Remove(b, id) == [b[0]] + Remove(b[1..], id);
        FoldsAppend([b[0]], Remove(b[1..], id));
      }
    }
  }

  /** Decrease lowers the item count by the amount actually taken off, from
      the old quantity down to max(1, old - q), and the total by that amount
      times the stored price. */
  lemma DecreaseFolds(b: Blob, id: string, q: int)
    ensures CountOf(Decrease(b, id, q)) == CountOf(b) -
      (match Lookup(b, id)
       case None => 0
       case Some(was) => was.quantity - Max(1, was.quantity - q))
    ensures TotalOf(Decrease(b, id, q)) == TotalOf(b) -
      (match Lookup(b, id)
       case None => 0.0
       case Some(was) => was.price * (was.quantity - Max(1, was.quantity - q)) as real)
  {
    var k := IndexOf(b, id);
    if k < |b| {
      FoldsUpdate(b, k, b[k].(quantity := Max(1, b[k].quantity - q)));
    }
  }
}
