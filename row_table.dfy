/** The cart as the database driver keeps it: a table of rows
    {session_id, user_id, item_id, name, price, quantity, options}. Each
    database helper of CartManager filters the table by a where-clause and
    then inserts, increments, updates or deletes; here each helper is a
    function from the old table to the new one. The table is a sequence in
    insertion order, and `first()` picks the earliest matching row. */
module RowTable {
  import opened Items

  type UserId = nat

  /** The request context that the source reads from ambient state: the
      session id (`$this->session->getId()`) and `Auth::id()`, which is
      None for a guest. */
  datatype Context = Context(sessionId: string, user: Option<UserId>)

  /** A row of the cart table; a null column is None. */
  datatype Row = Row(sessionId: Option<string>, userId: Option<UserId>, itemId: string,
                     name: string, price: real, quantity: int, options: Options)

  type Table = seq<Row>

  /** The where-clauses of the database helpers. */
  datatype Filter =
    | AddScope(ctx: Context, id: string)   // addToDatabase
    | ItemScope(ctx: Context, id: string)  // removeFromDatabase, increaseInDatabase, decreaseInDatabase
    | CartScope(ctx: Context)              // clearDatabase, getDatabaseItems

  /** The cart scope of every row operation but add: the row's session id is
      the current session's, and its user id equals the current user id, which
      for a guest means the user column is null. */
  predicate InCartScope(r: Row, ctx: Context)
  {
    r.sessionId == Some(ctx.sessionId) && r.userId == ctx.user
  }

  predicate Matches(r: Row, f: Filter)
  {
    match f
    case AddScope(ctx, id) =>
      // item_id = id, plus user_id = uid when authenticated, or
      // session_id = sid and user_id IS NULL for a guest
      r.itemId == id &&
      (if ctx.user.Some? then r.userId == ctx.user
       else r.sessionId == Some(ctx.sessionId) && r.userId == None)
    case ItemScope(ctx, id) => InCartScope(r, ctx) && r.itemId == id
    case CartScope(ctx) => InCartScope(r, ctx)
  }

  /** Position of `first()` for a filter, or |t| when no row matches. */
  function FirstMatch(t: Table, f: Filter): (k: nat)
    ensures k <= |t|
    ensures k < |t| ==> Matches(t[k], f)
    ensures forall j :: 0 <= j < k ==> !Matches(t[j], f)
  {
    if t == [] then 0 else if Matches(t[0], f) then 0 else 1 + FirstMatch(t[1..], f)
  }

  /** The row CartItem::create writes: session_id is null when authenticated,
      user_id is Auth::id(). */
  function NewRow(ctx: Context, item: Item): Row
  {
    Row(if ctx.user.Some? then None else Some(ctx.sessionId), ctx.user,
        item.id, item.name, item.price, item.quantity, item.options)
  }

  /** The matched row after increment('quantity', q) and update(name, price,
      options). */
  function Merged(r: Row, item: Item): Row
  {
    r.(quantity := r.quantity + item.quantity, name := item.name,
       price := item.price, options := item.options)
  }

  /** addToDatabase: merge into the first row the add filter finds, or
      append a new row. Either way the table then holds a row of the
      caller's owner for the item. */
  function Add(t: Table, ctx: Context, item: Item): (r: Table)
    ensures |t| <= |r| <= |t| + 1
    ensures |r| == |t| + 1 ==> r[..|t|] == t
    ensures exists k :: 0 <= k < |r| && Matches(r[k], AddScope(ctx, item.id))
  {
    var k := FirstMatch(t, AddScope(ctx, item.id));
    if k < |t| then
      var u := t[k := Merged(t[k], item)];
      assert Matches(u[k], AddScope(ctx, item.id));
      u
    else
      var u := t + [NewRow(ctx, item)];
      assert Matches(u[|t|], AddScope(ctx, item.id));
      u
  }

  /** A delete() on a filtered query: every matching row goes, and only
      rows of the old table remain. */
  function DeleteWhere(t: Table, f: Filter): (r: Table)
    ensures |r| <= |t|
    ensures forall i :: 0 <= i < |r| ==> !Matches(r[i], f)
  {
    if t == [] then []
    else if Matches(t[0], f) then DeleteWhere(t[1..], f)
    else [t[0]] + DeleteWhere(t[1..], f)
  }

  /** An increment('quantity', q) on a filtered query: every matching row
      gains q; no row is added or deleted. */
  function IncrementWhere(t: Table, f: Filter, q: int): (r: Table)
    ensures |r| == |t|
  {
    if t == [] then []
    else [if Matches(t[0], f) then t[0].(quantity := t[0].quantity + q) else t[0]]
         + IncrementWhere(t[1..], f, q)
  }

  /** removeFromDatabase: no row of the item in cart scope is left. */
  function Remove(t: Table, ctx: Context, id: string): (r: Table)
    ensures |r| <= |t|
    ensures forall i :: 0 <= i < |r| ==> !(InCartScope(r[i], ctx) && r[i].itemId == id)
  {
    DeleteWhere(t, ItemScope(ctx, id))
  }

  /** increaseInDatabase: no row is added or deleted. */
  function Increase(t: Table, ctx: Context, id: string, q: int): (r: Table)
    ensures |r| == |t|
  {
    IncrementWhere(t, ItemScope(ctx, id), q)
  }

  /** decreaseInDatabase: only the `first()` row is updated; no row is
      added or deleted, and a row outside the item's cart scope never
      changes. */
  function Decrease(t: Table, ctx: Context, id: string, q: int): (r: Table)
    ensures |r| == |t|
    ensures forall i :: 0 <= i < |t| && !Matches(t[i], ItemScope(ctx, id)) ==> r[i] == t[i]
  {
    var k := FirstMatch(t, ItemScope(ctx, id));
    if k < |t| then t[k := t[k].(quantity := Max(1, t[k].quantity - q))] else t
  }

  /** clearDatabase: no row in cart scope is left. */
  function Clear(t: Table, ctx: Context): (r: Table)
    ensures |r| <= |t|
    ensures forall i :: 0 <= i < |r| ==> !InCartScope(r[i], ctx)
  {
    DeleteWhere(t, CartScope(ctx))
  }

  /** The item array getDatabaseItems builds from a row. */
  function ItemOf(r: Row): Item
  {
    Item(r.itemId, r.name, r.price, r.quantity, r.options)
  }

  /** getDatabaseItems: the rows in cart scope, as items, in table order;
      every row in scope shows up. */
  function ScopeItems(t: Table, ctx: Context): (r: seq<Item>)
    ensures |r| <= |t|
    ensures forall i :: 0 <= i < |t| && InCartScope(t[i], ctx) ==> ItemOf(t[i]) in r
  {
    if t == [] then []
    else (if InCartScope(t[0], ctx) then [ItemOf(t[0])] else []) + ScopeItems(t[1..], ctx)
  }

  // ---------------------------------------------------------------------
  // Owners and the table invariants

  /** Whom a row belongs to in the eyes of addToDatabase. */
  datatype Owner = User(uid: UserId) | Guest(sid: string)

  function OwnerOf(ctx: Context): Owner
  {
    if ctx.user.Some? then User(ctx.user.value) else Guest(ctx.sessionId)
  }

  /** The (owner, item id) pair under which addToDatabase finds a row, or
      None for a row with neither column set, which it never finds. */
  function AddKey(r: Row): Option<(Owner, string)>
  {
    if r.userId.Some? then Some((User(r.userId.value), r.itemId))
    else if r.sessionId.Some? then Some((Guest(r.sessionId.value), r.itemId))
    else None
  }

  /** At most one row per (owner, item id). */
  predicate OnePerOwner(t: Table)
  {
    forall i, j :: 0 <= i < j < |t| && AddKey(t[i]).Some? ==> AddKey(t[i]) != AddKey(t[j])
  }

  /** Exactly one of session_id and user_id is set. */
  predicate WellFormed(t: Table)
  {
    forall i :: 0 <= i < |t| ==> (t[i].sessionId.Some? != t[i].userId.Some?)
  }

  /** The add filter selects exactly the rows of the caller's owner key. */
  lemma AddScopeIsOwnerKey(r: Row, ctx: Context, id: string)
    ensures Matches(r, AddScope(ctx, id)) <==> AddKey(r) == Some((OwnerOf(ctx), id))
  {
  }

  /** Two tables that agree on every row's add key. */
  predicate SameKeys(t: Table, u: Table)
  {
    |t| == |u| && forall i :: 0 <= i < |t| ==> AddKey(t[i]) == AddKey(u[i])
  }

  /** Row add: when a row matches the add filter, the earliest such row has
      its quantity grown by q and its name, price and options replaced, and
      no other row changes; under OnePerOwner it is the only matching row.
      Otherwise exactly one row is appended, with session_id the current
      session for a guest and null when authenticated. */
  lemma AddSpec(t: Table, ctx: Context, item: Item)
    ensures var f := AddScope(ctx, item.id);
      (exists j :: 0 <= j < |t| && Matches(t[j], f)) ==>
        var k := FirstMatch(t, f);
        && k < |t| && Matches(t[k], f)
        && |Add(t, ctx, item)| == |t|
        && Add(t, ctx, item)[k] == t[k].(quantity := t[k].quantity + item.quantity,
             name := item.name, price := item.price, options := item.options)
        && (forall j :: 0 <= j < |t| && j != k ==> Add(t, ctx, item)[j] == t[j])
        && (OnePerOwner(t) ==> forall j :: 0 <= j < |t| && Matches(t[j], f) ==> j == k)
    ensures var f := AddScope(ctx, item.id);
      (forall j :: 0 <= j < |t| ==> !Matches(t[j], f)) ==>
        Add(t, ctx, item) == t + [Row(if ctx.user.Some? then None else Some(ctx.sessionId), ctx.user,
                                      item.id, item.name, item.price, item.quantity, item.options)]
  {
    var f := AddScope(ctx, item.id);
    var k := FirstMatch(t, f);
    if k < |t| && OnePerOwner(t) {
      forall j | 0 <= j < |t| && Matches(t[j], f) ensures j == k {
        AddScopeIsOwnerKey(t[j], ctx, item.id);
        AddScopeIsOwnerKey(t[k], ctx, item.id);
      }
    }
  }

  lemma SameKeysOnePerOwner(t: Table, u: Table)
    requires SameKeys(t, u) && OnePerOwner(t)
    ensures OnePerOwner(u)
  {
  }

  /** Hence add keeps at most one row per (owner, item id). */
  lemma AddOnePerOwner(t: Table, ctx: Context, item: Item)
    requires OnePerOwner(t)
    ensures OnePerOwner(Add(t, ctx, item))
  {
    var f := AddScope(ctx, item.id);
    var k := FirstMatch(t, f);
    if k < |t| {
      SameKeysOnePerOwner(t, Add(t, ctx, item));
    } else {
      var u := Add(t, ctx, item);
      var n := NewRow(ctx, item);
      assert AddKey(n) == Some((OwnerOf(ctx), item.id));
      forall i | 0 <= i < |t| && AddKey(u[i]).Some?
        ensures AddKey(u[i]) != AddKey(u[|t|])
      {
        assert u[i] == t[i];
        AddScopeIsOwnerKey(t[i], ctx, item.id);
      }
    }
  }

  /** Add keeps every row well formed. */
  lemma AddWellFormed(t: Table, ctx: Context, item: Item)
    requires WellFormed(t)
    ensures WellFormed(Add(t, ctx, item))
  {
    var u := Add(t, ctx, item);
    assert forall i :: 0 <= i < |t| ==> u[i].sessionId == t[i].sessionId && u[i].userId == t[i].userId;
  }

  /** A filtered delete removes exactly the matching rows and keeps every
      other row with its multiplicity. */
  lemma {:induction false} DeleteWhereSpec(t: Table, f: Filter)
    ensures forall r :: multiset(DeleteWhere(t, f))[r] == if Matches(r, f) then 0 else multiset(t)[r]
    ensures forall r :: r in DeleteWhere(t, f) <==> r in t && !Matches(r, f)
  {
    if t != [] {
      DeleteWhereSpec(t[1..], f);
      assert t == [t[0]] + t[1..];
      assert multiset(t) == multiset([t[0]]) + multiset(t[1..]);
    }
  }

  /** A delete that matches nothing leaves the table as it was. */
  lemma {:induction false} DeleteNothing(t: Table, f: Filter)
    requires forall j :: 0 <= j < |t| ==> !Matches(t[j], f)
    ensures DeleteWhere(t, f) == t
  {
    if t != [] {
      DeleteNothing(t[1..], f);
    }
  }

  /** A filtered delete keeps both table invariants. */
  lemma {:induction false} DeleteWhereInvariants(t: Table, f: Filter)
    ensures OnePerOwner(t) ==> OnePerOwner(DeleteWhere(t, f))
    ensures WellFormed(t) ==> WellFormed(DeleteWhere(t, f))
  {
    if t != [] {
      DeleteWhereInvariants(t[1..], f);
      DeleteWhereSpec(t[1..], f);
      var rest := DeleteWhere(t[1..], f);
      if !Matches(t[0], f) {
        var u := [t[0]] + rest;
        assert DeleteWhere(t, f) == u;
        if OnePerOwner(t) {
          forall i, j | 0 <= i < j < |u| && AddKey(u[i]).Some? ensures AddKey(u[i]) != AddKey(u[j]) {
            if i == 0 {
              assert u[j] in t[1..];
            }
          }
        }
        if WellFormed(t) {
          forall i | 0 <= i < |u| ensures u[i].sessionId.Some? != u[i].userId.Some? {
            if i > 0 {
              assert u[i] in t[1..];
            }
          }
        }
      }
    }
  }

  /** A filtered increment adds q to the quantity of every matching row and
      leaves every other row unchanged. */
  lemma {:induction false} IncrementWhereSpec(t: Table, f: Filter, q: int)
    ensures |IncrementWhere(t, f, q)| == |t|
    ensures forall i :: 0 <= i < |t| ==>
      IncrementWhere(t, f, q)[i] == if Matches(t[i], f) then t[i].(quantity := t[i].quantity + q) else t[i]
  {
    if t != [] {
      IncrementWhereSpec(t[1..], f, q);
    }
  }

  /** Increment and decrease only touch quantities, so both invariants
      carry over. */
  lemma IncreaseInvariants(t: Table, ctx: Context, id: string, q: int)
    ensures OnePerOwner(t) ==> OnePerOwner(Increase(t, ctx, id, q))
    ensures WellFormed(t) ==> WellFormed(Increase(t, ctx, id, q))
  {
    IncrementWhereSpec(t, ItemScope(ctx, id), q);
    if OnePerOwner(t) {
      SameKeysOnePerOwner(t, Increase(t, ctx, id, q));
    }
  }

  lemma DecreaseInvariants(t: Table, ctx: Context, id: string, q: int)
    ensures OnePerOwner(t) ==> OnePerOwner(Decrease(t, ctx, id, q))
    ensures WellFormed(t) ==> WellFormed(Decrease(t, ctx, id, q))
  {
    if OnePerOwner(t) {
      SameKeysOnePerOwner(t, Decrease(t, ctx, id, q));
    }
  }

  /** Row remove: deletes exactly the rows matching (sid, Auth::id(), id);
      every other row keeps its multiplicity; an absent id is a no-op. */
  lemma RemoveSpec(t: Table, ctx: Context, id: string)
    ensures forall r :: multiset(Remove(t, ctx, id))[r] ==
                        (if InCartScope(r, ctx) && r.itemId == id then 0 else multiset(t)[r])
    ensures (forall j :: 0 <= j < |t| ==> !(InCartScope(t[j], ctx) && t[j].itemId == id)) ==>
      Remove(t, ctx, id) == t
  {
    DeleteWhereSpec(t, ItemScope(ctx, id));
    if forall j :: 0 <= j < |t| ==> !(InCartScope(t[j], ctx) && t[j].itemId == id) {
      DeleteNothing(t, ItemScope(ctx, id));
    }
  }

  /** Row increase: every row matching (sid, Auth::id(), id) gains q, every
      other row is unchanged; an absent id is a no-op. */
  lemma IncreaseSpec(t: Table, ctx: Context, id: string, q: int)
    ensures |Increase(t, ctx, id, q)| == |t|
    ensures forall i :: 0 <= i < |t| ==>
                        Increase(t, ctx, id, q)[i] ==
                        (if InCartScope(t[i], ctx) && t[i].itemId == id then t[i].(quantity := t[i].quantity + q) else t[i])
    ensures (forall j :: 0 <= j < |t| ==> !(InCartScope(t[j], ctx) && t[j].itemId == id)) ==>
      Increase(t, ctx, id, q) == t
  {
    IncrementWhereSpec(t, ItemScope(ctx, id), q);
  }

  /** Row decrease: the first row matching (sid, Auth::id(), id) gets
      quantity max(1, old - q), so at least one; no row is deleted, no other
      row changes; an absent id is a no-op. */
  lemma DecreaseSpec(t: Table, ctx: Context, id: string, q: int)
    ensures |Decrease(t, ctx, id, q)| == |t|
    ensures (forall j :: 0 <= j < |t| ==> !(InCartScope(t[j], ctx) && t[j].itemId == id)) ==>
      Decrease(t, ctx, id, q) == t
    ensures forall k ::
              (0 <= k < |t| && InCartScope(t[k], ctx) && t[k].itemId == id &&
               forall j :: 0 <= j < k ==> !(InCartScope(t[j], ctx) && t[j].itemId == id)) ==>
              (&& Decrease(t, ctx, id, q)[k] == t[k].(quantity := Max(1, t[k].quantity - q))
               && Decrease(t, ctx, id, q)[k].quantity >= 1
               && forall j :: 0 <= j < |t| && j != k ==> Decrease(t, ctx, id, q)[j] == t[j])
  {
  }

  /** Clear deletes every row in cart scope and no other; afterwards the
      cart scope reads as empty. */
  lemma ClearSpec(t: Table, ctx: Context)
    ensures forall r :: multiset(Clear(t, ctx))[r] == if InCartScope(r, ctx) then 0 else multiset(t)[r]
    ensures ScopeItems(Clear(t, ctx), ctx) == []
  {
    DeleteWhereSpec(t, CartScope(ctx));
    NoScopeRows(Clear(t, ctx), ctx);
  }

  lemma {:induction false} NoScopeRows(t: Table, ctx: Context)
    requires forall r :: r in t ==> !InCartScope(r, ctx)
    ensures ScopeItems(t, ctx) == []
  {
    if t != [] {
      assert t[0] in t;
      assert forall r :: r in t[1..] ==> r in t;
      NoScopeRows(t[1..], ctx);
    }
  }

  /** For an authenticated user the row add creates has a null session_id,
      so it lies outside the read scope of every later operation. */
  lemma AuthenticatedNewRowOutOfScope(ctx: Context, item: Item)
    requires ctx.user.Some?
    ensures NewRow(ctx, item).sessionId.None?
    ensures !InCartScope(NewRow(ctx, item), ctx)
    ensures !Matches(NewRow(ctx, item), ItemScope(ctx, item.id))
  {
  }

  /** On a well-formed table the read scope of an authenticated user is
      empty: getDatabaseItems never sees any row of such a user. */
  lemma AuthenticatedScopeEmpty(t: Table, ctx: Context)
    requires ctx.user.Some? && WellFormed(t)
    ensures ScopeItems(t, ctx) == []
  {
    forall r | r in t ensures !InCartScope(r, ctx) {
      var i :| 0 <= i < |t| && t[i] == r;
    }
    NoScopeRows(t, ctx);
  }

  /** For a guest the add filter and the item filter coincide, and the row
      add creates is in the read scope. */
  lemma GuestScopesAgree(r: Row, ctx: Context, item: Item)
    requires ctx.user.None?
    ensures Matches(r, AddScope(ctx, item.id)) <==> Matches(r, ItemScope(ctx, item.id))
    ensures InCartScope(NewRow(ctx, item), ctx)
  {
  }

  lemma {:induction false} ScopeItemsAppend(t: Table, ctx: Context, r: Row)
    ensures ScopeItems(t + [r], ctx) == ScopeItems(t, ctx) + (if InCartScope(r, ctx) then [ItemOf(r)] else [])
  {
    if t == [] {
      assert [] + [r] == [r];
    } else {
      assert (t + [r])[1..] == t[1..] + [r];
      ScopeItemsAppend(t[1..], ctx, r);
    }
  }

  /** Replacing an in-scope row by another in-scope row changes the folds
      over the read scope by the difference of the two rows. */
  lemma {:induction false} ScopeFoldsUpdate(t: Table, ctx: Context, k: nat, x: Row)
    requires k < |t| && InCartScope(t[k], ctx) && InCartScope(x, ctx)
    ensures CountOf(ScopeItems(t[k := x], ctx)) == CountOf(ScopeItems(t, ctx)) - t[k].quantity + x.quantity
    ensures TotalOf(ScopeItems(t[k := x], ctx)) ==
      TotalOf(ScopeItems(t, ctx)) - LineTotal(ItemOf(t[k])) + LineTotal(ItemOf(x))
  {
    if k == 0 {
      assert t[k := x][1..] == t[1..];
    } else {
      assert t[k := x][1..] == t[1..][k - 1 := x];
      ScopeFoldsUpdate(t[1..], ctx, k - 1, x);
    }
    var u := t[k := x];
    FoldsAppend(if InCartScope(t[0], ctx) then [ItemOf(t[0])] else [], ScopeItems(t[1..], ctx));
    FoldsAppend(if InCartScope(u[0], ctx) then [ItemOf(u[0])] else [], ScopeItems(u[1..], ctx));
  }

  /** For a guest, a row add raises the count the database read gives by q,
      whether it merges or appends. */
  lemma GuestAddCount(t: Table, ctx: Context, item: Item)
    requires ctx.user.None?
    ensures CountOf(ScopeItems(Add(t, ctx, item), ctx)) == CountOf(ScopeItems(t, ctx)) + item.quantity
  {
    var k := FirstMatch(t, AddScope(ctx, item.id));
    if k < |t| {
      ScopeFoldsUpdate(t, ctx, k, Merged(t[k], item));
    } else {
      ScopeItemsAppend(t, ctx, NewRow(ctx, item));
      FoldsAppend(ScopeItems(t, ctx), [ItemOf(NewRow(ctx, item))]);
    }
  }
}
