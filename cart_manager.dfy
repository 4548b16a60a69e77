/** CartManager: the cart facade over the session store and the row table.
    The session store maps session keys to values; the cart is the blob
    under `sessionKey`. The request context (session id and authenticated
    user) is fixed for the manager's lifetime, standing in for the ambient
    `$this->session->getId()`, `Auth::check()` and `Auth::id()`. */
module LaravelCart {
  import opened Items
  import SessionCart
  import RowTable
  import Driver

  class CartManager {
    const driver: Option<string>
    const sessionKey: string
    const ctx: RowTable.Context
    var session: map<string, SessionCart.Blob>
    var rows: RowTable.Table

    /** The cart blob: the value under the session key, or the empty cart
        when the key is absent. */
    function Blob(): SessionCart.Blob
      reads this
    {
      if sessionKey in session then session[sessionKey] else []
    }

    /** The cart blob is a PHP array: its keys are unique. */
    ghost predicate Valid()
      reads this
    {
      SessionCart.UniqueIds(Blob())
    }

    constructor (driver: Option<string>, sessionKey: string, ctx: RowTable.Context,
                 session: map<string, SessionCart.Blob>, rows: RowTable.Table)
      requires sessionKey in session ==> SessionCart.UniqueIds(session[sessionKey])
      ensures Valid()
      ensures this.driver == driver && this.sessionKey == sessionKey && this.ctx == ctx
      ensures this.session == session && this.rows == rows
    {
      this.driver, this.sessionKey, this.ctx := driver, sessionKey, ctx;
      this.session, this.rows := session, rows;
    }

    // -------------------------------------------------------------------
    // Public operations

    method Add(id: string, name: string, price: real, quantity: int := 1, options: Options := map[])
      requires Valid()
      modifies this`session, this`rows
      ensures Valid()
      ensures var item := Item(id, name, price, quantity, options);
              session == if Driver.ShouldUseSession(driver)
                         then old(session)[sessionKey := SessionCart.Add(old(Blob()), item)]
                         else old(session)
      ensures var item := Item(id, name, price, quantity, options);
              rows == if Driver.ShouldUseDatabase(driver)
                      then RowTable.Add(old(rows), ctx, item)
                      else old(rows)
      ensures RowTable.OnePerOwner(old(rows)) ==> RowTable.OnePerOwner(rows)
      ensures RowTable.WellFormed(old(rows)) ==> RowTable.WellFormed(rows)
    {
      var item := Item(id, name, price, quantity, options);
      if Driver.ShouldUseSession(driver) {
        AddToSession(item);
      }
      if Driver.ShouldUseDatabase(driver) {
        AddToDatabase(item);
      }
    }

    method Remove(id: string)
      requires Valid()
      modifies this`session, this`rows
      ensures Valid()
      ensures session == if Driver.ShouldUseSession(driver)
                         then old(session)[sessionKey := SessionCart.Remove(old(Blob()), id)]
                         else old(session)
      ensures rows == if Driver.ShouldUseDatabase(driver)
                      then RowTable.Remove(old(rows), ctx, id)
                      else old(rows)
      ensures Driver.ShouldUseSession(driver) ==> SessionCart.Lookup(Blob(), id).None?
      ensures RowTable.OnePerOwner(old(rows)) ==> RowTable.OnePerOwner(rows)
      ensures RowTable.WellFormed(old(rows)) ==> RowTable.WellFormed(rows)
    {
      if Driver.ShouldUseSession(driver) {
        RemoveFromSession(id);
      }
      if Driver.ShouldUseDatabase(driver) {
        RemoveFromDatabase(id);
      }
    }

    method Increase(id: string, quantity: int := 1)
      requires Valid()
      modifies this`session, this`rows
      ensures Valid()
      ensures session == if Driver.ShouldUseSession(driver) && SessionCart.Lookup(old(Blob()), id).Some?
                         then old(session)[sessionKey := SessionCart.Increase(old(Blob()), id, quantity)]
                         else old(session)
      ensures rows == if Driver.ShouldUseDatabase(driver)
                      then RowTable.Increase(old(rows), ctx, id, quantity)
                      else old(rows)
      ensures RowTable.OnePerOwner(old(rows)) ==> RowTable.OnePerOwner(rows)
      ensures RowTable.WellFormed(old(rows)) ==> RowTable.WellFormed(rows)
    {
      if Driver.ShouldUseSession(driver) {
        IncreaseInSession(id, quantity);
      }
      if Driver.ShouldUseDatabase(driver) {
        IncreaseInDatabase(id, quantity);
      }
    }

    method Decrease(id: string, quantity: int := 1)
      requires Valid()
      modifies this`session, this`rows
      ensures Valid()
      ensures session == if Driver.ShouldUseSession(driver) && SessionCart.Lookup(old(Blob()), id).Some?
                         then old(session)[sessionKey := SessionCart.Decrease(old(Blob()), id, quantity)]
                         else old(session)
      ensures rows == if Driver.ShouldUseDatabase(driver)
                      then RowTable.Decrease(old(rows), ctx, id, quantity)
                      else old(rows)
      ensures SessionCart.Lookup(old(Blob()), id).Some? ==> SessionCart.Lookup(Blob(), id).Some?
      ensures SessionCart.Lookup(old(Blob()), id).Some? && Driver.ShouldUseSession(driver) ==>
              SessionCart.Lookup(Blob(), id).value.quantity >= 1
      ensures RowTable.OnePerOwner(old(rows)) ==> RowTable.OnePerOwner(rows)
      ensures RowTable.WellFormed(old(rows)) ==> RowTable.WellFormed(rows)
    {
      if Driver.ShouldUseSession(driver) {
        DecreaseInSession(id, quantity);
      }
      if Driver.ShouldUseDatabase(driver) {
        DecreaseInDatabase(id, quantity);
      }
    }

    method Clear()
      requires Valid()
      modifies this`session, this`rows
      ensures Valid()
      ensures session == if Driver.ShouldUseSession(driver) then old(session) - {sessionKey} else old(session)
      ensures rows == if Driver.ShouldUseDatabase(driver) then RowTable.Clear(old(rows), ctx) else old(rows)
      ensures Driver.ShouldUseSession(driver) && !Driver.ReadsDatabase(driver, ctx) ==>
              All() == [] && Count() == 0 && Total() == 0.0
      ensures Driver.ShouldUseDatabase(driver) ==> RowTable.ScopeItems(rows, ctx) == []
      ensures RowTable.OnePerOwner(old(rows)) ==> RowTable.OnePerOwner(rows)
      ensures RowTable.WellFormed(old(rows)) ==> RowTable.WellFormed(rows)
    {
      if Driver.ShouldUseSession(driver) {
        session := session - {sessionKey};  // the key is forgotten, not set to []
      }
      if Driver.ShouldUseDatabase(driver) {
        ClearDatabase();
      }
      if Driver.ShouldUseSession(driver) && !Driver.ReadsDatabase(driver, ctx) {
        Driver.ClearedSessionIsEmpty(driver, ctx, rows);
      }
    }

    /** all() */
    function All(): seq<Item>
      reads this
    {
      Driver.AllItems(driver, ctx, Blob(), rows)
    }

    /** count() */
    function Count(): int
      reads this
    {
      CountOf(All())
    }

    /** total() */
    function Total(): real
      reads this
    {
      TotalOf(All())
    }

    // -------------------------------------------------------------------
    // Session helpers: read the blob, change it, put it back

    method AddToSession(item: Item)
      requires Valid()
      modifies this`session
      ensures Valid()
      ensures session == old(session)[sessionKey := SessionCart.Add(old(Blob()), item)]
    {
      var cart := Blob();
      var k := SessionCart.IndexOf(cart, item.id);
      if k < |cart| {
        cart := cart[k := cart[k].(quantity := cart[k].quantity + item.quantity)];
      } else {
        cart := cart + [item];
      }
      SessionCart.AddSpec(Blob(), item);
      session := session[sessionKey := cart];
    }

    method RemoveFromSession(id: string)
      requires Valid()
      modifies this`session
      ensures Valid()
      ensures session == old(session)[sessionKey := SessionCart.Remove(old(Blob()), id)]
      ensures SessionCart.Lookup(Blob(), id).None?
    {
      var cart := Blob();
      SessionCart.RemoveSpec(cart, id);
      cart := SessionCart.Remove(cart, id);
      session := session[sessionKey := cart];
    }

    /** The blob is written back only when the id is present. */
    method IncreaseInSession(id: string, quantity: int)
      requires Valid()
      modifies this`session
      ensures Valid()
      ensures session == if SessionCart.Lookup(old(Blob()), id).Some?
                         then old(session)[sessionKey := SessionCart.Increase(old(Blob()), id, quantity)]
                         else old(session)
    {
      var cart := Blob();
      var k := SessionCart.IndexOf(cart, id);
      if k < |cart| {
        SessionCart.IncreaseSpec(cart, id, quantity);
        cart := cart[k := cart[k].(quantity := cart[k].quantity + quantity)];
        session := session[sessionKey := cart];
      }
    }

    /** The blob is written back only when the id is present. */
    method DecreaseInSession(id: string, quantity: int)
      requires Valid()
      modifies this`session
      ensures Valid()
      ensures session == if SessionCart.Lookup(old(Blob()), id).Some?
                         then old(session)[sessionKey := SessionCart.Decrease(old(Blob()), id, quantity)]
                         else old(session)
      ensures SessionCart.Lookup(old(Blob()), id).Some? ==>
              SessionCart.Lookup(Blob(), id).Some? && SessionCart.Lookup(Blob(), id).value.quantity >= 1
    {
      var cart := Blob();
      var k := SessionCart.IndexOf(cart, id);
      if k < |cart| {
        SessionCart.DecreaseSpec(cart, id, quantity);
        cart := cart[k := cart[k].(quantity := Max(1, cart[k].quantity - quantity))];
        session := session[sessionKey := cart];
      }
    }

    // -------------------------------------------------------------------
    // Database helpers: filter the table, then insert, update or delete

    method AddToDatabase(item: Item)
      modifies this`rows
      ensures rows == RowTable.Add(old(rows), ctx, item)
      ensures RowTable.OnePerOwner(old(rows)) ==> RowTable.OnePerOwner(rows)
      ensures RowTable.WellFormed(old(rows)) ==> RowTable.WellFormed(rows)
    {
      if RowTable.OnePerOwner(rows) {
        RowTable.AddOnePerOwner(rows, ctx, item);
      }
      if RowTable.WellFormed(rows) {
        RowTable.AddWellFormed(rows, ctx, item);
      }
      var k := RowTable.FirstMatch(rows, RowTable.AddScope(ctx, item.id));
      if k < |rows| {
        rows := rows[k := RowTable.Merged(rows[k], item)];
      } else {
        rows := rows + [RowTable.NewRow(ctx, item)];
      }
    }

    method RemoveFromDatabase(id: string)
      modifies this`rows
      ensures rows == RowTable.Remove(old(rows), ctx, id)
      ensures RowTable.OnePerOwner(old(rows)) ==> RowTable.OnePerOwner(rows)
      ensures RowTable.WellFormed(old(rows)) ==> RowTable.WellFormed(rows)
    {
      RowTable.DeleteWhereInvariants(rows, RowTable.ItemScope(ctx, id));
      rows := RowTable.DeleteWhere(rows, RowTable.ItemScope(ctx, id));
    }

    method IncreaseInDatabase(id: string, quantity: int)
      modifies this`rows
      ensures rows == RowTable.Increase(old(rows), ctx, id, quantity)
      ensures RowTable.OnePerOwner(old(rows)) ==> RowTable.OnePerOwner(rows)
      ensures RowTable.WellFormed(old(rows)) ==> RowTable.WellFormed(rows)
    {
      RowTable.IncreaseInvariants(rows, ctx, id, quantity);
      rows := RowTable.IncrementWhere(rows, RowTable.ItemScope(ctx, id), quantity);
    }

    method DecreaseInDatabase(id: string, quantity: int)
      modifies this`rows
      ensures rows == RowTable.Decrease(old(rows), ctx, id, quantity)
      ensures RowTable.OnePerOwner(old(rows)) ==> RowTable.OnePerOwner(rows)
      ensures RowTable.WellFormed(old(rows)) ==> RowTable.WellFormed(rows)
    {
      RowTable.DecreaseInvariants(rows, ctx, id, quantity);
      var k := RowTable.FirstMatch(rows, RowTable.ItemScope(ctx, id));
      if k < |rows| {
        rows := rows[k := rows[k].(quantity := Max(1, rows[k].quantity - quantity))];
      }
    }

    method ClearDatabase()
      modifies this`rows
      ensures rows == RowTable.Clear(old(rows), ctx)
      ensures RowTable.ScopeItems(rows, ctx) == []
      ensures RowTable.OnePerOwner(old(rows)) ==> RowTable.OnePerOwner(rows)
      ensures RowTable.WellFormed(old(rows)) ==> RowTable.WellFormed(rows)
    {
      RowTable.ClearSpec(rows, ctx);
      RowTable.DeleteWhereInvariants(rows, RowTable.CartScope(ctx));
      rows := RowTable.DeleteWhere(rows, RowTable.CartScope(ctx));
    }
  }
}
