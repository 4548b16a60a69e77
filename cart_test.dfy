/** The package's feature scenarios as verified client methods of the model:
    a guest with the default 'both' driver, the cart cleared before each
    scenario. A last scenario shows the authenticated 'database' path. */
module CartTest {
  import opened Items
  import SessionCart
  import RowTable
  import Driver
  import LaravelCart

  /** A fresh guest request with the default driver, after Cart::clear(). */
  method GuestCart() returns (cart: LaravelCart.CartManager)
    ensures fresh(cart) && cart.Valid()
    ensures cart.driver == Some("both") && cart.ctx.user.None?
    ensures cart.Blob() == [] && cart.rows == []
  {
    cart := new LaravelCart.CartManager(Some("both"), "shopping_cart",
                                        RowTable.Context("guest-session", None), map[], []);
    cart.Clear();
  }

  // Small facts about one- and two-entry blobs that the scenarios step through.

  lemma AddToEmpty(x: Item)
    ensures SessionCart.Add([], x) == [x]
  {
  }

  lemma AddSecond(x: Item, y: Item)
    requires x.id != y.id
    ensures SessionCart.Add([x], y) == [x, y]
  {
    assert SessionCart.IndexOf([x], y.id) == 1;
  }

  lemma RemoveFirst(x: Item, y: Item)
    requires x.id != y.id
    ensures SessionCart.Remove([x, y], x.id) == [y]
  {
    assert [x, y][1..] == [y] && [y][1..] == [];
  }

  lemma IncreaseOnly(x: Item, q: int)
    ensures SessionCart.Increase([x], x.id, q) == [x.(quantity := x.quantity + q)]
  {
  }

  lemma DecreaseOnly(x: Item, q: int)
    ensures SessionCart.Decrease([x], x.id, q) == [x.(quantity := Max(1, x.quantity - q))]
  {
  }

  method CanAddItems() returns (count: int, total: real)
    ensures count == 2 && total == 21.98
  {
    var cart := GuestCart();
    var p1 := Item("1", "Product 1", 10.99, 2, map[]);
    cart.Add("1", "Product 1", 10.99, 2);
    AddToEmpty(p1);
    assert cart.Blob() == [p1];
    Driver.AllItemsSpec(cart.driver, cart.ctx, cart.Blob(), cart.rows);
    SingletonFolds(p1);
    count, total := cart.Count(), cart.Total();
  }

  method CanRemoveItems() returns (count: int, total: real)
    ensures count == 1 && total == 5.99
  {
    var cart := GuestCart();
    var p1 := Item("1", "Product 1", 10.99, 2, map[]);
    var p2 := Item("2", "Product 2", 5.99, 1, map[]);
    cart.Add("1", "Product 1", 10.99, 2);
    AddToEmpty(p1);
    assert cart.Blob() == [p1];
    cart.Add("2", "Product 2", 5.99, 1);
    AddSecond(p1, p2);
    assert cart.Blob() == [p1, p2];
    cart.Remove("1");
    RemoveFirst(p1, p2);
    assert cart.Blob() == [p2];
    Driver.AllItemsSpec(cart.driver, cart.ctx, cart.Blob(), cart.rows);
    SingletonFolds(p2);
    count, total := cart.Count(), cart.Total();
  }

  method CanIncreaseItemQuantity() returns (count: int)
    ensures count == 3
  {
    var cart := GuestCart();
    var p1 := Item("1", "Product 1", 10.99, 1, map[]);
    cart.Add("1", "Product 1", 10.99, 1);
    AddToEmpty(p1);
    assert cart.Blob() == [p1];
    cart.Increase("1", 2);
    IncreaseOnly(p1, 2);
    assert cart.Blob() == [p1.(quantity := 3)];
    Driver.AllItemsSpec(cart.driver, cart.ctx, cart.Blob(), cart.rows);
    SingletonFolds(p1.(quantity := 3));
    count := cart.Count();
  }

  method CanDecreaseItemQuantity() returns (count: int)
    ensures count == 3
  {
    var cart := GuestCart();
    var p1 := Item("1", "Product 1", 10.99, 5, map[]);
    cart.Add("1", "Product 1", 10.99, 5);
    AddToEmpty(p1);
    assert cart.Blob() == [p1];
    cart.Decrease("1", 2);
    DecreaseOnly(p1, 2);
    assert cart.Blob() == [p1.(quantity := 3)];
    Driver.AllItemsSpec(cart.driver, cart.ctx, cart.Blob(), cart.rows);
    SingletonFolds(p1.(quantity := 3));
    count := cart.Count();
  }

  method CanClearAllItems() returns (count: int, total: real)
    ensures count == 0 && total == 0.0
  {
    var cart := GuestCart();
    cart.Add("1", "Product 1", 10.99, 2);
    cart.Add("2", "Product 2", 5.99, 1);
    cart.Clear();
    assert !Driver.ReadsDatabase(cart.driver, cart.ctx);
    count, total := cart.Count(), cart.Total();
  }

  method CanGetAllItems() returns (n: nat)
    ensures n == 2
  {
    var cart := GuestCart();
    var p1 := Item("1", "Product 1", 10.99, 2, map[]);
    var p2 := Item("2", "Product 2", 5.99, 1, map[]);
    cart.Add("1", "Product 1", 10.99, 2);
    AddToEmpty(p1);
    assert cart.Blob() == [p1];
    cart.Add("2", "Product 2", 5.99, 1);
    AddSecond(p1, p2);
    assert cart.Blob() == [p1, p2];
    Driver.AllItemsSpec(cart.driver, cart.ctx, cart.Blob(), cart.rows);
    n := |cart.All()|;
  }

  /** An authenticated user on the 'database' driver: add writes a row with a
      null session_id, which the read filter never selects, so the cart reads
      as empty right after the add. */
  method AuthenticatedDatabaseAdd() returns (count: int, rows: nat)
    ensures count == 0 && rows == 1
  {
    var cart := new LaravelCart.CartManager(Some("database"), "shopping_cart",
                                            RowTable.Context("user-session", Some(7)), map[], []);
    cart.Add("1", "Product 1", 10.99, 2);
    assert cart.rows == [RowTable.NewRow(cart.ctx, Item("1", "Product 1", 10.99, 2, map[]))];
    Driver.AuthenticatedReadsNothing(cart.driver, cart.ctx, cart.Blob(), cart.rows);
    count, rows := cart.Count(), |cart.rows|;
  }
}
