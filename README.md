# Shopping cart manager (hnooz/laravel-shopping-cart), modelled in Dafny

`CartManager` keeps a shopping cart of line items `{id, name, price,
quantity, options}` keyed by item id, and offers `add`, `remove`,
`increase`, `decrease`, `clear`, `all`, `count` and `total`. It can store
the cart in two places:

- the **session store**: one PHP array under the configured session key,
  mapping each item id to its item record. `add` and `remove` read the
  array, change it and put it back. `increase` and `decrease` put it back
  only when the id is present, and `clear` forgets the key without reading
  it;
- a **row table** `{session_id, user_id, item_id, name, price, quantity,
  options}`: every operation filters the table by a where-clause, then
  inserts, increments, updates or deletes rows.

The configured `driver` string picks the stores that are written
(`session` and `both` write the session, `database` and `both` write rows,
any other value writes nothing) and the store that `all()` reads
(`session`: the session; `database`: rows; otherwise rows exactly when a
user is authenticated, else the session). `count()` is the sum of the
quantities and `total()` the sum of price times quantity over `all()`.

## How the model is built

- `items.dfy` (module `Items`): the item record, `Max`, and the two folds
  `CountOf` and `TotalOf`, with lemmas relating them to appending and to
  replacing one item.
- `session_cart.dfy` (module `SessionCart`): the session blob as a
  sequence of items with pairwise distinct ids. A PHP array keeps its keys
  in insertion order, so `all()` on the session path returns the blob in
  that order. Each session helper's read-modify-write is a function of the
  old blob (`Add`, `Remove`, `Increase`, `Decrease`). Lemmas state the
  effect on `Lookup` of the touched id and of every other id, the kept key
  uniqueness, and the change in count and in total.
- `row_table.dfy` (module `RowTable`): the row table as a sequence in
  insertion order. `first()` is the earliest matching row. The three
  where-clauses of the source are kept exactly as written, as the `Filter`
  datatype:
  - `AddScope` is used by `addToDatabase`. It checks `item_id`, plus
    `user_id = uid` when authenticated, or `session_id = sid AND user_id IS
    NULL` for a guest.
  - `ItemScope` and `CartScope` are used by every other row operation. They
    check `session_id = sid AND user_id = Auth::id()`, where a null user id
    is an IS NULL test.
- `driver.dfy` (module `Driver`): `ShouldUseSession`, `ShouldUseDatabase`,
  the store choice of `all()` (`ReadsDatabase`, `AllItems`) and lemmas
  about them.
- `cart_manager.dfy` (module `LaravelCart`): class `CartManager`.
  - Fields: the driver, the session key and the request context, all
    `const`. The session store is a mutable field `session: map<string,
    Blob>`, and the row table is a mutable field `rows`.
  - Every public operation and every helper is a method. Its `modifies`
    clause names the fields it writes. Its `ensures` give the new session
    store and table as the `SessionCart`/`RowTable` function of the old
    ones. They also state that the table invariants are preserved.
  - `All`, `Count` and `Total` are functions over the fields.
- `cart_test.dfy` (module `CartTest`): the package's feature tests as
  client methods. Each one is a guest with the `both` driver, and each one
  starts from a cleared cart. The last method shows the authenticated
  `database` path.

Ambient state becomes explicit. `$this->session->getId()`, `Auth::check()`
and `Auth::id()` become the `Context` value (session id, optional user id)
that the manager holds. The framework session store becomes the `session`
map, and the query builder becomes the row functions.

Two table invariants are proved preserved by every operation:
- `OnePerOwner`: at most one row per (owner, item id). The owner is the
  user for a row with a user id, else the session.
- `WellFormed`: exactly one of `session_id` and `user_id` is set.

Behaviour the model keeps as written and proves:
- Session `add` on an existing id only bumps the quantity. It keeps the
  stored name, price and options (`SessionCart.AddSpec`,
  `SessionCart.AddFolds`).
- Row `add` on a matching row overwrites name, price and options
  (`RowTable.AddSpec`).
- For an authenticated user, `add` creates rows with a null `session_id`.
  Every other row operation filters on `session_id = sid`, so `remove`,
  `increase`, `decrease`, `clear` and `all` never see those rows. On a
  well-formed table the authenticated read scope is always empty
  (`RowTable.AuthenticatedScopeEmpty`, `Driver.AuthenticatedReadsNothing`,
  `CartTest.AuthenticatedDatabaseAdd`). The code is modelled as written
  here.

## Model

| member | source | states |
|---|---|---|
| `Items.Max` | src/CartManager.php:206 | the result is the larger of the two integers, as PHP `max` on ints |
| `Items.CountOf` | src/CartManager.php:95-98 | count(): the sum of the quantities over the item list; its properties are `EmptyFolds`, `SingletonFolds`, `FoldsAppend` and `FoldsUpdate` |
| `Items.TotalOf` | src/CartManager.php:100-105 | total(): the sum of price × quantity over the item list; its properties are `EmptyFolds`, `SingletonFolds`, `FoldsAppend` and `FoldsUpdate` |
| `Items.LineTotal` | src/CartManager.php:104 | one line's share of total(): price × quantity; `SingletonFolds` and `FoldsUpdate` state the folds in terms of it |
| `Items.EmptyFolds` | src/CartManager.php:95-105 | an empty item list counts 0 and totals 0 |
| `Items.SingletonFolds` | src/CartManager.php:95-105 | a one-item list counts its quantity and totals price × quantity |
| `Items.FoldsAppend` | src/CartManager.php:95-105 | count and total (sums over the item list) distribute over concatenation |
| `Items.FoldsUpdate` | src/CartManager.php:95-105 | replacing one item changes count and total by the difference of that item's quantity and line total |
| `SessionCart.IndexOf` | src/CartManager.php:121 | the position found is the first entry with that id, or the end when `isset` fails |
| `SessionCart.Lookup` | src/CartManager.php:187 | absent exactly when no entry has the id; a found entry is in the blob and has the id |
| `SessionCart.Add` | src/CartManager.php:117-128 | the length stays the same exactly when the id is already present, and otherwise the item is appended to the end; the per-id effect is in `AddSpec`, the count and total in `AddFolds` |
| `SessionCart.Remove` | src/CartManager.php:168-173 | no entry with the id is left and the blob does not grow; what is kept is in `RemoveKeeps`, `RemoveAbsent`, `RemoveOther` and `RemoveSpec` |
| `SessionCart.Increase` | src/CartManager.php:183-191 | the same ids in the same order as before; the quantities are in `IncreaseSpec` and `IncreaseFolds` |
| `SessionCart.Decrease` | src/CartManager.php:201-209 | the same ids in the same order as before; the clamped quantity is in `DecreaseSpec` and `DecreaseFolds` |
| `SessionCart.AddSpec` | src/CartManager.php:117-128 | a new id is inserted exactly as given; an existing id gets quantity old + q and keeps its old name, price and options; every other id is unchanged; keys stay unique |
| `SessionCart.AddFolds` | src/CartManager.php:117-128 | session add raises the count by q in both branches, and the total by q × the price that stays stored (old price on merge, new price on insert) |
| `SessionCart.IncreaseSpec` | src/CartManager.php:183-191 | a present id gets quantity old + q; an absent id leaves the blob identical; other ids unchanged; keys stay unique |
| `SessionCart.IncreaseFolds` | src/CartManager.php:183-191 | the count rises by q, and the total by q × the stored price, exactly when the id is present; both are unchanged otherwise |
| `SessionCart.DecreaseSpec` | src/CartManager.php:201-209 | a present id gets quantity max(1, old − q) and remains, with quantity at least 1; an absent id leaves the blob identical; other ids unchanged |
| `SessionCart.DecreaseFolds` | src/CartManager.php:201-209 | the count drops by old − max(1, old − q) for a present id, and the total by that amount × the stored price; both are unchanged otherwise |
| `SessionCart.RemoveKeeps` | src/CartManager.php:168-173 | the result holds exactly the entries whose id differs; keys stay unique |
| `SessionCart.RemoveAbsent` | src/CartManager.php:168-173 | removing an absent id gives back the same blob |
| `SessionCart.RemoveOther` | src/CartManager.php:168-173 | removing one id does not change the lookup of any other id |
| `SessionCart.RemoveFolds` | src/CartManager.php:168-173 | count and total drop by exactly the removed entry's quantity and line total |
| `SessionCart.RemoveSpec` | src/CartManager.php:168-173 | after remove the id is absent, other ids unchanged, absent id is a no-op, keys unique, count drops by the removed quantity |
| `RowTable.FirstMatch` | src/CartManager.php:213-216 | `first()` is the earliest row matching the filter, or none |
| `RowTable.InCartScope` | src/CartManager.php:233-234 | a row is in the cart scope when its session id is the current one and its user id equals Auth::id(), a null user id being an IS NULL test (also :177-178, :195-196, :213-214, :226-227); `ClearSpec`, `NoScopeRows` and `AuthenticatedScopeEmpty` state what it selects |
| `RowTable.Matches` | src/CartManager.php:133-142 | the three where-clauses as written: the add filter here, the item filter of :177-179, :195-197 and :213-215, and the cart filter of :226-227 and :233-234; `AddScopeIsOwnerKey` and `GuestScopesAgree` state what they select |
| `RowTable.NewRow` | src/CartManager.php:156-164 | the created row: a null session_id when authenticated, else the session id, the user id and the item's columns; `AuthenticatedNewRowOutOfScope`, `GuestScopesAgree` and `AddSpec` state where it lands |
| `RowTable.Merged` | src/CartManager.php:148-153 | the matched row after increment('quantity', q) and update of name, price and options; `AddSpec` states it is the only change |
| `RowTable.ItemOf` | src/CartManager.php:236-242 | the item record getDatabaseItems builds from a row; `ScopeItemsAppend` and `ScopeFoldsUpdate` state the read in terms of it |
| `RowTable.Add` | src/CartManager.php:130-166 | the table grows by at most one row, a grown table keeps the old rows as its prefix, and afterwards some row matches the add filter; the full effect is in `AddSpec`, `AddOnePerOwner` and `AddWellFormed` |
| `RowTable.DeleteWhere` | src/CartManager.php:177-180 | a filtered delete leaves no matching row and never grows the table; what it keeps is in `DeleteWhereSpec` and `DeleteNothing` |
| `RowTable.IncrementWhere` | src/CartManager.php:195-198 | a filtered increment keeps the number of rows; the per-row effect is in `IncrementWhereSpec` |
| `RowTable.Remove` | src/CartManager.php:175-181 | no row in (sid, Auth::id()) scope with the item id is left and the table does not grow; the full effect is in `RemoveSpec` |
| `RowTable.Increase` | src/CartManager.php:193-199 | row increase keeps the number of rows; the full effect is in `IncreaseSpec` |
| `RowTable.Decrease` | src/CartManager.php:211-222 | row decrease keeps the number of rows and changes no row outside the item filter; the clamp is in `DecreaseSpec` |
| `RowTable.Clear` | src/CartManager.php:224-229 | no row in (sid, Auth::id()) scope is left and the table does not grow; the full effect is in `ClearSpec` |
| `RowTable.ScopeItems` | src/CartManager.php:231-243 | the read has at most as many items as the table has rows, and every in-scope row shows up as its item; see also `ScopeItemsAppend`, `NoScopeRows` and `AuthenticatedScopeEmpty` |
| `RowTable.AddScopeIsOwnerKey` | src/CartManager.php:133-142 | the add filter selects exactly the rows of the caller's (owner, item id) key |
| `RowTable.AddSpec` | src/CartManager.php:144-165 | with a match, the first matching row gets quantity + q and new name, price, options, no other row changes, and under OnePerOwner it is the only match; without one, exactly one row is appended with session_id = sid for a guest and null when authenticated |
| `RowTable.AddOnePerOwner` | src/CartManager.php:130-166 | add keeps at most one row per (owner, item id) |
| `RowTable.AddWellFormed` | src/CartManager.php:156-164 | add keeps exactly one of session_id/user_id set on every row |
| `RowTable.DeleteWhereSpec` | src/CartManager.php:177-180 | a filtered delete removes every matching row and keeps every other row with its multiplicity |
| `RowTable.DeleteNothing` | src/CartManager.php:177-180 | a delete matching no row leaves the table as it was |
| `RowTable.DeleteWhereInvariants` | src/CartManager.php:224-229 | a filtered delete keeps OnePerOwner and WellFormed |
| `RowTable.IncrementWhereSpec` | src/CartManager.php:195-198 | a filtered increment adds q to every matching row and leaves every other row unchanged |
| `RowTable.IncreaseInvariants` | src/CartManager.php:193-199 | row increase keeps OnePerOwner and WellFormed |
| `RowTable.DecreaseInvariants` | src/CartManager.php:211-222 | row decrease keeps OnePerOwner and WellFormed |
| `RowTable.RemoveSpec` | src/CartManager.php:175-181 | row remove deletes exactly the rows matching (sid, Auth::id(), id), keeps all others, and is a no-op when none match |
| `RowTable.IncreaseSpec` | src/CartManager.php:193-199 | row increase adds q to every row matching (sid, Auth::id(), id), changes no other row, and is a no-op when none match |
| `RowTable.DecreaseSpec` | src/CartManager.php:211-222 | row decrease sets the first matching row to max(1, old − q) (at least 1), changes no other row, deletes nothing, and is a no-op when none match |
| `RowTable.ClearSpec` | src/CartManager.php:224-229 | clear deletes exactly the rows in (sid, Auth::id()) scope; afterwards the read scope is empty |
| `RowTable.NoScopeRows` | src/CartManager.php:231-243 | a table with no row in scope reads as no items |
| `RowTable.AuthenticatedNewRowOutOfScope` | src/CartManager.php:156-158 | for an authenticated user the created row has null session_id, so it is outside the read and item filters |
| `RowTable.AuthenticatedScopeEmpty` | src/CartManager.php:231-243 | with an authenticated user and a well-formed table, getDatabaseItems reads no items |
| `RowTable.GuestScopesAgree` | src/CartManager.php:133-142 | for a guest the add filter and the item filter select the same rows, and the created row is in the read scope |
| `RowTable.ScopeItemsAppend` | src/CartManager.php:231-243 | appending a row adds its item to the read exactly when it is in scope |
| `RowTable.ScopeFoldsUpdate` | src/CartManager.php:231-243 | replacing an in-scope row by an in-scope row changes count and total of the read by the difference |
| `RowTable.GuestAddCount` | src/CartManager.php:130-166 | for a guest, row add raises the count read from rows by q, in both branches |
| `Driver.ShouldUseSession` | src/CartManager.php:107-110 | true for 'session' and 'both' only; the dispatch table is `DispatchSpec` |
| `Driver.ShouldUseDatabase` | src/CartManager.php:112-115 | true for 'database' and 'both' only; the dispatch table is `DispatchSpec` |
| `Driver.ReadsDatabase` | src/CartManager.php:77-93 | the store choice of all(): rows for 'database', the session for 'session', otherwise rows iff authenticated; stated in `AllItemsSpec` |
| `Driver.AllItems` | src/CartManager.php:77-93 | all() as the session blob or the in-scope row items; stated in `AllItemsSpec`, `ClearedSessionIsEmpty` and `AuthenticatedReadsNothing` |
| `Driver.DispatchSpec` | src/CartManager.php:107-115 | both stores for 'both', only the session for 'session', only rows for 'database', neither for any other value |
| `Driver.AllItemsSpec` | src/CartManager.php:77-93 | all() reads the session for 'session', rows for 'database', otherwise rows iff authenticated, else the session |
| `Driver.ClearedSessionIsEmpty` | src/CartManager.php:66-75 | on the session read path a cleared cart gives all() == [], count 0, total 0 |
| `Driver.AuthenticatedReadsNothing` | src/CartManager.php:87-90 | for an authenticated user on a driver other than 'session', all() is empty and count and total are 0 on a well-formed table, whatever the session holds |
| `LaravelCart.CartManager.constructor` | src/CartManager.php:12 | the manager holds the given driver, session key, context, session store and table |
| `LaravelCart.CartManager.Blob` | src/CartManager.php:119 | the session get with default []: the value under the session key, or the empty cart when the key is absent |
| `LaravelCart.CartManager.Valid` | src/CartManager.php:119 | the blob read from the session is a PHP array written by this class, so its keys are unique; every mutator keeps it, as its `ensures` state |
| `LaravelCart.CartManager.All` | src/CartManager.php:77-93 | all() over the manager's fields, by `Driver.AllItems`; its properties are `Driver.AllItemsSpec`, `Driver.ClearedSessionIsEmpty` and `Driver.AuthenticatedReadsNothing` |
| `LaravelCart.CartManager.Count` | src/CartManager.php:95-98 | count() as `Items.CountOf` of all(); zero after clear on the session read path (`Driver.ClearedSessionIsEmpty`) and zero for an authenticated rows read (`Driver.AuthenticatedReadsNothing`) |
| `LaravelCart.CartManager.Total` | src/CartManager.php:100-105 | total() as `Items.TotalOf` of all(); zero in the same two cases as `Count` |
| `LaravelCart.CartManager.Add` | src/CartManager.php:14-31 | quantity defaults to 1 and options to the empty array; the session becomes the session add of the old blob iff the driver uses the session; rows become the row add of the old table iff it uses the database; the invariants are kept |
| `LaravelCart.CartManager.Remove` | src/CartManager.php:33-42 | dispatches to the session and/or row remove; on the session path the id is absent afterwards |
| `LaravelCart.CartManager.Increase` | src/CartManager.php:44-53 | quantity defaults to 1; dispatches to the session and/or row increase; the session is rewritten only when the id is present |
| `LaravelCart.CartManager.Decrease` | src/CartManager.php:55-64 | quantity defaults to 1; dispatches to the session and/or row decrease; a present session entry stays, with quantity at least 1 |
| `LaravelCart.CartManager.Clear` | src/CartManager.php:66-75 | forgets the session key and/or deletes the in-scope rows; on the session read path all(), count and total are then empty/0 |
| `LaravelCart.CartManager.AddToSession` | src/CartManager.php:117-128 | writes back the merged or extended blob under the session key; keys stay unique |
| `LaravelCart.CartManager.RemoveFromSession` | src/CartManager.php:168-173 | writes back the blob without the id |
| `LaravelCart.CartManager.IncreaseInSession` | src/CartManager.php:183-191 | writes back the increased blob only when the id is present, else the session is untouched |
| `LaravelCart.CartManager.DecreaseInSession` | src/CartManager.php:201-209 | writes back the clamped blob only when the id is present, else the session is untouched; a present entry ends with quantity at least 1 |
| `LaravelCart.CartManager.AddToDatabase` | src/CartManager.php:130-166 | the table becomes the row add of the old table; OnePerOwner and WellFormed kept |
| `LaravelCart.CartManager.RemoveFromDatabase` | src/CartManager.php:175-181 | the table becomes the filtered delete of the old table; invariants kept |
| `LaravelCart.CartManager.IncreaseInDatabase` | src/CartManager.php:193-199 | the table becomes the filtered increment of the old table; invariants kept |
| `LaravelCart.CartManager.DecreaseInDatabase` | src/CartManager.php:211-222 | the table becomes the first-row clamp of the old table; invariants kept |
| `LaravelCart.CartManager.ClearDatabase` | src/CartManager.php:224-229 | the table loses its in-scope rows and the read scope is empty afterwards; invariants kept |
| `CartTest.GuestCart` | tests/Feature/CartTest.php:5-7 | a guest manager on the 'both' driver after clear() has an empty blob and table |
| `CartTest.CanAddItems` | tests/Feature/CartTest.php:9-14 | add('1', 10.99, 2) gives count 2 and total 21.98 |
| `CartTest.CanRemoveItems` | tests/Feature/CartTest.php:16-24 | after adding two items and removing '1', count 1 and total 5.99 |
| `CartTest.CanIncreaseItemQuantity` | tests/Feature/CartTest.php:26-31 | add 1 then increase 2 gives count 3 |
| `CartTest.CanDecreaseItemQuantity` | tests/Feature/CartTest.php:33-38 | add 5 then decrease 2 gives count 3 |
| `CartTest.CanClearAllItems` | tests/Feature/CartTest.php:40-48 | after clear, count 0 and total 0 |
| `CartTest.CanGetAllItems` | tests/Feature/CartTest.php:50-55 | two distinct adds give all() of length 2 |
| `CartTest.AuthenticatedDatabaseAdd` | src/CartManager.php:156-158 | with the 'database' driver and an authenticated user, add stores one row yet count() is 0 |

## Left out

- Floating point: prices and totals are exact reals, so `total()` is exact (for example 10.99 × 2 is exactly 21.98). PHP integer overflow into floats is not modelled either: quantities are unbounded integers.
- Input validation: none exists in the source, and the model adds none. Negative quantities and prices pass through unchanged.
- Concurrency: lost updates between the find and the write steps of `add` and `decrease` are not modelled. Each call runs to completion on its own.
- Framework collaborators: the session manager, `Auth`, the query builder and persistence are replaced by the `session` map, the `Context` value and the row functions. Backend failures are not modelled.
- Row order: the database returns rows in no promised order. The model fixes that order to insertion order, so `first()` is the earliest matching row and `get()` returns rows in table order.
- Row details: auto-increment ids and timestamps are not modelled. Neither are the column casts (price as a decimal, options as JSON) or Eloquent mass-assignment rules. The table stores exactly the columns `CartManager` writes.
- The session key is a plain string. A null session key, which the framework would read as "the whole session", is not modelled.
- Item options are modelled as a map from strings to strings. A PHP array can also have integer keys, nested values and an order of its own. The model only stores and copies options, so nothing it proves depends on their shape.
- The session blob is assumed to be an array written by this class, so its keys are its items' ids and are unique (`CartManager.Valid`).
- The request context is fixed for a manager's lifetime. Logging in or out between calls, and moving a guest cart to a user, are not modelled. The source has neither.
- src/Contracts/CartInterface.php holds signatures only. src/CartServiceProvider.php, src/Facades/Cart.php, src/Models/Cart.php and src/Models/CartItem.php are framework wiring and ORM declarations with no cart logic. tests/TestCase.php is test bootstrap code. None of these is part of this model.
