/** Line items of a cart and the two folds over a list of them: the item
    count (sum of quantities) and the cart total (sum of price times
    quantity). */
module Items {

  datatype Option<+T> = None | Some(value: T)

  /** The free-form attribute array an item carries (size, colour, ...). */
  type Options = map<string, string>

  /** One cart line as CartManager builds it: id, name, price, quantity,
      options. Price is an exact real (no floating-point rounding) and
      quantity an unbounded integer; neither is validated by the source. */
  datatype Item = Item(id: string, name: string, price: real, quantity: int, options: Options)

  function Max(a: int, b: int): (m: int)
    ensures m >= a && m >= b && (m == a || m == b)
  {
    if a >= b then a else b
  }

  /** The item count: the sum of the quantities of all lines. */
  function CountOf(items: seq<Item>): int
  {
    if items == [] then 0 else items[0].quantity + CountOf(items[1..])
  }

  /** The cart total: the sum over all lines of price times quantity. */
  function TotalOf(items: seq<Item>): real
  {
    if items == [] then 0.0 else LineTotal(items[0]) + TotalOf(items[1..])
  }

  /** One line's contribution to the total: its price times its quantity. */
  function LineTotal(item: Item): real
  {
    item.price * item.quantity as real
  }

  /** The empty cart counts zero items and totals zero. */
  lemma EmptyFolds()
    ensures CountOf([]) == 0 && TotalOf([]) == 0.0
  {
  }

  /** A one-item cart counts that item's quantity and totals its line. */
  lemma SingletonFolds(x: Item)
    ensures CountOf([x]) == x.quantity && TotalOf([x]) == LineTotal(x)
  {
    assert [x][1..] == [];
  }

  /** Both folds distribute over concatenation. */
  lemma {:induction false} FoldsAppend(a: seq<Item>, b: seq<Item>)
    ensures CountOf(a + b) == CountOf(a) + CountOf(b)
    ensures TotalOf(a + b) == TotalOf(a) + TotalOf(b)
  {
    if a == [] {
      assert a + b == b;
    } else {
      assert (a + b)[0] == a[0] && (a + b)[1..] == a[1..] + b;
      FoldsAppend(a[1..], b);
    }
  }

  /** Replacing the item at index k changes each fold by the difference
      between the new and the old item's contribution. */
  lemma {:induction false} FoldsUpdate(items: seq<Item>, k: nat, x: Item)
    requires k < |items|
    ensures CountOf(items[k := x]) == CountOf(items) - items[k].quantity + x.quantity
    ensures TotalOf(items[k := x]) == TotalOf(items) - LineTotal(items[k]) + LineTotal(x)
  {
    if k > 0 {
      assert items[k := x][1..] == items[1..][k - 1 := x];
      FoldsUpdate(items[1..], k - 1, x);
    }
  }
}
