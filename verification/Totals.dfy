/** The stock of one product in many warehouses together. */
module Totals {
  import opened Wrappers
  import opened Tables

  ghost function TotalStock(warehouses: set<int>, stock: map<Key, int>, product: int): int {
    if exists warehouse :: warehouse in warehouses then
      var warehouse :| warehouse in warehouses;
      StockOf(stock, warehouse, product) + TotalStock(warehouses - {warehouse}, stock, product)
    else
      0
  }

  lemma {:induction false} TotalPick(warehouses: set<int>, stock: map<Key, int>, product: int, one: int)
    requires one in warehouses
    ensures TotalStock(warehouses, stock, product)
            == StockOf(stock, one, product) + TotalStock(warehouses - {one}, stock, product)
  {
    var first :| first in warehouses
                 && TotalStock(warehouses, stock, product)
                    == StockOf(stock, first, product) + TotalStock(warehouses - {first}, stock, product);
    if first != one {
      TotalPick(warehouses - {first}, stock, product, one);
      TotalPick(warehouses - {one}, stock, product, first);
      assert warehouses - {first} - {one} == warehouses - {one} - {first};
    }
  }

  /** `amount` for the warehouse `end`, if that is `warehouse`. */
  function At(end: Option<int>, warehouse: int, amount: int): int {
    if end == Some(warehouse) then amount else 0
  }

  /** A change at no more than two warehouses changes the total by their two amounts. */
  lemma {:induction false} TotalShift(warehouses: set<int>, before: map<Key, int>, after: map<Key, int>, product: int,
                                      from: Option<int>, taken: int, to: Option<int>, given: int)
    requires forall w | w in warehouses ::
               StockOf(after, w, product) == StockOf(before, w, product) + At(from, w, taken) + At(to, w, given)
    ensures TotalStock(warehouses, after, product)
            == TotalStock(warehouses, before, product)
               + (if from.Some? && from.value in warehouses then taken else 0)
               + (if to.Some? && to.value in warehouses then given else 0)
  {
    if exists warehouse :: warehouse in warehouses {
      var one :| one in warehouses;
      TotalPick(warehouses, before, product, one);
      TotalPick(warehouses, after, product, one);
      TotalShift(warehouses - {one}, before, after, product, from, taken, to, given);
    }
  }
}
