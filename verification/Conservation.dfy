/** Moving goods creates and loses none: totals change only by what Create brings and Remove takes. */
module Conservation {
  import opened Wrappers
  import opened Tables
  import opened Tasks
  import opened Isolation
  import opened Ledger
  import opened Totals
  import WarehouseItems

  /** Count a task brings into the company, minus the count it takes out. */
  function NetBrought(task: Task, ids: Ids, product: int): int
    requires Fits(task, ids)
  {
    var count := OrZero(CountIn(Listed(task, ids), product));
    match task
    case Create(_, _, _) => count
    case Move(_, _, _) => 0
    case Remove(_, _) => -count
  }

  /** Only an over-drawn reduce breaks conservation, and by exactly its shortfall; also when a Move
      goes from a warehouse to itself. */
  lemma TaskConserves(db: Db, task: Task, ids: Ids, product: int)
    requires Fits(task, ids) && Run(db, task, ids).Success?
    ensures TotalStock(db.warehouses, Run(db, task, ids).value.stock, product)
            == TotalStock(db.warehouses, db.stock, product) + NetBrought(task, ids, product)
               + if task.Create? then 0
                 else Shortfall(StockOf(db.stock, task.from, product), task, task.from, product)
  {
    var invoice, after := InvoiceOf(task), Run(db, task, ids).value.stock;
    var count := OrZero(CountIn(Listed(task, ids), product));
    var short := if task.Create? then 0
                 else Shortfall(StockOf(db.stock, task.from, product), task, task.from, product);
    OperationsAppended(db, task, ids);
    forall w | w in db.warehouses
      ensures StockOf(after, w, product)
              == StockOf(db.stock, w, product) + At(invoice.from, w, short - count) + At(invoice.to, w, count)
    {
      TaskBalances(db, task, ids, w, product);
    }
    TotalShift(db.warehouses, db.stock, after, product, invoice.from, short - count, invoice.to, count);
  }

  /** What the committed requests brought in and took out, all together. */
  function TotalBrought(history: seq<Record>, product: int): int {
    if history == [] then 0
    else
      var last := history[|history| - 1];
      TotalBrought(history[..|history| - 1], product)
      + if last.Opened? || !Fits(last.task, last.ids) then 0 else NetBrought(last.task, last.ids, product)
  }

  /** Every stock row is in a known warehouse and of a known product. */
  ghost predicate StockKnown(db: Db) {
    forall key | key in db.stock :: key.warehouse in db.warehouses && key.product in db.products
  }

  /** What a task takes beyond the stock it finds, at whatever warehouse it takes from. */
  function TakenBeyond(db: Db, task: Task, product: int): int {
    if task.Create? then 0 else Shortfall(StockOf(db.stock, task.from, product), task, task.from, product)
  }

  /** What the committed reduces took beyond the stock, all together. */
  function TotalBeyond(history: seq<Record>, product: int): int
    requires Replay(history).Success?
  {
    if history == [] then 0
    else
      var earlier, last := history[..|history| - 1], history[|history| - 1];
      TotalBeyond(earlier, product) + if last.Opened? then 0 else TakenBeyond(Replay(earlier).value, last.task, product)
  }

  /** The committed task `i` took more of the product than its warehouse held when it ran. */
  ghost predicate OverdrawnAt(history: seq<Record>, i: nat, product: int) {
    && i < |history| && history[i].Stocked? && Replay(history[..i]).Success?
    && TakenBeyond(Replay(history[..i]).value, history[i].task, product) > 0
  }

  lemma {:induction false} BeyondMeansOverdrawn(history: seq<Record>, product: int)
    requires Replay(history).Success?
    ensures TotalBeyond(history, product) >= 0
    ensures TotalBeyond(history, product) == 0 <==> !(exists i: nat :: OverdrawnAt(history, i, product))
  {
    if history != [] {
      BeyondMeansOverdrawn(history[..|history| - 1], product);
      BeyondSplits(history, product);
      OverdrawnSplits(history, history[..|history| - 1], product);
    }
  }

  lemma BeyondSplits(history: seq<Record>, product: int)
    requires history != [] && Replay(history).Success?
    ensures TotalBeyond(history, product) == TotalBeyond(history[..|history| - 1], product) + LastBeyond(history, product)
  {}

  lemma OverdrawnSplits(history: seq<Record>, earlier: seq<Record>, product: int)
    requires history != [] && earlier == history[..|history| - 1]
    ensures (exists i: nat :: OverdrawnAt(history, i, product))
            <==> (exists i: nat :: OverdrawnAt(earlier, i, product)) || OverdrawnAt(history, |history| - 1, product)
  {
    if i: nat :| OverdrawnAt(history, i, product) {
      EarlierOverdrawn(history, i, product);
    }
    if i: nat :| OverdrawnAt(earlier, i, product) {
      EarlierOverdrawn(history, i, product);
    }
  }

  function LastBeyond(history: seq<Record>, product: int): (beyond: int)
    requires history != [] && Replay(history).Success?
    ensures beyond >= 0 && (beyond > 0 <==> OverdrawnAt(history, |history| - 1, product))
  {
    var earlier, last := history[..|history| - 1], history[|history| - 1];
    if last.Opened? then 0 else TakenBeyond(Replay(earlier).value, last.task, product)
  }

  lemma EarlierOverdrawn(history: seq<Record>, i: nat, product: int)
    requires history != []
    ensures OverdrawnAt(history[..|history| - 1], i, product) <==> i < |history| - 1 && OverdrawnAt(history, i, product)
  {
    if i < |history| - 1 {
      assert history[..|history| - 1][..i] == history[..i];
    }
  }

  /** It is over-drawn as the ledger says it: at the warehouse the task takes from. */
  lemma OverdrawnAtSomeWarehouse(history: seq<Record>, product: int)
    requires Replay(history).Success?
    ensures (exists i: nat :: OverdrawnAt(history, i, product)) <==> exists warehouse :: Overdrawn(history, warehouse, product)
  {
    if i: nat :| OverdrawnAt(history, i, product) {
      var from := history[i].task.from;
      assert Overdraws(Replay(history[..i]).value, history[i].task, from, product);
      assert Overdrawn(history, from, product);
    }
    if warehouse :| Overdrawn(history, warehouse, product) {
      var i :| 0 <= i < |history| && history[i].Stocked? && Replay(history[..i]).Success?
               && Overdraws(Replay(history[..i]).value, history[i].task, warehouse, product);
      assert OverdrawnAt(history, i, product);
    }
  }

  lemma {:induction false} HistoryConserves(history: seq<Record>, product: int)
    requires Replay(history).Success?
    ensures var db := Replay(history).value;
            && StockKnown(db)
            && TotalStock(db.warehouses, db.stock, product) == TotalBrought(history, product) + TotalBeyond(history, product)
  {
    if history != [] {
      var n := |history| - 1;
      var earlier, last := history[..n], history[n];
      HistoryConserves(earlier, product);
      var db := Replay(earlier).value;
      if last.Opened? {
        OpeningAddsNothing(db, last.warehouse, product);
      } else {
        TaskConserves(db, last.task, last.ids, product);
        TaskKeepsKnown(db, last.task, last.ids);
        OperationsAppended(db, last.task, last.ids);
      }
    }
  }

  lemma OpeningAddsNothing(db: Db, warehouse: int, product: int)
    requires StockKnown(db)
    ensures TotalStock(db.warehouses + {warehouse}, db.stock, product) == TotalStock(db.warehouses, db.stock, product)
  {
    var more := db.warehouses + {warehouse};
    if warehouse in db.warehouses {
      assert more == db.warehouses;
    } else {
      TotalPick(more, db.stock, product, warehouse);
      assert more - {warehouse} == db.warehouses;
    }
  }

  lemma TaskKeepsKnown(db: Db, task: Task, ids: Ids)
    requires StockKnown(db) && Fits(task, ids) && Run(db, task, ids).Success?
    ensures StockKnown(Run(db, task, ids).value)
  {
    var final := Run(db, task, ids).value;
    OperationsAppended(db, task, ids);
    ListedKnown(db, task, ids);
    forall key | key in final.stock ensures key.warehouse in final.warehouses && key.product in final.products {
      RunIsPointwise(db, task, ids, key);
      CountInMember(Listed(task, ids), key.product);
      assert Lookup(final.stock, key).Some?;
    }
  }

  lemma {:induction false} CountInMember(rows: seq<Item>, product: int)
    ensures CountIn(rows, product).Some? ==> exists row :: row in rows && row.product == product
  {
    if rows != [] {
      CountInMember(rows[1..], product);
      if rows[0].product == product {
        assert rows[0] in rows;
      } else if CountIn(rows[1..], product).Some? {
        var row :| row in rows[1..] && row.product == product;
        assert row in rows;
      }
    }
  }

  lemma ListedKnown(db: Db, task: Task, ids: Ids)
    requires Fits(task, ids) && Run(db, task, ids).Success?
    ensures forall row | row in Listed(task, ids) :: row.product in Run(db, task, ids).value.products
  {
    OperationsAppended(db, task, ids);
    var final := Run(db, task, ids).value;
    match task
    case Create(to, existing, added) =>
      var extended := InsertProducts(WarehouseItems.Change(db, existing, to, false).value, ids.products).value;
      assert Known(InsertInvoice(extended, ids.invoice, InvoiceOf(task)).value, Listed(task, ids));
    case Move(_, _, products) => assert Known(InsertInvoice(db, ids.invoice, InvoiceOf(task)).value, products);
    case Remove(_, products) => assert Known(InsertInvoice(db, ids.invoice, InvoiceOf(task)).value, products);
  }

  /** Under every interleaving all warehouses together hold what the committed requests brought in minus what they took
      out, plus what reduces took beyond the stock; so exactly the former if and only if no reduce of the product was
      over-drawn anywhere. */
  lemma EveryRunConserves(events: seq<Event>, product: int)
    requires Play(events).Some?
    ensures var s := Play(events).value;
            var total := TotalStock(s.now.db.warehouses, s.now.db.stock, product);
            && Replay(s.history).Success?
            && total == TotalBrought(s.history, product) + TotalBeyond(s.history, product)
            && (total == TotalBrought(s.history, product) <==> forall warehouse :: !Overdrawn(s.history, warehouse, product))
  {
    EveryRunIsSerial(events);
    HistoryConserves(Play(events).value.history, product);
    BeyondMeansOverdrawn(Play(events).value.history, product);
    OverdrawnAtSomeWarehouse(Play(events).value.history, product);
  }
}
