/** The three stock tasks as programs on the view of one transaction. */
module Tasks {
  import opened Wrappers
  import opened Tables
  import opened Sessions
  import opened WarehouseItems

  /** A request: `added` holds the counts of the products a Create adds to the catalogue. */
  datatype Task =
    | Create(to: int, existing: seq<Item>, added: seq<int>)
    | Move(from: int, to: int, products: seq<Item>)
    | Remove(from: int, products: seq<Item>)

  /** The values the identity sequences hand out while a task runs. */
  datatype Ids = Ids(invoice: int, products: seq<int>)

  predicate Fits(task: Task, ids: Ids) {
    |ids.products| == if task.Create? then |task.added| else 0
  }

  function NewRows(ids: seq<int>, counts: seq<int>): seq<Item>
    requires |ids| == |counts|
  {
    seq(|ids|, i requires 0 <= i < |ids| => Item(ids[i], counts[i]))
  }

  /** The rows of the task's invoice, in order. */
  function Listed(task: Task, ids: Ids): seq<Item>
    requires Fits(task, ids)
  {
    if task.Create? then task.existing + NewRows(ids.products, task.added) else task.products
  }

  function InvoiceOf(task: Task): Invoice {
    match task
    case Create(to, _, _) => Invoice(None, Some(to))
    case Move(from, to, _) => Invoice(Some(from), Some(to))
    case Remove(from, _) => Invoice(Some(from), None)
  }

  function InsertFullInvoice(db: Db, id: int, invoice: Invoice, rows: seq<Item>): Outcome {
    var inserted :- InsertInvoice(db, id, invoice);
    InsertItems(inserted, id, rows)
  }

  /** A whole task, run to its end on one view. */
  function Run(db: Db, task: Task, ids: Ids): Outcome
    requires Fits(task, ids)
  {
    match task
    case Create(to, existing, added) =>
      if added == [] then
        Failure(Error)
      else
        var expanded :- Change(db, existing, to, false);
        var extended :- InsertProducts(expanded, ids.products);
        var invoiced :- InsertFullInvoice(extended, ids.invoice, InvoiceOf(task), Listed(task, ids));
        InsertStock(invoiced, to, NewRows(ids.products, added))
    case Move(from, to, products) =>
      var invoiced :- InsertFullInvoice(db, ids.invoice, InvoiceOf(task), products);
      var reduced :- Change(invoiced, products, from, true);
      Change(reduced, products, to, false)
    case Remove(from, products) =>
      var invoiced :- InsertFullInvoice(db, ids.invoice, InvoiceOf(task), products);
      Change(invoiced, products, from, true)
  }

  /** Invoice::FullInsertEntry: the invoice row, then its items. */
  method FullInsert(session: Session, id: int, invoice: Invoice, products: seq<Item>) returns (fault: Option<Fault>)
    modifies session
    ensures fault == FaultOf(InsertFullInvoice(old(session.view), id, invoice, products))
    ensures fault.None? ==> Success(session.view) == InsertFullInvoice(old(session.view), id, invoice, products)
  {
    fault := session.Take(InsertInvoice(session.view, id, invoice));
    if fault.None? {
      fault := session.Take(InsertItems(session.view, id, products));
    }
  }

  /** A new product gets its id only when its row is inserted. */
  datatype NewProduct = NewProduct(id: Option<int>, count: int)

  class ProductsCreate {
    const to: int
    var products: seq<Item>
    var productsNew: seq<NewProduct>

    constructor (to: int, products: seq<Item>, productsNew: seq<NewProduct>)
      ensures this.to == to && this.products == products && this.productsNew == productsNew
    {
      this.to, this.products, this.productsNew := to, products, productsNew;
    }

    function Counts(): seq<int>
      reads this
    {
      seq(|productsNew|, i requires 0 <= i < |productsNew| reads this => productsNew[i].count)
    }

    /** The request this object stands for before it runs. */
    function Request(): Task
      reads this
    {
      Create(to, products, Counts())
    }

    /** idsConverter: moves the new products, with their generated ids, behind the existing ones. */
    method ConvertIds(generated: seq<int>)
      requires |generated| == |productsNew|
      modifies this
      ensures Counts() == old(Counts())
      ensures products == old(products) + NewRows(generated, old(Counts()))
      ensures |products| == |old(products)| + |generated| && products[..|old(products)|] == old(products)
      ensures forall i | 0 <= i < |generated| :: products[|old(products)| + i] == Item(generated[i], old(productsNew)[i].count)
      ensures forall i | 0 <= i < |productsNew| :: productsNew[i] == NewProduct(Some(generated[i]), old(productsNew)[i].count)
    {
      for i := 0 to |generated|
        invariant |productsNew| == |generated|
        invariant |products| == |old(products)| + i && products[..|old(products)|] == old(products)
        invariant forall j | 0 <= j < i ::
            && productsNew[j] == NewProduct(Some(generated[j]), old(productsNew)[j].count)
            && products[|old(products)| + j] == Item(generated[j], old(productsNew)[j].count)
        invariant forall j | i <= j < |productsNew| :: productsNew[j] == old(productsNew)[j]
      {
        products := products + [Item(generated[i], productsNew[i].count)];
        productsNew := productsNew[i := NewProduct(Some(generated[i]), productsNew[i].count)];
      }
      assert Counts() == old(Counts());
    }

    method CreateInvoiceProducts(session: Session, ids: Ids) returns (fault: Option<Fault>)
      requires Fits(Request(), ids)
      modifies this, session
      ensures fault == FaultOf(Run(old(session.view), old(Request()), ids))
      ensures fault.None? ==> Success(session.view) == Run(old(session.view), old(Request()), ids)
      ensures fault.None? ==> products == Listed(old(Request()), ids)
    {
      if productsNew == [] {
        return Some(Error);
      }
      fault := ChangeCount(session, products, to, false);
      if fault.Some? {
        return;
      }
      fault := session.Take(InsertProducts(session.view, ids.products));
      if fault.Some? {
        return;
      }
      ConvertIds(ids.products);
      fault := FullInsert(session, ids.invoice, Invoice(None, Some(to)), products);
      if fault.Some? {
        return;
      }
      // only the new products: they are sure to have no row yet
      fault := session.Take(InsertStock(session.view, to, NewRows(ids.products, Counts())));
    }
  }

  method MoveInvoiceProducts(session: Session, from: int, to: int, products: seq<Item>, invoice: int)
    returns (fault: Option<Fault>)
    modifies session
    ensures fault == FaultOf(Run(old(session.view), Move(from, to, products), Ids(invoice, [])))
    ensures fault.None? ==> Success(session.view) == Run(old(session.view), Move(from, to, products), Ids(invoice, []))
  {
    fault := FullInsert(session, invoice, Invoice(Some(from), Some(to)), products);
    if fault.None? {
      fault := ChangeCount(session, products, from, true);
    }
    if fault.None? {
      fault := ChangeCount(session, products, to, false);
    }
  }

  method RemoveInvoiceProducts(session: Session, from: int, products: seq<Item>, invoice: int)
    returns (fault: Option<Fault>)
    modifies session
    ensures fault == FaultOf(Run(old(session.view), Remove(from, products), Ids(invoice, [])))
    ensures fault.None? ==> Success(session.view) == Run(old(session.view), Remove(from, products), Ids(invoice, []))
  {
    fault := FullInsert(session, invoice, Invoice(Some(from), None), products);
    if fault.None? {
      fault := ChangeCount(session, products, from, true);
    }
  }
}
