/** The view of one repeatable-read transaction: its snapshot with its own writes on top. */
module Sessions {
  import opened Wrappers
  import opened Tables

  class Session {
    var view: Db

    constructor (snapshot: Db)
      ensures view == snapshot
    {
      view := snapshot;
    }

    /** Installs the outcome of a statement; a fault leaves the view alone. */
    method Take(outcome: Outcome) returns (fault: Option<Fault>)
      modifies this
      ensures fault == FaultOf(outcome)
      ensures view == if outcome.Success? then outcome.value else old(view)
    {
      match outcome
      case Success(next) => view := next; fault := None;
      case Failure(error) => fault := Some(error);
    }

    method SelectCount(warehouse: int, product: int) returns (count: Option<int>)
      ensures count == Lookup(view.stock, Key(warehouse, product))
    {
      count := Lookup(view.stock, Key(warehouse, product));
    }
  }

  function FaultOf(outcome: Outcome): Option<Fault> {
    if outcome.Success? then None else Some(outcome.error)
  }
}
