/** Queries that are built before Execute have their parameters once: which retries can succeed. */
module Retries {
  import opened Wrappers
  import opened Execution

  /** The database and the task's own variables, and the parameters of the queries built before Execute. */
  datatype Loaded<D> = Loaded(rest: D, slots: seq<seq<string>>)

  /** What a leaf does: anything but touch those parameters, or run a prebuilt query of `width` placeholders. */
  datatype Act<!D> =
    | Plain(act: D -> (D, Outcome))
    | Send(slot: nat, width: nat, exec: (D, seq<string>) -> (D, Outcome))

  function Spend(slots: seq<seq<string>>, slot: nat): seq<seq<string>> {
    if slot < |slots| then slots[slot := []] else slots
  }

  predicate Filled(slots: seq<seq<string>>, slot: nat, width: nat) {
    slot < |slots| && |slots[slot]| == width
  }

  /** Running a prebuilt query hands its parameters over; with the wrong number of them the server refuses it. */
  function Do<D>(a: Act<D>, s: Loaded<D>): (Loaded<D>, Outcome) {
    match a
    case Plain(act) => (Loaded(act(s.rest).0, s.slots), act(s.rest).1)
    case Send(slot, width, exec) =>
      if !Filled(s.slots, slot, width) then (Loaded(s.rest, Spend(s.slots, slot)), Broken)
      else (Loaded(exec(s.rest, s.slots[slot]).0, Spend(s.slots, slot)), exec(s.rest, s.slots[slot]).1)
  }

  function Lift<D>(a: Act<D>): Loaded<D> -> (Loaded<D>, Outcome) {
    (s: Loaded<D>) => Do(a, s)
  }

  /** A test looks at anything but the parameters. */
  function LiftTest<D>(test: D -> (D, Outcome, bool)): Loaded<D> -> (Loaded<D>, Outcome, bool) {
    (s: Loaded<D>) => (Loaded(test(s.rest).0, s.slots), test(s.rest).1, test(s.rest).2)
  }

  /** Commits and new transactions do not touch the parameters. */
  function LiftAttempt<D>(attempt: Attempt<D>): Attempt<Loaded<D>> {
    Attempt((s: Loaded<D>) => (Loaded(attempt.commit(s.rest).0, s.slots), attempt.commit(s.rest).1, attempt.commit(s.rest).2),
            (s: Loaded<D>) => (Loaded(attempt.renew(s.rest).0, s.slots), attempt.renew(s.rest).1))
  }

  function LiftAll<D>(script: seq<Attempt<D>>): seq<Attempt<Loaded<D>>> {
    seq(|script|, i requires 0 <= i < |script| => LiftAttempt(script[i]))
  }

  // ---------- Trees and plans ----------

  /** A tree of entries by what its leaves and conditions do. */
  datatype Task<!D> =
    | LeafTask(act: Act<D>, next: Option<Task<D>>)
    | GroupTask(inner: seq<Task<D>>, next: Option<Task<D>>)
    | ChoiceTask(test: D -> (D, Outcome, bool), ifTrue: Option<Task<D>>, ifFalse: Option<Task<D>>)

  function TreeOf<D>(root: Option<Task<D>>): Option<Entry<Loaded<D>>>
    decreases root
  {
    if root.None? then None else Some(EntryOf(root.value))
  }

  function EntryOf<D>(task: Task<D>): Entry<Loaded<D>> {
    match task
    case LeafTask(act, next) => Leaf(Lift(act), TreeOf(next))
    case GroupTask(inner, next) => Group(EntriesOf(inner), TreeOf(next))
    case ChoiceTask(test, ifTrue, ifFalse) => Choice(LiftTest(test), TreeOf(ifTrue), TreeOf(ifFalse))
  }

  function EntriesOf<D>(inner: seq<Task<D>>): seq<Entry<Loaded<D>>> {
    if inner == [] then [] else [EntryOf(inner[0])] + EntriesOf(inner[1..])
  }

  /** The same without groups: acts one behind the other, and branches. */
  datatype Plan<!D> =
    | End
    | Step(act: Act<D>, next: Plan<D>)
    | Branch(test: D -> (D, Outcome, bool), ifTrue: Plan<D>, ifFalse: Plan<D>)

  function RunPlan<D>(plan: Plan<D>, s: Loaded<D>): (Loaded<D>, Outcome) {
    match plan
    case End => (s, Done)
    case Step(act, next) =>
      var (after, outcome) := Do(act, s);
      if outcome != Done then (after, outcome) else RunPlan(next, after)
    case Branch(test, ifTrue, ifFalse) =>
      var (rest, outcome, chosen) := test(s.rest);
      if outcome != Done then (Loaded(rest, s.slots), outcome)
      else RunPlan(if chosen then ifTrue else ifFalse, Loaded(rest, s.slots))
  }

  function PlanOf<D>(root: Option<Task<D>>): Plan<D>
    decreases root
  {
    if root.None? then End
    else match root.value
      case LeafTask(act, next) => Step(act, PlanOf(next))
      case GroupTask(inner, next) => PlanAll(inner, PlanOf(next))
      case ChoiceTask(test, ifTrue, ifFalse) => Branch(test, PlanOf(ifTrue), PlanOf(ifFalse))
  }

  /** The inner entries of a group do not lead to their own next entries: both ways go on behind. */
  function PlanOne<D>(task: Task<D>, behind: Plan<D>): Plan<D>
    decreases task, 1
  {
    match task
    case LeafTask(act, _) => Step(act, behind)
    case GroupTask(inner, _) => PlanAll(inner, behind)
    case ChoiceTask(test, _, _) => Branch(test, behind, behind)
  }

  function PlanAll<D>(inner: seq<Task<D>>, behind: Plan<D>): Plan<D>
    decreases inner, 0
  {
    if inner == [] then behind else PlanOne(inner[0], PlanAll(inner[1..], behind))
  }

  lemma {:induction false} OneRuns<D>(task: Task<D>, behind: Plan<D>, s: Loaded<D>)
    ensures RunPlan(PlanOne(task, behind), s) ==
            var (after, outcome) := ExecuteOne(EntryOf(task), s);
            if outcome != Done then (after, outcome) else RunPlan(behind, after)
    decreases task, 1
  {
    if task.GroupTask? {
      AllRuns(task.inner, behind, s);
    }
  }

  lemma {:induction false} AllRuns<D>(inner: seq<Task<D>>, behind: Plan<D>, s: Loaded<D>)
    ensures RunPlan(PlanAll(inner, behind), s) ==
            var (after, outcome) := ExecuteAll(EntriesOf(inner), s);
            if outcome != Done then (after, outcome) else RunPlan(behind, after)
    decreases inner, 0
  {
    if inner != [] {
      OneRuns(inner[0], PlanAll(inner[1..], behind), s);
      AllRuns(inner[1..], behind, ExecuteOne(EntryOf(inner[0]), s).0);
      assert EntriesOf(inner)[1..] == EntriesOf(inner[1..]);
    }
  }

  /** Every tree runs as its plan. */
  lemma {:induction false} TreeRunsAsPlanned<D>(root: Option<Task<D>>, s: Loaded<D>)
    ensures RunFrom(TreeOf(root), s) == RunPlan(PlanOf(root), s)
    decreases root
  {
    if root.Some? {
      match root.value
      case LeafTask(act, next) =>
        TreeRunsAsPlanned(next, Do(act, s).0);
      case GroupTask(inner, next) =>
        AllRuns(inner, PlanOf(next), s);
        TreeRunsAsPlanned(next, ExecuteAll(EntriesOf(inner), s).0);
      case ChoiceTask(test, ifTrue, ifFalse) =>
        var after := Loaded(test(s.rest).0, s.slots);
        TreeRunsAsPlanned(ifTrue, after);
        TreeRunsAsPlanned(ifFalse, after);
    }
  }

  // ---------- What a run hands over ----------

  /** The prebuilt queries that run. */
  function SentBy<D>(plan: Plan<D>, s: Loaded<D>): set<nat> {
    match plan
    case End => {}
    case Step(act, next) =>
      var (after, outcome) := Do(act, s);
      (if act.Send? then {act.slot} else {}) + if outcome != Done then {} else SentBy(next, after)
    case Branch(test, ifTrue, ifFalse) =>
      var (rest, outcome, chosen) := test(s.rest);
      if outcome != Done then {} else SentBy(if chosen then ifTrue else ifFalse, Loaded(rest, s.slots))
  }

  /** Every prebuilt query has placeholders. */
  predicate Wide<D>(plan: Plan<D>) {
    match plan
    case End => true
    case Step(act, next) => (act.Send? ==> act.width > 0) && Wide(next)
    case Branch(_, ifTrue, ifFalse) => Wide(ifTrue) && Wide(ifFalse)
  }

  function Emptied(slots: seq<seq<string>>, gone: set<nat>): seq<seq<string>> {
    seq(|slots|, i requires 0 <= i < |slots| => if i in gone then [] else slots[i])
  }

  lemma EmptiedTwice(slots: seq<seq<string>>, slot: nat, gone: set<nat>)
    ensures Emptied(Spend(slots, slot), gone) == Emptied(slots, {slot} + gone) == Spend(Emptied(slots, gone), slot)
    ensures Emptied(slots, {}) == slots
  {}

  /** A run empties the slots of the queries it runs and no others. */
  lemma {:induction false} RunEmpties<D>(plan: Plan<D>, s: Loaded<D>)
    ensures RunPlan(plan, s).0.slots == Emptied(s.slots, SentBy(plan, s))
  {
    EmptiedTwice(s.slots, 0, {});
    match plan
    case End =>
    case Step(act, next) =>
      var (after, outcome) := Do(act, s);
      if act.Send? {
        EmptiedTwice(s.slots, act.slot, if outcome == Done then SentBy(next, after) else {});
        EmptiedTwice(after.slots, act.slot, {});
      }
      if outcome == Done {
        RunEmpties(next, after);
      }
    case Branch(test, ifTrue, ifFalse) =>
      var (rest, outcome, chosen) := test(s.rest);
      if outcome == Done {
        RunEmpties(if chosen then ifTrue else ifFalse, Loaded(rest, s.slots));
      }
  }

  /** With some slots emptied a run succeeds exactly if it would with all of them and needs none of those. */
  lemma {:induction false} SucceedsWithout<D>(plan: Plan<D>, rest: D, slots: seq<seq<string>>, gone: set<nat>)
    requires Wide(plan)
    ensures RunPlan(plan, Loaded(rest, Emptied(slots, gone))).1 == Done
            <==> RunPlan(plan, Loaded(rest, slots)).1 == Done && SentBy(plan, Loaded(rest, slots)) !! gone
  {
    match plan
    case End =>
    case Step(act, next) =>
      var (after, outcome) := Do(act, Loaded(rest, slots));
      if act.Plain? {
        SucceedsWithout(next, after.rest, slots, gone);
      } else if act.slot !in gone {
        EmptiedTwice(slots, act.slot, gone);
        SucceedsWithout(next, after.rest, Spend(slots, act.slot), gone);
      }
    case Branch(test, ifTrue, ifFalse) =>
      SucceedsWithout(ifTrue, test(rest).0, slots, gone);
      SucceedsWithout(ifFalse, test(rest).0, slots, gone);
  }

  // ---------- Which retries can succeed ----------

  /** The task succeeds from some state of the database when its prebuilt queries have these parameters. */
  ghost predicate CanSucceed<D(!new)>(root: Option<Task<D>>, slots: seq<seq<string>>) {
    exists rest :: RunFrom(TreeOf(root), Loaded(rest, slots)).1 == Done
  }

  /** The parameters after an attempt, whatever its commit did. */
  lemma TryEmpties<D>(root: Option<Task<D>>, s: Loaded<D>, attempt: Attempt<D>)
    ensures TryOnce(TreeOf(root), s, LiftAttempt(attempt)).0.slots == Emptied(s.slots, SentBy(PlanOf(root), s))
    ensures TryOnce(TreeOf(root), s, LiftAttempt(attempt)).1.outcome == Done ==> RunPlan(PlanOf(root), s).1 == Done
  {
    TreeRunsAsPlanned(root, s);
    RunEmpties(PlanOf(root), s);
  }

  /** After an attempt the task can still succeed if and only if, with all parameters in place, it could by a run that
      takes none of the prebuilt queries which ran in the attempt. */
  lemma RetryCanSucceedIff<D(!new)>(root: Option<Task<D>>, s: Loaded<D>, attempt: Attempt<D>)
    requires Wide(PlanOf(root))
    ensures CanSucceed(root, TryOnce(TreeOf(root), s, LiftAttempt(attempt)).0.slots) <==>
              exists rest ::
                && RunFrom(TreeOf(root), Loaded(rest, s.slots)).1 == Done
                && SentBy(PlanOf(root), Loaded(rest, s.slots)) !! SentBy(PlanOf(root), s)
  {
    hide TryOnce, TreeOf, PlanOf, RunFrom, RunPlan, SentBy, Wide, Emptied;
    var plan := PlanOf(root);
    TryEmpties(root, s, attempt);
    forall rest
      ensures RunFrom(TreeOf(root), Loaded(rest, Emptied(s.slots, SentBy(plan, s)))).1 == Done
              <==> && RunFrom(TreeOf(root), Loaded(rest, s.slots)).1 == Done
                   && SentBy(plan, Loaded(rest, s.slots)) !! SentBy(plan, s)
    {
      SucceedsWithout(plan, rest, s.slots, SentBy(plan, s));
      TreeRunsAsPlanned(root, Loaded(rest, s.slots));
      TreeRunsAsPlanned(root, Loaded(rest, Emptied(s.slots, SentBy(plan, s))));
    }
  }

  /** If no prebuilt query ran before the conflict, the retry is a fresh attempt: it starts from the new transaction
      with all parameters as they were first built. */
  lemma UnsentRetryIsFresh<D>(root: Option<Task<D>>, s: Loaded<D>, script: seq<Attempt<D>>, commitAttempts: nat, made: nat)
    requires SentBy(PlanOf(root), s) == {} && script != [] && made + 1 != commitAttempts
    requires var (after, tried) := TryOnce(TreeOf(root), s, LiftAttempt(script[0]));
             tried.outcome == Conflict && script[0].renew(after.rest).1
    ensures var (after, tried) := TryOnce(TreeOf(root), s, LiftAttempt(script[0]));
            var anew := Loaded(script[0].renew(after.rest).0, s.slots);
            var (ending, all) := Retried(TreeOf(root), anew, LiftAll(script[1..]), commitAttempts, made + 1);
            Retried(TreeOf(root), s, LiftAll(script), commitAttempts, made) == (ending, [tried] + all)
  {
    TryEmpties(root, s, script[0]);
    EmptiedTwice(s.slots, 0, {});
    assert LiftAll(script)[0] == LiftAttempt(script[0]) && LiftAll(script)[1..] == LiftAll(script[1..]);
  }

  /** On every way through the plan stands a prebuilt query without its parameters. */
  predicate Blocked<D>(plan: Plan<D>, slots: seq<seq<string>>) {
    match plan
    case End => false
    case Step(act, next) => (act.Send? && act.width > 0 && !Filled(slots, act.slot, act.width)) || Blocked(next, slots)
    case Branch(_, ifTrue, ifFalse) => Blocked(ifTrue, slots) && Blocked(ifFalse, slots)
  }

  lemma {:induction false} StaysBlocked<D>(plan: Plan<D>, slots: seq<seq<string>>, gone: set<nat>)
    requires Blocked(plan, slots)
    ensures Blocked(plan, Emptied(slots, gone))
  {
    match plan
    case Step(act, next) =>
      if Blocked(next, slots) {
        StaysBlocked(next, slots, gone);
      }
    case Branch(_, ifTrue, ifFalse) =>
      StaysBlocked(ifTrue, slots, gone);
      StaysBlocked(ifFalse, slots, gone);
  }

  lemma {:induction false} BlockedFails<D>(plan: Plan<D>, s: Loaded<D>)
    requires Blocked(plan, s.slots)
    ensures RunPlan(plan, s).1 != Done
  {
    match plan
    case Step(act, next) =>
      var (after, outcome) := Do(act, s);
      if outcome == Done {
        if act.Send? {
          EmptiedTwice(s.slots, act.slot, {});
          EmptiedTwice(Spend(s.slots, act.slot), act.slot, {});
          StaysBlocked(next, s.slots, {act.slot});
          assert after.slots == Emptied(s.slots, {act.slot} + {});
          assert {act.slot} + {} == {act.slot};
        }
        BlockedFails(next, after);
      }
    case Branch(test, ifTrue, ifFalse) =>
      BlockedFails(ifTrue, Loaded(test(s.rest).0, s.slots));
      BlockedFails(ifFalse, Loaded(test(s.rest).0, s.slots));
  }

  /** Then no number of attempts succeeds. */
  lemma {:induction false} BlockedNeverSucceeds<D>(root: Option<Task<D>>, s: Loaded<D>, script: seq<Attempt<D>>,
                                                   commitAttempts: nat, made: nat)
    requires Blocked(PlanOf(root), s.slots)
    ensures Retried(TreeOf(root), s, LiftAll(script), commitAttempts, made).0 != Returned(SUCCESS)
    decreases |script|
  {
    if script != [] {
      BlockedFails(PlanOf(root), s);
      TryEmpties(root, s, script[0]);
      StaysBlocked(PlanOf(root), s.slots, SentBy(PlanOf(root), s));
      var after := TryOnce(TreeOf(root), s, LiftAttempt(script[0])).0;
      assert LiftAll(script)[0] == LiftAttempt(script[0]) && LiftAll(script)[1..] == LiftAll(script[1..]);
      BlockedNeverSucceeds(root, LiftAttempt(script[0]).renew(after).0, script[1..], commitAttempts, made + 1);
    }
  }

  // ---------- Trees without conditions ----------

  function InOrder<D>(acts: seq<Act<D>>): Plan<D> {
    if acts == [] then End else Step(acts[0], InOrder(acts[1..]))
  }

  /** Acts one after the other, up to the first failure. */
  function RunActs<D>(acts: seq<Act<D>>, s: Loaded<D>): (Loaded<D>, Outcome) {
    if acts == [] then (s, Done)
    else
      var (next, outcome) := Do(acts[0], s);
      if outcome != Done then (next, outcome) else RunActs(acts[1..], next)
  }

  /** The tree runs as this list of acts. */
  ghost predicate Line<D(!new)>(root: Option<Task<D>>, acts: seq<Act<D>>) {
    PlanOf(root) == InOrder(acts) && forall s :: RunFrom(TreeOf(root), s) == RunActs(acts, s)
  }

  lemma {:induction false} InOrderRuns<D>(acts: seq<Act<D>>, s: Loaded<D>)
    ensures RunPlan(InOrder(acts), s) == RunActs(acts, s)
  {
    if acts != [] {
      InOrderRuns(acts[1..], Do(acts[0], s).0);
    }
  }

  lemma PlannedLine<D(!new)>(root: Option<Task<D>>, acts: seq<Act<D>>)
    requires PlanOf(root) == InOrder(acts)
    ensures Line(root, acts)
  {
    forall s ensures RunFrom(TreeOf(root), s) == RunActs(acts, s) {
      TreeRunsAsPlanned(root, s);
      InOrderRuns(acts, s);
    }
  }

  /** A run of a list that succeeds runs all its prebuilt queries, and any run only those. */
  lemma {:induction false} LineSends<D>(acts: seq<Act<D>>, s: Loaded<D>)
    ensures var all := set a | a in acts && a.Send? :: a.slot;
            SentBy(InOrder(acts), s) <= all && (RunActs(acts, s).1 == Done ==> SentBy(InOrder(acts), s) == all)
  {
    if acts != [] {
      LineSends(acts[1..], Do(acts[0], s).0);
      var all, others := set a | a in acts && a.Send? :: a.slot, set a | a in acts[1..] && a.Send? :: a.slot;
      assert forall a :: a in acts <==> a == acts[0] || a in acts[1..];
      assert all == (if acts[0].Send? then {acts[0].slot} else {}) + others;
    }
  }

  /** Without conditions: a retry can succeed if and only if no prebuilt query had run in the attempt before. */
  lemma LineRetryIff<D(!new)>(root: Option<Task<D>>, acts: seq<Act<D>>, s: Loaded<D>, attempt: Attempt<D>)
    requires Line(root, acts) && Wide(PlanOf(root)) && CanSucceed(root, s.slots)
    ensures CanSucceed(root, TryOnce(TreeOf(root), s, LiftAttempt(attempt)).0.slots) <==> SentBy(PlanOf(root), s) == {}
  {
    hide TryOnce, TreeOf, PlanOf, RunFrom, RunActs, SentBy, Wide, InOrder;
    RetryCanSucceedIff(root, s, attempt);
    LineSends(acts, s);
    forall rest | RunFrom(TreeOf(root), Loaded(rest, s.slots)).1 == Done
      ensures SentBy(PlanOf(root), s) <= SentBy(PlanOf(root), Loaded(rest, s.slots))
    {
      LineSends(acts, Loaded(rest, s.slots));
    }
  }

  // ---------- The three tasks ----------

  /** Invoice::FullInsertEntry: the prebuilt invoice, its id, its items. */
  function InvoiceTask<D>(invoice: Act<D>, getId: Act<D>, items: Act<D>, next: Option<Task<D>>): Task<D> {
    GroupTask([LeafTask(invoice, None), LeafTask(getId, None), LeafTask(items, None)], next)
  }

  function MoveTask<D>(invoice: Act<D>, getId: Act<D>, items: Act<D>, reduce: Act<D>, expand: Act<D>): Task<D> {
    InvoiceTask(invoice, getId, items, Some(LeafTask(reduce, Some(LeafTask(expand, None)))))
  }

  function RemoveTask<D>(invoice: Act<D>, getId: Act<D>, items: Act<D>, reduce: Act<D>): Task<D> {
    InvoiceTask(invoice, getId, items, Some(LeafTask(reduce, None)))
  }

  function CreateTask<D>(expand: Act<D>, products: Act<D>, convert: Act<D>,
                         invoice: Act<D>, getId: Act<D>, items: Act<D>, stock: Act<D>): Task<D>
  {
    LeafTask(expand, Some(LeafTask(products, Some(LeafTask(convert,
      Some(InvoiceTask(invoice, getId, items, Some(LeafTask(stock, None)))))))))
  }

  lemma LeafFirst<D>(act: Act<D>, others: seq<Task<D>>, behind: Plan<D>)
    ensures PlanAll([LeafTask(act, None)] + others, behind) == Step(act, PlanAll(others, behind))
  {
    assert ([LeafTask(act, None)] + others)[1..] == others;
  }

  lemma InvoicePlan<D>(invoice: Act<D>, getId: Act<D>, items: Act<D>, next: Option<Task<D>>)
    ensures PlanOf(Some(InvoiceTask(invoice, getId, items, next))) == Step(invoice, Step(getId, Step(items, PlanOf(next))))
  {
    var behind := PlanOf(next);
    LeafFirst(items, [], behind);
    LeafFirst(getId, [LeafTask(items, None)], behind);
    LeafFirst(invoice, [LeafTask(getId, None), LeafTask(items, None)], behind);
    assert [LeafTask(items, None)] + [] == [LeafTask(items, None)];
    assert [LeafTask(getId, None)] + [LeafTask(items, None)] == [LeafTask(getId, None), LeafTask(items, None)];
    assert [LeafTask(invoice, None)] + [LeafTask(getId, None), LeafTask(items, None)]
           == [LeafTask(invoice, None), LeafTask(getId, None), LeafTask(items, None)];
  }

  lemma ActFirst<D>(act: Act<D>, acts: seq<Act<D>>)
    ensures InOrder([act] + acts) == Step(act, InOrder(acts))
  {
    assert ([act] + acts)[1..] == acts;
  }

  lemma InvoiceFirst<D>(invoice: Act<D>, getId: Act<D>, items: Act<D>, acts: seq<Act<D>>)
    ensures InOrder([invoice, getId, items] + acts) == Step(invoice, Step(getId, Step(items, InOrder(acts))))
  {
    ActFirst(items, acts);
    ActFirst(getId, [items] + acts);
    ActFirst(invoice, [getId] + ([items] + acts));
    assert [invoice] + ([getId] + ([items] + acts)) == [invoice, getId, items] + acts;
  }

  lemma MoveLine<D(!new)>(invoice: Act<D>, getId: Act<D>, items: Act<D>, reduce: Act<D>, expand: Act<D>)
    ensures Line(Some(MoveTask(invoice, getId, items, reduce, expand)), [invoice, getId, items, reduce, expand])
  {
    InvoicePlan(invoice, getId, items, Some(LeafTask(reduce, Some(LeafTask(expand, None)))));
    ActFirst(expand, []);
    ActFirst(reduce, [expand]);
    InvoiceFirst(invoice, getId, items, [reduce, expand]);
    assert [expand] + [] == [expand] && [reduce] + [expand] == [reduce, expand];
    assert [invoice, getId, items] + [reduce, expand] == [invoice, getId, items, reduce, expand];
    assert PlanOf(Some(LeafTask(expand, None))) == InOrder([expand]);
    assert PlanOf(Some(LeafTask(reduce, Some(LeafTask(expand, None))))) == InOrder([reduce, expand]);
    PlannedLine(Some(MoveTask(invoice, getId, items, reduce, expand)), [invoice, getId, items, reduce, expand]);
  }

  lemma RemoveLine<D(!new)>(invoice: Act<D>, getId: Act<D>, items: Act<D>, reduce: Act<D>)
    ensures Line(Some(RemoveTask(invoice, getId, items, reduce)), [invoice, getId, items, reduce])
  {
    InvoicePlan(invoice, getId, items, Some(LeafTask(reduce, None)));
    ActFirst(reduce, []);
    InvoiceFirst(invoice, getId, items, [reduce]);
    assert [reduce] + [] == [reduce] && [invoice, getId, items] + [reduce] == [invoice, getId, items, reduce];
    PlannedLine(Some(RemoveTask(invoice, getId, items, reduce)), [invoice, getId, items, reduce]);
  }

  lemma CreateLine<D(!new)>(expand: Act<D>, products: Act<D>, convert: Act<D>,
                            invoice: Act<D>, getId: Act<D>, items: Act<D>, stock: Act<D>)
    ensures Line(Some(CreateTask(expand, products, convert, invoice, getId, items, stock)),
                 [expand, products, convert, invoice, getId, items, stock])
  {
    InvoicePlan(invoice, getId, items, Some(LeafTask(stock, None)));
    ActFirst(stock, []);
    InvoiceFirst(invoice, getId, items, [stock]);
    var behind := [invoice, getId, items, stock];
    assert [stock] + [] == [stock] && [invoice, getId, items] + [stock] == behind;
    ActFirst(convert, behind);
    ActFirst(products, [convert] + behind);
    ActFirst(expand, [products] + ([convert] + behind));
    assert [expand] + ([products] + ([convert] + behind)) == [expand, products, convert, invoice, getId, items, stock];
    var two := Some(LeafTask(convert, Some(InvoiceTask(invoice, getId, items, Some(LeafTask(stock, None))))));
    assert PlanOf(two) == InOrder([convert] + behind);
    assert PlanOf(Some(LeafTask(products, two))) == InOrder([products] + ([convert] + behind));
    PlannedLine(Some(CreateTask(expand, products, convert, invoice, getId, items, stock)),
                [expand, products, convert, invoice, getId, items, stock]);
  }

  /** A task that begins with a prebuilt query succeeds in its first attempt or never. */
  lemma PrebuiltFirstFailsLater<D>(root: Option<Task<D>>, s: Loaded<D>, script: seq<Attempt<D>>, commitAttempts: nat)
    requires PlanOf(root).Step? && PlanOf(root).act.Send? && PlanOf(root).act.width > 0
    ensures var (ending, all) := Retried(TreeOf(root), s, LiftAll(script), commitAttempts, 0);
            |all| > 1 ==> ending != Returned(SUCCESS)
  {
    var (ending, all) := Retried(TreeOf(root), s, LiftAll(script), commitAttempts, 0);
    if |all| > 1 {
      TryEmpties(root, s, script[0]);
      assert PlanOf(root).act.slot in SentBy(PlanOf(root), s);
      assert LiftAll(script)[0] == LiftAttempt(script[0]) && LiftAll(script)[1..] == LiftAll(script[1..]);
      var after := TryOnce(TreeOf(root), s, LiftAttempt(script[0])).0;
      assert Blocked(PlanOf(root), after.slots);
      BlockedNeverSucceeds(root, LiftAttempt(script[0]).renew(after).0, script[1..], commitAttempts, 1);
    }
  }

  lemma MoveNeverSucceedsLater<D(!new)>(invoice: Act<D>, getId: Act<D>, items: Act<D>, reduce: Act<D>, expand: Act<D>,
                                        s: Loaded<D>, script: seq<Attempt<D>>, commitAttempts: nat)
    requires invoice.Send? && invoice.width > 0
    ensures var root := Some(MoveTask(invoice, getId, items, reduce, expand));
            var (ending, all) := Retried(TreeOf(root), s, LiftAll(script), commitAttempts, 0);
            |all| > 1 ==> ending != Returned(SUCCESS)
  {
    MoveLine(invoice, getId, items, reduce, expand);
    PrebuiltFirstFailsLater(Some(MoveTask(invoice, getId, items, reduce, expand)), s, script, commitAttempts);
  }

  lemma RemoveNeverSucceedsLater<D(!new)>(invoice: Act<D>, getId: Act<D>, items: Act<D>, reduce: Act<D>,
                                          s: Loaded<D>, script: seq<Attempt<D>>, commitAttempts: nat)
    requires invoice.Send? && invoice.width > 0
    ensures var root := Some(RemoveTask(invoice, getId, items, reduce));
            var (ending, all) := Retried(TreeOf(root), s, LiftAll(script), commitAttempts, 0);
            |all| > 1 ==> ending != Returned(SUCCESS)
  {
    RemoveLine(invoice, getId, items, reduce);
    PrebuiltFirstFailsLater(Some(RemoveTask(invoice, getId, items, reduce)), s, script, commitAttempts);
  }

  lemma {:induction false} InOrderWide<D>(acts: seq<Act<D>>)
    requires forall a | a in acts && a.Send? :: a.width > 0
    ensures Wide(InOrder(acts))
  {
    if acts != [] {
      InOrderWide(acts[1..]);
    }
  }

  /** A Create changes the existing stock before its first prebuilt query: its retry can succeed exactly when the
      conflict came from there. */
  lemma CreateRetriesIff<D(!new)>(expand: Act<D>, products: Act<D>, convert: Act<D>, invoice: Act<D>, getId: Act<D>,
                                  items: Act<D>, stock: Act<D>, s: Loaded<D>, attempt: Attempt<D>)
    requires expand.Plain? && products.Send?
    requires forall a | a in [expand, products, convert, invoice, getId, items, stock] && a.Send? :: a.width > 0
    requires CanSucceed(Some(CreateTask(expand, products, convert, invoice, getId, items, stock)), s.slots)
    ensures var root := Some(CreateTask(expand, products, convert, invoice, getId, items, stock));
            CanSucceed(root, TryOnce(TreeOf(root), s, LiftAttempt(attempt)).0.slots) <==> expand.act(s.rest).1 != Done
  {
    hide Line, RunFrom, TryOnce, CanSucceed, CreateTask, TreeOf, PlanOf;
    var root := Some(CreateTask(expand, products, convert, invoice, getId, items, stock));
    var acts := [expand, products, convert, invoice, getId, items, stock];
    CreateLine(expand, products, convert, invoice, getId, items, stock);
    InOrderWide(acts);
    LineIsPlanned(root, acts);
    LineRetryIff(root, acts, s, attempt);
    assert acts[1..][0] == products;
  }

  lemma LineIsPlanned<D(!new)>(root: Option<Task<D>>, acts: seq<Act<D>>)
    requires Line(root, acts)
    ensures PlanOf(root) == InOrder(acts)
  {}
}
