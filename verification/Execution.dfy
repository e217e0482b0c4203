/** Transaction::Execute: interpreting the tree of entries, committing, and retrying on serialization conflicts. */
module Execution {
  import opened Wrappers

  /** How a step ends: normally or with one of the exceptions Execute tells apart. */
  datatype Outcome = Done | Conflict | Violates | Missing | InDoubt | Broken

  /** An entry owns the entries behind it. A state holds the view of the database and the task's own variables. */
  datatype Entry<!S> =
    | Leaf(act: S -> (S, Outcome), next: Option<Entry<S>>)
    | Group(inner: seq<Entry<S>>, next: Option<Entry<S>>)
    | Choice(test: S -> (S, Outcome, bool), ifTrue: Option<Entry<S>>, ifFalse: Option<Entry<S>>)

  class World<S> {
    var state: S

    constructor (state: S)
      ensures this.state == state
    {
      this.state := state;
    }
  }

  // ---------- Interpreting the tree ----------

  /** Executes one entry; the inner entries of a group do not lead to their own next entries. */
  function ExecuteOne<S>(e: Entry<S>, s: S): (S, Outcome)
    decreases e, 1
  {
    match e
    case Leaf(act, _) => act(s)
    case Group(inner, _) => ExecuteAll(inner, s)
    case Choice(test, _, _) => (test(s).0, test(s).1)
  }

  function ExecuteAll<S>(entries: seq<Entry<S>>, s: S): (S, Outcome)
    decreases entries, 0
  {
    if entries == [] then (s, Done)
    else
      var (next, outcome) := ExecuteOne(entries[0], s);
      if outcome != Done then (next, outcome) else ExecuteAll(entries[1..], next)
  }

  /** The entry behind one that was executed in state `s`. */
  function NextOf<S>(e: Entry<S>, s: S): (next: Option<Entry<S>>)
    ensures next.Some? ==> next.value < e
  {
    match e
    case Leaf(_, next) => next
    case Group(_, next) => next
    case Choice(test, ifTrue, ifFalse) => if test(s).2 then ifTrue else ifFalse
  }

  function RunFrom<S>(e: Option<Entry<S>>, s: S): (S, Outcome)
    decreases e
  {
    if e.None? then (s, Done)
    else
      var (after, outcome) := ExecuteOne(e.value, s);
      if outcome != Done then (after, outcome) else RunFrom(NextOf(e.value, s), after)
  }

  method ExecuteEntry<S>(e: Entry<S>, world: World<S>) returns (outcome: Outcome, predicateResult: bool)
    modifies world
    ensures (world.state, outcome) == ExecuteOne(e, old(world.state))
    ensures e.Choice? ==> predicateResult == e.test(old(world.state)).2
    decreases e
  {
    predicateResult := false;
    match e
    case Leaf(act, _) =>
      var (after, end) := act(world.state);
      world.state, outcome := after, end;
    case Group(inner, _) =>
      outcome := Done;
      assert inner[0..] == inner;
      for i := 0 to |inner|
        invariant outcome == Done
        invariant ExecuteAll(inner[i..], world.state) == ExecuteAll(inner, old(world.state))
      {
        assert inner[i..][0] == inner[i] && inner[i..][1..] == inner[i + 1..];
        var ignored;
        outcome, ignored := ExecuteEntry(inner[i], world);
        if outcome != Done {
          return;
        }
      }
    case Choice(test, _, _) =>
      var (after, end, chosen) := test(world.state);
      world.state, outcome, predicateResult := after, end, chosen;
  }

  method RunTree<S>(root: Option<Entry<S>>, world: World<S>) returns (outcome: Outcome)
    modifies world
    ensures (world.state, outcome) == RunFrom(root, old(world.state))
  {
    var current := root;
    while current.Some?
      invariant RunFrom(current, world.state) == RunFrom(root, old(world.state))
      decreases current
    {
      ghost var before := world.state;
      var chosen;
      outcome, chosen := ExecuteEntry(current.value, world);
      if outcome != Done {
        return;
      }
      var next :=
        match current.value
        case Leaf(_, next) => next
        case Group(_, next) => next
        case Choice(_, ifTrue, ifFalse) => if chosen then ifTrue else ifFalse;
      assert next == NextOf(current.value, before);
      current := next;
    }
    outcome := Done;
  }

  // ---------- The straight-line program ----------

  /** The actions of one entry in the order of the text. */
  function Flat<S>(e: Entry<S>): seq<S -> (S, Outcome)>
    decreases e, 1
  {
    match e
    case Leaf(act, _) => [act]
    case Group(inner, _) => FlatAll(inner)
    case Choice(test, _, _) => [s => (test(s).0, test(s).1)]
  }

  function FlatAll<S>(entries: seq<Entry<S>>): seq<S -> (S, Outcome)>
    decreases entries, 0
  {
    if entries == [] then [] else Flat(entries[0]) + FlatAll(entries[1..])
  }

  /** Runs actions one after the other up to the first failure. */
  function Straight<S>(program: seq<S -> (S, Outcome)>, s: S): (S, Outcome) {
    if program == [] then (s, Done)
    else
      var (next, outcome) := program[0](s);
      if outcome != Done then (next, outcome) else Straight(program[1..], next)
  }

  /** The actions behind one another along the branches taken from state `s`. */
  function Program<S>(e: Option<Entry<S>>, s: S): seq<S -> (S, Outcome)>
    decreases e
  {
    if e.None? then []
    else Flat(e.value) + Program(NextOf(e.value, s), ExecuteOne(e.value, s).0)
  }

  lemma {:induction false} StraightConcat<S>(a: seq<S -> (S, Outcome)>, b: seq<S -> (S, Outcome)>, s: S)
    ensures Straight(a + b, s) ==
            var (next, outcome) := Straight(a, s);
            if outcome != Done then (next, outcome) else Straight(b, next)
  {
    if a == [] {
      assert a + b == b;
    } else {
      assert (a + b)[0] == a[0] && (a + b)[1..] == a[1..] + b;
      StraightConcat(a[1..], b, a[0](s).0);
    }
  }

  lemma {:induction false} OneIsFlat<S>(e: Entry<S>, s: S)
    ensures ExecuteOne(e, s) == Straight(Flat(e), s)
    decreases e, 1
  {
    match e
    case Group(inner, _) => AllIsFlat(inner, s);
    case _ => assert Flat(e)[1..] == [];
  }

  lemma {:induction false} AllIsFlat<S>(entries: seq<Entry<S>>, s: S)
    ensures ExecuteAll(entries, s) == Straight(FlatAll(entries), s)
    decreases entries, 0
  {
    if entries != [] {
      OneIsFlat(entries[0], s);
      AllIsFlat(entries[1..], ExecuteOne(entries[0], s).0);
      StraightConcat(Flat(entries[0]), FlatAll(entries[1..]), s);
    }
  }

  /** The tree runs as its straight-line program and stops at the first action that fails. */
  lemma {:induction false} TreeRunsStraight<S>(root: Option<Entry<S>>, s: S)
    ensures RunFrom(root, s) == Straight(Program(root, s), s)
    decreases root
  {
    if root.Some? {
      var after := ExecuteOne(root.value, s).0;
      OneIsFlat(root.value, s);
      TreeRunsStraight(NextOf(root.value, s), after);
      StraightConcat(Flat(root.value), Program(NextOf(root.value, s), after), s);
    }
  }

  // ---------- Attempts ----------

  datatype Result = SUCCESS | VIOLATION | NOT_FOUND | ERROR

  /** What the environment does in one attempt: the commit, with what it reports and whether it took effect, and the
      start of a new transaction, which may throw. */
  datatype Attempt<!S> = Attempt(commit: S -> (S, Outcome, bool), renew: S -> (S, bool))

  /** How one attempt went: what Execute saw, and whether its commit took effect. */
  datatype Tried = Tried(outcome: Outcome, took: bool)

  /** A commit that reports success took effect and one that reports a conflict or a violation did not; when the
      connection is lost in the middle or something else breaks, it may have. */
  ghost predicate Honest<S(!new)>(attempt: Attempt<S>) {
    forall s ::
      var (_, outcome, took) := attempt.commit(s);
      (outcome == Done ==> took) && (outcome in {Conflict, Violates, Missing} ==> !took)
  }

  ghost predicate AllHonest<S(!new)>(script: seq<Attempt<S>>) {
    forall attempt | attempt in script :: Honest(attempt)
  }

  /** Execute returns, or starting a new transaction throws, or every attempt of the script met a conflict. */
  datatype Ending = Returned(result: Result) | Threw | Retrying

  function TryOnce<S>(root: Option<Entry<S>>, s: S, attempt: Attempt<S>): (S, Tried) {
    var (after, outcome) := RunFrom(root, s);
    if outcome != Done then (after, Tried(outcome, false))
    else
      var (committed, end, took) := attempt.commit(after);
      (committed, Tried(end, took))
  }

  /** What the source catches, besides conflicts, decides the result. */
  function Decided(outcome: Outcome): Result
    requires outcome != Conflict
  {
    match outcome
    case Done => SUCCESS
    case Violates => VIOLATION
    case Missing => NOT_FOUND
    case InDoubt => ERROR
    case Broken => ERROR
  }

  /** The attempts from state `s` on, when `made` were made before. The task's own variables are not reset. */
  function Retried<S>(root: Option<Entry<S>>, s: S, script: seq<Attempt<S>>, commitAttempts: nat, made: nat): (Ending, seq<Tried>)
    decreases |script|
  {
    if script == [] then (Retrying, [])
    else
      var (after, tried) := TryOnce(root, s, script[0]);
      if tried.outcome != Conflict then (Returned(Decided(tried.outcome)), [tried])
      else
        var (renewed, ok) := script[0].renew(after);
        if !ok then (Threw, [tried])
        else if made + 1 == commitAttempts then (Returned(ERROR), [tried])
        else
          var (ending, all) := Retried(root, renewed, script[1..], commitAttempts, made + 1);
          (ending, [tried] + all)
  }

  method MakeAttempt<S>(root: Option<Entry<S>>, world: World<S>, attempt: Attempt<S>) returns (tried: Tried)
    modifies world
    ensures (world.state, tried) == TryOnce(root, old(world.state), attempt)
  {
    var outcome := RunTree(root, world);
    tried := Tried(outcome, false);
    if outcome == Done {
      var (after, end, took) := attempt.commit(world.state);
      world.state, tried := after, Tried(end, took);
    }
  }

  method Execute<S>(root: Option<Entry<S>>, world: World<S>, script: seq<Attempt<S>>, commitAttempts: nat)
    returns (ending: Ending, all: seq<Tried>)
    modifies world
    ensures if root.None? then ending == Returned(SUCCESS) && all == [] && world.state == old(world.state)
            else (ending, all) == Retried(root, old(world.state), script, commitAttempts, 0)
  {
    all := [];
    if root.None? {
      return Returned(SUCCESS), [];
    }
    ghost var whole := Retried(root, world.state, script, commitAttempts, 0);
    assert script[0..] == script && [] + whole.1 == whole.1;
    var attemptsRemaining := if commitAttempts == 0 then 1 else commitAttempts;
    for i := 0 to |script|
      invariant attemptsRemaining == (if commitAttempts == 0 then 1 else commitAttempts - i) > 0
      invariant ToCome(whole, all, Retried(root, world.state, script[i..], commitAttempts, i))
    {
      OneAttempt(root, world.state, script, commitAttempts, i, whole, all);
      var tried := MakeAttempt(root, world, script[i]);
      all := all + [tried];
      if tried.outcome != Conflict {
        return Returned(Decided(tried.outcome)), all;
      }
      var (renewed, ok) := script[i].renew(world.state);
      if !ok {
        return Threw, all;
      }
      world.state := renewed;
      if commitAttempts > 0 {
        attemptsRemaining := attemptsRemaining - 1;
      }
      if attemptsRemaining == 0 {
        return Returned(ERROR), all;
      }
    }
    assert all + [] == all;
    ending := Retrying;
  }

  /** The whole is what was seen and what is still to come. */
  ghost predicate ToCome(whole: (Ending, seq<Tried>), seen: seq<Tried>, rest: (Ending, seq<Tried>)) {
    whole == (rest.0, seen + rest.1)
  }

  lemma OneAttempt<S>(root: Option<Entry<S>>, s: S, script: seq<Attempt<S>>, commitAttempts: nat, i: nat,
                      whole: (Ending, seq<Tried>), seen: seq<Tried>)
    requires i < |script| && ToCome(whole, seen, Retried(root, s, script[i..], commitAttempts, i))
    ensures var (after, tried) := TryOnce(root, s, script[i]);
            if tried.outcome != Conflict then whole == (Returned(Decided(tried.outcome)), seen + [tried])
            else
              var (renewed, ok) := script[i].renew(after);
              if !ok then whole == (Threw, seen + [tried])
              else if i + 1 == commitAttempts then whole == (Returned(ERROR), seen + [tried])
              else ToCome(whole, seen + [tried], Retried(root, renewed, script[i + 1..], commitAttempts, i + 1))
  {
    var (after, tried) := TryOnce(root, s, script[i]);
    assert script[i..][0] == script[i] && script[i..][1..] == script[i + 1..];
    var rest := Retried(root, script[i].renew(after).0, script[i + 1..], commitAttempts, i + 1);
    assert seen + ([tried] + rest.1) == (seen + [tried]) + rest.1;
  }

  /** How many commits took effect. */
  function Effects(all: seq<Tried>): nat {
    if all == [] then 0 else (if all[0].took then 1 else 0) + Effects(all[1..])
  }

  /** Every attempt but the last met a conflict, and the last decides the result. A conflict ends it only when it was the
      last attempt allowed, or when no new transaction could be started. */
  lemma {:induction false} TheLastDecides<S(!new)>(root: Option<Entry<S>>, s: S, script: seq<Attempt<S>>,
                                                   commitAttempts: nat, made: nat)
    requires script != []
    ensures var (ending, all) := Retried(root, s, script, commitAttempts, made);
            && 0 < |all| <= |script| && (forall i | 0 <= i < |all| - 1 :: all[i].outcome == Conflict)
            && var last, renew := all[|all| - 1].outcome, script[|all| - 1].renew;
               && (ending == Returned(SUCCESS) <==> last == Done)
               && (ending == Returned(VIOLATION) <==> last == Violates)
               && (ending == Returned(NOT_FOUND) <==> last == Missing)
               && (ending == Returned(ERROR) <==>
                     last in {InDoubt, Broken} || (last == Conflict && made + |all| == commitAttempts && ending != Threw))
               && (ending == Retrying ==> last == Conflict && |all| == |script| && made + |all| != commitAttempts)
               && (ending == Threw ==> last == Conflict && exists t :: !renew(t).1)
               && (last == Conflict && (forall t :: !renew(t).1) ==> ending == Threw)
    decreases |script|
  {
    var (after, tried) := TryOnce(root, s, script[0]);
    var (ending, all) := Retried(root, s, script, commitAttempts, made);
    if |all| > 1 && |script| > 1 {
      TheLastDecides(root, script[0].renew(after).0, script[1..], commitAttempts, made + 1);
      var rest := Retried(root, script[0].renew(after).0, script[1..], commitAttempts, made + 1).1;
      assert all == [tried] + rest && all[|all| - 1] == rest[|rest| - 1];
      assert script[1..][|rest| - 1] == script[|all| - 1];
    }
  }

  /** At most `commitAttempts` attempts when that is positive, and an answer as soon as the environment allows for them. */
  lemma {:induction false} AttemptsAreLimited<S>(root: Option<Entry<S>>, s: S, script: seq<Attempt<S>>,
                                                 commitAttempts: nat, made: nat)
    ensures var (ending, all) := Retried(root, s, script, commitAttempts, made);
            && |all| <= |script|
            && (made < commitAttempts ==> made + |all| <= commitAttempts)
            && (made < commitAttempts <= made + |script| ==> ending != Retrying)
    decreases |script|
  {
    if script != [] {
      var after := TryOnce(root, s, script[0]).0;
      AttemptsAreLimited(root, script[0].renew(after).0, script[1..], commitAttempts, made + 1);
    }
  }

  lemma HonestTry<S(!new)>(root: Option<Entry<S>>, s: S, attempt: Attempt<S>)
    requires Honest(attempt)
    ensures var tried := TryOnce(root, s, attempt).1;
            (tried.outcome == Done ==> tried.took) && (tried.outcome in {Conflict, Violates, Missing} ==> !tried.took)
  {
    var (after, outcome) := RunFrom(root, s);
    if outcome == Done {
      var (_, end, took) := attempt.commit(after);
    }
  }

  /** Over all attempts at most one commit takes effect: exactly one on SUCCESS, none on VIOLATION or NOT_FOUND, when a
      new transaction cannot be started and while still retrying; on ERROR one exactly when the last attempt's commit
      took effect although it did not report so. */
  lemma {:induction false} OneEffectAtMost<S(!new)>(root: Option<Entry<S>>, s: S, script: seq<Attempt<S>>,
                                                    commitAttempts: nat, made: nat)
    requires AllHonest(script)
    ensures var (ending, all) := Retried(root, s, script, commitAttempts, made);
            && Effects(all) <= 1
            && (ending == Returned(SUCCESS) ==> Effects(all) == 1)
            && (ending in {Returned(VIOLATION), Returned(NOT_FOUND), Threw, Retrying} ==> Effects(all) == 0)
            && (ending == Returned(ERROR) ==>
                  (Effects(all) == 1 <==> all[|all| - 1].took && all[|all| - 1].outcome in {InDoubt, Broken}))
    decreases |script|
  {
    if script != [] {
      assert script[0] in script && forall attempt | attempt in script[1..] :: attempt in script;
      HonestTry(root, s, script[0]);
      TheLastDecides(root, s, script, commitAttempts, made);
      var (after, tried) := TryOnce(root, s, script[0]);
      var (ending, all) := Retried(root, s, script, commitAttempts, made);
      assert [tried][1..] == [];
      if |all| > 1 {
        OneEffectAtMost(root, script[0].renew(after).0, script[1..], commitAttempts, made + 1);
        var rest := Retried(root, script[0].renew(after).0, script[1..], commitAttempts, made + 1);
        assert all[1..] == rest.1;
      }
    }
  }

  /** An ERROR after a lost connection may hide a committed transaction. */
  lemma ErrorMayHaveCommitted<S(!new)>(s: S)
    ensures var stay: S -> (S, Outcome) := t => (t, Done);
            var lost: Attempt<S> := Attempt(t => (t, InDoubt, true), t => (t, true));
            Honest(lost) &&
            var (ending, all) := Retried(Some(Leaf(stay, None)), s, [lost], 1, 0);
            ending == Returned(ERROR) && Effects(all) == 1
  {
    var stay: S -> (S, Outcome) := t => (t, Done);
    var lost: Attempt<S> := Attempt(t => (t, InDoubt, true), t => (t, true));
    assert NextOf(Leaf(stay, None), s) == None;
    var tried := TryOnce(Some(Leaf(stay, None)), s, lost).1;
    assert [tried][1..] == [];
  }
}
