/** The protocol does not refuse what it should allow: with nobody else running, a task that succeeds commits. */
module Progress {
  import opened Wrappers
  import opened Tables
  import opened Tasks
  import opened Isolation

  lemma PlayMore(events: seq<Event>, event: Event)
    requires Play(events).Some?
    ensures Play(events + [event]) == Next(Play(events).value, event)
  {
    assert (events + [event])[..|events|] == events;
  }

  /** A lone transaction on an unchanged snapshot gets every row it asks for. */
  lemma {:induction false} LockAll(events: seq<Event>, txn: nat, me: Txn, keys: set<Key>) returns (locked: seq<Event>)
    requires Play(events).Some? && Play(events).value.active == map[txn := me] && me.start == Play(events).value.now
    ensures Play(locked) == Some(Play(events).value.(active := map[txn := me.(locks := me.locks + keys)]))
    decreases |keys|
  {
    if key :| key in keys {
      var s := Play(events).value;
      var more := me.(locks := me.locks + {key});
      PlayMore(events, Write(txn, key));
      assert !Held(s, txn, key);
      assert s.active[txn := more] == map[txn := more];
      locked := LockAll(events + [Write(txn, key)], txn, more, keys - {key});
      assert more.locks + (keys - {key}) == me.locks + keys;
    } else {
      assert me.locks + keys == me.locks;
      locked := events;
    }
  }

  /** After any run that leaves no transaction open, a task that succeeds on the committed tables can be run to its
      commit, and it leaves exactly its outcome. */
  lemma EveryTaskCanCommit(events: seq<Event>, txn: nat, task: Task, ids: Ids) returns (done: seq<Event>)
    requires Play(events).Some? && Play(events).value.active == map[]
    requires Fits(task, ids) && Drawable(Play(events).value, ids) && Run(Play(events).value.now.db, task, ids).Success?
    ensures Play(done).Some? && Play(done).value.active == map[]
    ensures Play(done).value.history == Play(events).value.history + [Stocked(task, ids)]
    ensures Play(done).value.usedInvoices == Play(events).value.usedInvoices + {ids.invoice}
    ensures Play(done).value.usedProducts == Play(events).value.usedProducts + set id | id in ids.products
    ensures Play(done).value.now.db == Settled(Run(Play(events).value.now.db, task, ids).value)
  {
    hide Run, Replay;
    var s := Play(events).value;
    var me := Txn(task, ids, s.now, {});
    var final := Run(s.now.db, task, ids).value;
    PlayMore(events, Begin(txn, task, ids));
    assert s.active[txn := me] == map[txn := me];
    var locked := LockAll(events + [Begin(txn, task, ids)], txn, me, final.dirty);
    PlayMore(locked, Commit(txn));
    done := locked + [Commit(txn)];
    assert Play(done).value.active == map[];
    EveryRunIsSerial(events);
    EveryRunIsSerial(done);
    ReplayStep(s.history, Stocked(task, ids));
  }
}
