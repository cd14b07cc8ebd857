/** After-hooks raised inside nested plugin transactions
    (application_context/plugin_transaction.go): queued per transaction, forwarded when a
    savepoint is released, dropped on rollback, dispatched by the outermost commit. */
module DeferredHooks {

  /** Who is writing: the acting user and the plugins already running on its behalf. */
  datatype Invocation = Invocation(actor: nat, chain: seq<string>, inTransaction: bool)

  /** One stored row, with the event its after-hook announces. */
  datatype Entry = Entry(actor: nat, chain: seq<string>, event: string, data: int)

  datatype HookCall = HookCall(inv: Invocation, event: string, data: int)

  /** What a plugin's Lua does, statement by statement. A write that fails comes back as a
      value, which the script rethrows or ignores; whether a failed statement poisons the
      transaction depends on the database. `raises` is an error at the end of a block, and
      `commits` whether the database accepts the commit of an outermost one. */
  datatype Op =
    | Write(entry: Entry, rethrows: bool)
    | BadWrite(poisons: bool, rethrows: bool)
    | Block(body: seq<Op>, raises: bool, commits: bool, rethrows: bool)

  datatype Event = Durable(entry: Entry) | Dispatched(call: HookCall)

  function Detached(inv: Invocation): Invocation {
    inv.(inTransaction := false)
  }

  /** The notification a write is owed: to the chain that raised it, outside any transaction. */
  function HookOf(entry: Entry): HookCall {
    HookCall(Invocation(entry.actor, entry.chain, false), entry.event, entry.data)
  }

  function HooksOf(entries: seq<Entry>): (calls: seq<HookCall>)
    ensures |calls| == |entries| && forall i :: 0 <= i < |calls| ==> calls[i] == HookOf(entries[i])
  {
    seq(|entries|, i requires 0 <= i < |entries| => HookOf(entries[i]))
  }

  lemma HooksOfConcat(a: seq<Entry>, b: seq<Entry>)
    ensures HooksOf(a + b) == HooksOf(a) + HooksOf(b)
  {
  }

  // ---- the reference: which writes survive ----

  /** A running transaction: its surviving writes so far, whether the database has aborted
      it, and whether the script has raised. */
  datatype Tx = Tx(writes: seq<Entry>, aborted: bool, raised: bool)

  function Eval(ops: seq<Op>): Tx
    decreases ops, 0
  {
    if ops == [] then Tx([], false, false) else StepOp(Eval(ops[..|ops| - 1]), ops[|ops| - 1])
  }

  lemma EvalOneMore(ops: seq<Op>, i: nat)
    requires i < |ops|
    ensures Eval(ops[..i + 1]) == StepOp(Eval(ops[..i]), ops[i])
  {
    assert ops[..i + 1][..i] == ops[..i];
  }

  predicate Succeeds(body: seq<Op>, raises: bool)
    decreases body, 1
  {
    !Eval(body).raised && !raises && !Eval(body).aborted
  }

  function StepOp(tx: Tx, op: Op): Tx
    decreases op, 0
  {
    if tx.raised then tx
    else
      match op
      case Write(entry, rethrows) =>
        if tx.aborted then tx.(raised := rethrows) else tx.(writes := tx.writes + [entry])
      case BadWrite(poisons, rethrows) => tx.(aborted := tx.aborted || poisons, raised := rethrows)
      case Block(body, raises, _, rethrows) =>
        if !tx.aborted && Succeeds(body, raises) then tx.(writes := tx.writes + Eval(body).writes)
        else tx.(raised := rethrows)
  }

  lemma BlockAlone(aborted: bool, body: seq<Op>, raises: bool, commits: bool, rethrows: bool)
    ensures var tx := Eval(body);
      StepOp(Tx([], aborted, false), Block(body, raises, commits, rethrows)) ==
        if !aborted && !raises && !tx.raised && !tx.aborted then Tx(tx.writes, false, false)
        else Tx([], aborted, rethrows)
  {
  }

  lemma WriteAlone(aborted: bool, entry: Entry, rethrows: bool)
    ensures StepOp(Tx([], aborted, false), Write(entry, rethrows)) ==
        if aborted then Tx([], true, rethrows) else Tx([entry], false, false)
    ensures HooksOf([entry]) == [HookCall(Invocation(entry.actor, entry.chain, false), entry.event, entry.data)]
    ensures HooksOf([]) == []
  {
  }

  lemma StepAppends(tx: Tx, op: Op)
    requires !tx.raised
    ensures var alone := StepOp(Tx([], tx.aborted, false), op);
      StepOp(tx, op) == Tx(tx.writes + alone.writes, alone.aborted, alone.raised)
  {
  }

  lemma StepAppendsHooks(tx: Tx, op: Op, alone: Tx, next: Tx)
    requires !tx.raised && alone == StepOp(Tx([], tx.aborted, false), op) && next == StepOp(tx, op)
    ensures next.raised == alone.raised && next.aborted == alone.aborted
    ensures next.writes == tx.writes + alone.writes
    ensures HooksOf(next.writes) == HooksOf(tx.writes) + HooksOf(alone.writes)
  {
    StepAppends(tx, op);
    HooksOfConcat(tx.writes, alone.writes);
  }

  /** What a whole script leaves behind: every durable write and every dispatched hook. */
  datatype Outcome = Outcome(log: seq<Event>, raised: bool)

  function Durables(entries: seq<Entry>): (events: seq<Event>)
    ensures |events| == |entries| && forall i :: 0 <= i < |events| ==> events[i] == Durable(entries[i])
  {
    seq(|entries|, i requires 0 <= i < |entries| => Durable(entries[i]))
  }

  function Dispatches(calls: seq<HookCall>): (events: seq<Event>)
    ensures |events| == |calls| && forall i :: 0 <= i < |events| ==> events[i] == Dispatched(calls[i])
  {
    seq(|calls|, i requires 0 <= i < |calls| => Dispatched(calls[i]))
  }

  function Run(ops: seq<Op>): Outcome {
    if ops == [] then Outcome([], false) else StepTop(Run(ops[..|ops| - 1]), ops[|ops| - 1])
  }

  function StepTop(o: Outcome, op: Op): Outcome {
    if o.raised then o
    else
      match op
      case Write(entry, _) => o.(log := o.log + [Durable(entry), Dispatched(HookOf(entry))])
      case BadWrite(_, rethrows) => o.(raised := rethrows)
      case Block(body, raises, commits, rethrows) =>
        if Succeeds(body, raises) && commits then
          var writes := Eval(body).writes;
          o.(log := o.log + Durables(writes) + Dispatches(HooksOf(writes)))
        else o.(raised := rethrows)
  }

  // ---- the queue and the transactions ----

  class DeferredPluginHooks {
    var calls: seq<HookCall>

    constructor ()
      ensures calls == []
    {
      calls := [];
    }

    /** Detached when queued: the chain survives, the transaction binding does not. */
    method Add(inv: Invocation, event: string, data: int)
      modifies this
      ensures calls == old(calls) + [HookCall(Invocation(inv.actor, inv.chain, false), event, data)]
    {
      calls := calls + [HookCall(Detached(inv), event, data)];
    }

    /** Hands the queue outwards, or dispatches it when there is no outer transaction. */
    method Drain(host: Host, outer: DeferredPluginHooks?)
      requires outer != this
      modifies this, host`log, outer
      ensures calls == []
      ensures outer != null ==> outer.calls == old(outer.calls) + old(calls) && host.log == old(host.log)
      ensures outer == null ==> host.log == old(host.log) + Dispatches(old(calls))
    {
      var mine := calls;
      calls := [];
      if outer != null {
        outer.calls := outer.calls + mine;
        return;
      }
      for i := 0 to |mine|
        invariant calls == [] && host.log == old(host.log) + Dispatches(mine[..i])
      {
        assert Dispatches(mine[..i + 1]) == Dispatches(mine[..i]) + [Dispatched(mine[i])];
        host.log := host.log + [Dispatched(mine[i])];
      }
      assert mine[..|mine|] == mine;
    }
  }

  /** The database connection and the world that hears the hooks. */
  class Host {
    var pending: seq<Entry>
    var aborted: bool
    var log: seq<Event>

    constructor ()
      ensures pending == [] && !aborted && log == []
    {
      pending, aborted, log := [], false, [];
    }

    /** A nested block. Its savepoint is refused on an aborted transaction; it never
        reports success while the transaction is aborted; and what it adds to the outer
        queue is, write for write, what it adds to the open transaction. */
    method RunNested(body: seq<Op>, raises: bool, outer: DeferredPluginHooks) returns (ok: bool)
      modifies this`pending, this`aborted, this`log, outer
      ensures ok <==> !old(aborted) && !raises && !Eval(body).raised && !Eval(body).aborted
      ensures ok ==> !aborted
      ensures aborted == old(aborted) && log == old(log)
      ensures pending == old(pending) + if ok then Eval(body).writes else []
      ensures outer.calls == old(outer.calls) + if ok then HooksOf(Eval(body).writes) else []
      decreases body, 1
    {
      if aborted {
        return false;
      }
      var mark := |pending|;
      var queue := new DeferredPluginHooks();
      var raised := RunBody(body, queue);
      if raised || raises || aborted {
        pending, aborted := pending[..mark], false;
        return false;
      }
      queue.Drain(this, outer);
      ok := true;
    }

    /** The statements of one block, in a transaction that is open and not aborted. */
    method RunBody(ops: seq<Op>, queue: DeferredPluginHooks) returns (raised: bool)
      requires !aborted
      modifies this`pending, this`aborted, this`log, queue
      ensures raised == Eval(ops).raised && aborted == Eval(ops).aborted && log == old(log)
      ensures pending == old(pending) + Eval(ops).writes
      ensures queue.calls == old(queue.calls) + HooksOf(Eval(ops).writes)
      decreases ops, 0
    {
      raised := false;
      ghost var base, calls := pending, queue.calls;
      for i := 0 to |ops|
        invariant raised == Eval(ops[..i]).raised && aborted == Eval(ops[..i]).aborted && log == old(log)
        invariant pending == base + Eval(ops[..i]).writes
        invariant queue.calls == calls + HooksOf(Eval(ops[..i]).writes)
      {
        EvalOneMore(ops, i);
        if raised {
          continue;
        }
        raised := RunNext(ops[i], queue, Eval(ops[..i]), Eval(ops[..i + 1]), base, calls);
      }
      assert ops[..|ops|] == ops;
    }

    /** One statement, in terms of the whole transaction before and after it. */
    method RunNext(op: Op, queue: DeferredPluginHooks, ghost tx: Tx, ghost next: Tx,
      ghost base: seq<Entry>, ghost calls: seq<HookCall>) returns (raised: bool)
      requires next == StepOp(tx, op) && !tx.raised && aborted == tx.aborted
      requires pending == base + tx.writes && queue.calls == calls + HooksOf(tx.writes)
      modifies this`pending, this`aborted, this`log, queue
      ensures raised == next.raised && aborted == next.aborted && log == old(log)
      ensures pending == base + next.writes && queue.calls == calls + HooksOf(next.writes)
      decreases op, 1
    {
      ghost var alone := StepOp(Tx([], aborted, false), op);
      StepAppendsHooks(tx, op, alone, next);
      raised := RunOp(op, queue, alone);
    }

    method RunOp(op: Op, queue: DeferredPluginHooks, ghost alone: Tx) returns (raised: bool)
      requires alone == StepOp(Tx([], aborted, false), op)
      modifies this`pending, this`aborted, this`log, queue
      ensures raised == alone.raised && aborted == alone.aborted && log == old(log)
      ensures pending == old(pending) + alone.writes && queue.calls == old(queue.calls) + HooksOf(alone.writes)
      decreases op, 0
    {
      raised := false;
      match op
      case Write(entry, rethrows) =>
        WriteAlone(aborted, entry, rethrows);
        if aborted {
          raised := rethrows;
        } else {
          pending := pending + [entry];
          queue.Add(Invocation(entry.actor, entry.chain, true), entry.event, entry.data);
        }
      case BadWrite(poisons, rethrows) =>
        aborted := aborted || poisons;
        raised := rethrows;
      case Block(body, raises, commits, rethrows) =>
        BlockAlone(aborted, body, raises, commits, rethrows);
        var ok := RunNested(body, raises, queue);
        raised := !ok && rethrows;
    }

    /** An outermost block: nothing is dispatched until everything is durable. */
    method RunInTransaction(body: seq<Op>, raises: bool, commits: bool) returns (ok: bool)
      requires pending == [] && !aborted
      modifies this
      ensures pending == [] && !aborted
      ensures ok <==> !raises && !Eval(body).raised && !Eval(body).aborted && commits
      ensures log == old(log) +
        if ok then Durables(Eval(body).writes) + Dispatches(HooksOf(Eval(body).writes)) else []
    {
      var queue := new DeferredPluginHooks();
      var raised := RunBody(body, queue);
      if raised || raises || aborted || !commits {
        pending, aborted := [], false;
        return false;
      }
      log := log + Durables(pending);
      pending := [];
      queue.Drain(this, null);
      ok := true;
    }

    /** A plugin's script: outside a transaction a write is announced as soon as it is made. */
    method RunScript(ops: seq<Op>) returns (raised: bool)
      requires pending == [] && !aborted && log == []
      modifies this
      ensures pending == [] && !aborted
      ensures log == Run(ops).log && raised == Run(ops).raised
    {
      raised := false;
      for i := 0 to |ops|
        invariant pending == [] && !aborted
        invariant log == Run(ops[..i]).log && raised == Run(ops[..i]).raised
      {
        assert ops[..i + 1][..i] == ops[..i];
        if raised {
          continue;
        }
        match ops[i]
        case Write(entry, _) =>
          log := log + [Durable(entry)];
          log := log + [Dispatched(HookOf(entry))];
        case BadWrite(_, rethrows) =>
          raised := rethrows;
        case Block(body, raises, commits, rethrows) =>
          var ok := RunInTransaction(body, raises, commits);
          raised := !ok && rethrows;
      }
      assert ops[..|ops|] == ops;
    }
  }

  // ---- what the log says ----

  function DurableIn(log: seq<Event>): seq<Entry> {
    if log == [] then []
    else
      var last := log[|log| - 1];
      DurableIn(log[..|log| - 1]) + if last.Durable? then [last.entry] else []
  }

  function DispatchedIn(log: seq<Event>): seq<HookCall> {
    if log == [] then []
    else
      var last := log[|log| - 1];
      DispatchedIn(log[..|log| - 1]) + if last.Dispatched? then [last.call] else []
  }

  /** At this point of the log every hook so far announced a write that was durable, each
      once and in the order of the writes. */
  predicate Announced(log: seq<Event>) {
    DispatchedIn(log) <= HooksOf(DurableIn(log))
  }

  lemma {:induction false} LogConcat(a: seq<Event>, b: seq<Event>)
    ensures DurableIn(a + b) == DurableIn(a) + DurableIn(b)
    ensures DispatchedIn(a + b) == DispatchedIn(a) + DispatchedIn(b)
  {
    if b == [] {
      assert a + b == a;
    } else {
      LogConcat(a, b[..|b| - 1]);
      assert (a + b)[..|a + b| - 1] == a + b[..|b| - 1];
    }
  }

  lemma {:induction false} LogOfDurables(entries: seq<Entry>)
    ensures DurableIn(Durables(entries)) == entries && DispatchedIn(Durables(entries)) == []
  {
    if entries != [] {
      var init := entries[..|entries| - 1];
      LogOfDurables(init);
      assert Durables(entries)[..|entries| - 1] == Durables(init);
      assert entries == init + [entries[|entries| - 1]];
    }
  }

  lemma {:induction false} LogOfDispatches(calls: seq<HookCall>)
    ensures DurableIn(Dispatches(calls)) == [] && DispatchedIn(Dispatches(calls)) == calls
  {
    if calls != [] {
      var init := calls[..|calls| - 1];
      LogOfDispatches(init);
      assert Dispatches(calls)[..|calls| - 1] == Dispatches(init);
      assert calls == init + [calls[|calls| - 1]];
    }
  }

  /** A batch of durable writes followed by their hooks, cut anywhere. */
  lemma BatchPrefix(log: seq<Event>, entries: seq<Entry>, k: nat)
    requires DispatchedIn(log) == HooksOf(DurableIn(log)) && k <= 2 * |entries|
    ensures Announced(log + (Durables(entries) + Dispatches(HooksOf(entries)))[..k])
  {
    var n := |entries|;
    var batch := Durables(entries) + Dispatches(HooksOf(entries));
    if k <= n {
      assert batch[..k] == Durables(entries[..k]);
      SomeDurable(log, entries[..k]);
    } else {
      assert batch[..k] == Durables(entries) + Dispatches(HooksOf(entries)[..k - n]);
      SomeDispatched(log, entries, HooksOf(entries)[..k - n]);
    }
  }

  lemma SomeDurable(log: seq<Event>, entries: seq<Entry>)
    requires DispatchedIn(log) == HooksOf(DurableIn(log))
    ensures Announced(log + Durables(entries))
  {
    LogConcat(log, Durables(entries));
    LogOfDurables(entries);
    HooksOfConcat(DurableIn(log), entries);
    assert DispatchedIn(log + Durables(entries)) == DispatchedIn(log);
  }

  lemma SomeDispatched(log: seq<Event>, entries: seq<Entry>, calls: seq<HookCall>)
    requires DispatchedIn(log) == HooksOf(DurableIn(log)) && calls <= HooksOf(entries)
    ensures Announced(log + (Durables(entries) + Dispatches(calls)))
  {
    BatchSays(log, entries, calls);
    HooksOfConcat(DurableIn(log), entries);
    PrefixAppend(DispatchedIn(log), calls, HooksOf(entries));
  }

  lemma BatchSays(log: seq<Event>, entries: seq<Entry>, calls: seq<HookCall>)
    ensures var longer := log + (Durables(entries) + Dispatches(calls));
      DurableIn(longer) == DurableIn(log) + entries && DispatchedIn(longer) == DispatchedIn(log) + calls
  {
    LogConcat(log, Durables(entries) + Dispatches(calls));
    BatchAlone(entries, calls);
  }

  lemma BatchAlone(entries: seq<Entry>, calls: seq<HookCall>)
    ensures DurableIn(Durables(entries) + Dispatches(calls)) == entries
    ensures DispatchedIn(Durables(entries) + Dispatches(calls)) == calls
  {
    LogConcat(Durables(entries), Dispatches(calls));
    LogOfDurables(entries);
    LogOfDispatches(calls);
  }

  lemma PrefixAppend(a: seq<HookCall>, b: seq<HookCall>, c: seq<HookCall>)
    requires b <= c
    ensures a + b <= a + c
  {
  }

  lemma BatchWhole(log: seq<Event>, entries: seq<Entry>)
    requires DispatchedIn(log) == HooksOf(DurableIn(log))
    ensures var longer := log + (Durables(entries) + Dispatches(HooksOf(entries)));
      DispatchedIn(longer) == HooksOf(DurableIn(longer))
  {
    BatchSays(log, entries, HooksOf(entries));
    HooksOfConcat(DurableIn(log), entries);
  }

  /** What one statement adds to the log. */
  lemma StepAdds(o: Outcome, op: Op) returns (writes: seq<Entry>)
    ensures StepTop(o, op).log == o.log + (Durables(writes) + Dispatches(HooksOf(writes)))
  {
    writes :=
      if o.raised || op.BadWrite? then [] else if op.Write? then [op.entry]
      else if Succeeds(op.body, op.raises) && op.commits then Eval(op.body).writes else [];
  }

  /** A notification of this write, to the chain that raised it, outside any transaction. */
  predicate Announces(call: HookCall, entry: Entry) {
    && call.inv.actor == entry.actor && call.inv.chain == entry.chain && !call.inv.inTransaction
    && call.event == entry.event && call.data == entry.data
  }

  /** The dispatched hooks of a script are exactly those of its durable writes, in order
      and with the chains that raised them. */
  lemma {:induction false} HooksAreOfDurableWrites(ops: seq<Op>)
    ensures DispatchedIn(Run(ops).log) == HooksOf(DurableIn(Run(ops).log))
    ensures |DispatchedIn(Run(ops).log)| == |DurableIn(Run(ops).log)|
    ensures forall i :: 0 <= i < |DurableIn(Run(ops).log)| ==>
      Announces(DispatchedIn(Run(ops).log)[i], DurableIn(Run(ops).log)[i])
  {
    if ops != [] {
      var init := ops[..|ops| - 1];
      HooksAreOfDurableWrites(init);
      var writes := StepAdds(Run(init), ops[|ops| - 1]);
      BatchWhole(Run(init).log, writes);
    }
  }

  lemma PrefixOfSum(a: seq<Event>, b: seq<Event>, k: nat)
    requires k <= |a + b|
    ensures (a + b)[..k] == if k <= |a| then a[..k] else a + b[..k - |a|]
  {
  }

  lemma BatchStaysAnnounced(log: seq<Event>, entries: seq<Entry>, k: nat)
    requires DispatchedIn(log) == HooksOf(DurableIn(log))
    requires |log| <= k <= |log + (Durables(entries) + Dispatches(HooksOf(entries)))|
    ensures Announced((log + (Durables(entries) + Dispatches(HooksOf(entries))))[..k])
  {
    BatchPrefix(log, entries, k - |log|);
    PrefixOfSum(log, Durables(entries) + Dispatches(HooksOf(entries)), k);
  }

  /** And no hook is ever early: at every point of the run, what has been announced is a
      prefix of what is durable. */
  lemma {:induction false} NothingAnnouncedEarly(ops: seq<Op>, k: nat)
    requires k <= |Run(ops).log|
    ensures Announced(Run(ops).log[..k])
  {
    if ops != [] {
      var init := ops[..|ops| - 1];
      var writes := StepAdds(Run(init), ops[|ops| - 1]);
      if k <= |Run(init).log| {
        NothingAnnouncedEarly(init, k);
        PrefixOfSum(Run(init).log, Durables(writes) + Dispatches(HooksOf(writes)), k);
      } else {
        HooksAreOfDurableWrites(init);
        BatchStaysAnnounced(Run(init).log, writes, k);
      }
    }
  }

  // ---- nothing is lost without a failure ----

  /** No statement fails, no block raises, and every commit is accepted. */
  predicate Flawless(op: Op) {
    match op
    case Write(_, _) => true
    case BadWrite(_, _) => false
    case Block(body, raises, commits, _) => !raises && commits && forall o :: o in body ==> Flawless(o)
  }

  lemma {:induction false} FlawlessBodyKeepsAll(ops: seq<Op>)
    requires forall o :: o in ops ==> Flawless(o)
    ensures Eval(ops) == Tx(WritesIn(ops), false, false)
    decreases ops
  {
    if ops != [] {
      var init, op := ops[..|ops| - 1], ops[|ops| - 1];
      assert op in ops;
      FlawlessBodyKeepsAll(init);
      if op.Block? {
        assert Flawless(op);
        FlawlessBodyKeepsAll(op.body);
      }
      FlawlessStep(Eval(init), op);
    }
  }

  lemma FlawlessStep(tx: Tx, op: Op)
    requires Flawless(op) && !tx.raised && !tx.aborted
    requires op.Block? ==> Eval(op.body) == Tx(WritesIn(op.body), false, false)
    ensures StepOp(tx, op) == Tx(tx.writes + WritesOf(op), false, false)
  {
  }

  lemma FlawlessTopStep(o: Outcome, op: Op)
    requires Flawless(op) && !o.raised
    requires op.Block? ==> Eval(op.body) == Tx(WritesIn(op.body), false, false)
    ensures var writes := WritesOf(op);
      StepTop(o, op) == Outcome(o.log + (Durables(writes) + Dispatches(HooksOf(writes))), false)
  {
  }

  /** A script in which nothing fails raises nothing, and every write it makes, however
      deeply nested, becomes durable and is announced: to its actor and chain, detached. */
  lemma {:induction false} NothingIsLost(ops: seq<Op>)
    requires forall o :: o in ops ==> Flawless(o)
    ensures !Run(ops).raised && DurableIn(Run(ops).log) == WritesIn(ops)
    ensures |DispatchedIn(Run(ops).log)| == |WritesIn(ops)|
    ensures forall i :: 0 <= i < |WritesIn(ops)| ==> Announces(DispatchedIn(Run(ops).log)[i], WritesIn(ops)[i])
  {
    FlawlessRun(ops);
    HooksAreOfDurableWrites(ops);
  }

  lemma {:induction false} FlawlessRun(ops: seq<Op>)
    requires forall o :: o in ops ==> Flawless(o)
    ensures !Run(ops).raised && DurableIn(Run(ops).log) == WritesIn(ops)
  {
    if ops != [] {
      var init, op := ops[..|ops| - 1], ops[|ops| - 1];
      assert op in ops;
      FlawlessRun(init);
      if op.Block? {
        assert Flawless(op);
        FlawlessBodyKeepsAll(op.body);
      }
      FlawlessTopStep(Run(init), op);
      BatchSays(Run(init).log, WritesOf(op), HooksOf(WritesOf(op)));
    }
  }

  // ---- program order ----

  function WritesIn(ops: seq<Op>): seq<Entry> {
    if ops == [] then [] else WritesIn(ops[..|ops| - 1]) + WritesOf(ops[|ops| - 1])
  }

  function WritesOf(op: Op): seq<Entry> {
    match op
    case Write(entry, _) => [entry]
    case BadWrite(_, _) => []
    case Block(body, _, _, _) => WritesIn(body)
  }

  /** a is b with some elements left out. */
  predicate Subsequence(a: seq<Entry>, b: seq<Entry>) {
    a == [] || (b != [] &&
    (Subsequence(a, b[..|b| - 1]) || (a[|a| - 1] == b[|b| - 1] && Subsequence(a[..|a| - 1], b[..|b| - 1]))))
  }

  lemma {:induction false} SubsequenceConcat(a: seq<Entry>, b: seq<Entry>, c: seq<Entry>, d: seq<Entry>)
    requires Subsequence(a, b) && Subsequence(c, d)
    ensures Subsequence(a + c, b + d)
    decreases |d|
  {
    if d == [] {
      assert a + c == a && b + d == b;
    } else if a + c != [] {
      var shorter := d[..|d| - 1];
      assert (b + d)[..|b + d| - 1] == b + shorter;
      if Subsequence(c, shorter) {
        SubsequenceConcat(a, b, c, shorter);
      } else {
        SubsequenceConcat(a, b, c[..|c| - 1], shorter);
        assert (a + c)[..|a + c| - 1] == a + c[..|c| - 1];
      }
    }
  }

  /** What a block leaves behind is some of its writes, in the order it made them. */
  lemma {:induction false} SurvivorsInOrder(ops: seq<Op>)
    ensures Subsequence(Eval(ops).writes, WritesIn(ops))
    decreases ops
  {
    if ops != [] {
      var init, op := ops[..|ops| - 1], ops[|ops| - 1];
      SurvivorsInOrder(init);
      var tx := Eval(init);
      var more :=
        if tx.raised || tx.aborted || op.BadWrite? then [] else if op.Write? then [op.entry]
        else if Succeeds(op.body, op.raises) then Eval(op.body).writes else [];
      if op.Block? { SurvivorsInOrder(op.body); }
      assert Eval(ops).writes == Eval(init).writes + more;
      assert op.Write? && more != [] ==> more == [op.entry] && Subsequence(more[..0], WritesOf(op)[..0]);
      SubsequenceConcat(Eval(init).writes, WritesIn(init), more, WritesOf(op));
    }
  }

  /** What a statement makes durable is some of its own writes, in order. */
  lemma StepDurable(o: Outcome, op: Op) returns (writes: seq<Entry>)
    ensures StepTop(o, op).log == o.log + (Durables(writes) + Dispatches(HooksOf(writes)))
    ensures Subsequence(writes, WritesOf(op))
  {
    if o.raised || op.BadWrite? {
      writes := [];
    } else if op.Write? {
      writes := [op.entry];
      assert Subsequence(writes[..0], WritesOf(op)[..0]);
    } else {
      writes := if Succeeds(op.body, op.raises) && op.commits then Eval(op.body).writes else [];
      SurvivorsInOrder(op.body);
    }
  }

  /** The durable writes of a script, and so its hooks, follow program order. */
  lemma {:induction false} DurableInProgramOrder(ops: seq<Op>)
    ensures Subsequence(DurableIn(Run(ops).log), WritesIn(ops))
  {
    if ops != [] {
      var init, op := ops[..|ops| - 1], ops[|ops| - 1];
      DurableInProgramOrder(init);
      var writes := StepDurable(Run(init), op);
      BatchSays(Run(init).log, writes, HooksOf(writes));
      SubsequenceConcat(DurableIn(Run(init).log), WritesIn(init), writes, WritesOf(op));
    }
  }
}
