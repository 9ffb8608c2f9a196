/** The sequential worker refines the outbox protocol, and its passes drain the queue. */
module Drain {
  import opened Types
  import opened OrderState
  import opened Positions
  import opened Ledger
  import opened MarketData
  import opened Database
  import opened Outbox
  import opened OutboxSafety
  import opened OutboxTheorems
  import opened OutboxWorker
  import opened Conservation
  import opened AdapterContract
  import PaperAdapter
  import Guarantees

  /** main.rs: one worker, the paper adapter, no live adapter. */
  function Wiring(schema: Schema): Config {
    Config(schema, true, false, true)
  }

  // ----- refinement -----

  /** The adapter call and the second transaction of a hydrated paper command. */
  lemma DispatchIsRun(schema: Schema, w: World, i: nat, s: ReconcileSnapshot, feed: Feed) returns (run: seq<Event>)
    requires i in w.tasks && w.tasks[i] == Task(i, Hydrated(s)) && i < |w.t.commands| && w.t.commands[i].mode.Paper?
    requires HydrateTx(w.t, w.t.commands[i].key.order) == Some(s)
    ensures var (t1, out) := Dispatch(schema, w.t, w.t.commands[i], feed);
      && Exec(Wiring(schema), w, run) == w.(t := t1, tasks := w.tasks[i := Task(i, Finished(out))])
      && !out.PermanentReject?
  {
    var cfg := Wiring(schema);
    var c := w.t.commands[i];
    var respond := Respond(i, Quote(feed, s.order), NO_RESPONSE);
    var commit := Commit(i, NoCommitFault, [], []);
    run := [respond] + [commit];
    ExecThen(cfg, w, [respond], commit);
    ExecOne(cfg, w, respond);
    var phase := RespondPhase(c, s, Quote(feed, s.order), NO_RESPONSE);
    var w1 := w.(tasks := w.tasks[i := Task(i, phase)]);
    assert Step(cfg, w, respond) == w1;
    var (t1, out) := Dispatch(schema, w.t, c, feed);
    assert UnderFault(w.t, SecondTx(cfg, w.t, c, phase, [], []), NoCommitFault) == (t1, out);
    assert w1.tasks[i := Task(i, Finished(out))] == w.tasks[i := Task(i, Finished(out))];
  }

  /** One iteration of the worker's loop is a run of protocol steps. */
  lemma RunOneIsRun(schema: Schema, w: World, i: nat, feed: Feed) returns (run: seq<Event>)
    requires TablesOk(w.t) && i in w.tasks && w.tasks[i] == Task(i, Claimed) && i < |w.t.commands|
    ensures Exec(Wiring(schema), w, run) == w.(t := RunOne(schema, w.t, i, feed), tasks := w.tasks - {i})
  {
    var cfg := Wiring(schema);
    var c := w.t.commands[i];
    var hydrate, mark := Hydrate(i, NoReadFault), MarkCommand(i, false);
    assert CommandOk(w.t.orders, c);
    ExecOne(cfg, w, hydrate);
    var phase := HydratePhase(cfg, w.t, c, NoReadFault);
    var w1 := w.(tasks := w.tasks[i := Task(i, phase)]);
    assert Step(cfg, w, hydrate) == w1;
    if c.mode.Live? {
      run := [hydrate] + [mark];
      ExecThen(cfg, w, [hydrate], mark);
      assert w1.tasks - {i} == w.tasks - {i};
    } else {
      var dispatch := DispatchIsRun(schema, w1, i, phase.s, feed);
      run := [hydrate] + dispatch + [mark];
      ExecThen(cfg, w, [hydrate] + dispatch, mark);
      ExecAppend(cfg, w, [hydrate], dispatch);
      DispatchKeepsCommands(schema, w.t, c, feed);
      assert w1.tasks[i := Task(i, Finished(Dispatch(schema, w.t, c, feed).1))] - {i} == w.tasks - {i};
    }
  }

  /** A claimed batch: distinct claimable rows, and fewer than `batchSize` only if
    nothing claimable is left. Row order within a batch is free, as it is in
    UPDATE ... RETURNING. */
  ghost predicate Batch(commands: seq<Command>, now: int, batchSize: nat, claimed: seq<nat>) {
    && InTable(commands, claimed)
    && |claimed| <= batchSize
    && (forall k :: 0 <= k < |claimed| ==> Claimable(commands[claimed[k]], now))
    && Distinct(claimed)
    && (forall row :: 0 <= row < |commands| && Claimable(commands[row], now) && row !in claimed ==>
          |claimed| == batchSize)
  }

  ghost predicate Distinct(claimed: seq<nat>) {
    forall i, j :: 0 <= i < j < |claimed| ==> claimed[i] != claimed[j]
  }

  lemma ClaimIsBatch(commands: seq<Command>, now: int, batchSize: nat)
    ensures Batch(commands, now, batchSize, ClaimFrom(commands, now, batchSize, 0))
  {
    ClaimTakesOldest(commands, now, batchSize, 0);
  }

  lemma {:induction false} LeaseTouchesClaimed(commands: seq<Command>, claimed: seq<nat>, now: int)
    requires InTable(commands, claimed) && Distinct(claimed)
    ensures var leased := LeaseAll(commands, claimed, now);
      forall j :: 0 <= j < |commands| ==>
        leased[j] == if j in claimed then Lease(commands[j], now) else commands[j]
    decreases |claimed|
  {
    if claimed != [] {
      var front, last := claimed[..|claimed| - 1], claimed[|claimed| - 1];
      LeaseTouchesClaimed(commands, front, now);
      assert forall j :: j in claimed <==> j in front || j == last;
    }
  }

  function ClaimedTasks(claimed: seq<nat>): (tasks: map<nat, Task>)
    ensures forall k :: k in tasks <==> k in claimed
    ensures forall k :: k in tasks ==> tasks[k] == Task(k, Claimed)
    decreases |claimed|
  {
    if claimed == [] then map[]
    else
      var last := claimed[|claimed| - 1];
      assert forall k :: k in claimed <==> k in claimed[..|claimed| - 1] || k == last;
      ClaimedTasks(claimed[..|claimed| - 1])[last := Task(last, Claimed)]
  }

  /** One UPDATE claims what a sequence of single claims would. */
  lemma {:induction false} ClaimsAreRun(cfg: Config, w: World, claimed: seq<nat>) returns (run: seq<Event>)
    requires InTable(w.t.commands, claimed) && Distinct(claimed) && w.tasks == map[]
    requires forall k :: 0 <= k < |claimed| ==> Claimable(w.t.commands[claimed[k]], w.now)
    ensures Exec(cfg, w, run)
      == w.(t := w.t.(commands := LeaseAll(w.t.commands, claimed, w.now)), tasks := ClaimedTasks(claimed))
    decreases |claimed|
  {
    if claimed == [] {
      run := [];
    } else {
      var front, last := claimed[..|claimed| - 1], claimed[|claimed| - 1];
      var earlier := ClaimsAreRun(cfg, w, front);
      run := earlier + [Claim(last, last)];
      ExecThen(cfg, w, earlier, Claim(last, last));
      LeaseTouchesClaimed(w.t.commands, front, w.now);
      ClaimStep(cfg, Exec(cfg, w, earlier), last);
    }
  }

  lemma ClaimStep(cfg: Config, w: World, i: nat)
    requires i < |w.t.commands| && i !in w.tasks && Claimable(w.t.commands[i], w.now)
    ensures Step(cfg, w, Claim(i, i))
      == w.(t := w.t.(commands := w.t.commands[i := Lease(w.t.commands[i], w.now)]),
            tasks := w.tasks[i := Task(i, Claimed)])
  {
  }

  lemma {:induction false} RunClaimedIsRun(schema: Schema, w: World, claimed: seq<nat>, feeds: seq<Feed>)
    returns (run: seq<Event>)
    requires Inv(w) && InTable(w.t.commands, claimed) && Distinct(claimed) && |feeds| == |claimed|
    requires forall k :: 0 <= k < |claimed| ==>
      claimed[k] in w.tasks && w.tasks[claimed[k]] == Task(claimed[k], Claimed)
    ensures Exec(Wiring(schema), w, run)
      == w.(t := RunClaimed(schema, w.t, claimed, feeds), tasks := w.tasks - (set i | i in claimed))
    decreases |claimed|
  {
    if claimed == [] {
      run := [];
      assert w.tasks - (set i | i in claimed) == w.tasks;
    } else {
      var n := |claimed| - 1;
      var earlier := RunClaimedIsRun(schema, w, claimed[..n], feeds[..n]);
      ExecKeeps(Wiring(schema), w, earlier);
      var mid := Exec(Wiring(schema), w, earlier);
      assert claimed[n] in mid.tasks && mid.tasks[claimed[n]] == Task(claimed[n], Claimed);
      var last := RunOneIsRun(schema, mid, claimed[n], feeds[n]);
      run := earlier + last;
      ExecAppend(Wiring(schema), w, earlier, last);
      OneFewer(w.tasks, claimed);
    }
  }

  lemma OneFewer(tasks: map<nat, Task>, claimed: seq<nat>)
    requires claimed != []
    ensures var n := |claimed| - 1;
      tasks - (set i | i in claimed[..n]) - {claimed[n]} == tasks - (set i | i in claimed)
  {
  }

  /** The sequential worker refines the protocol: whatever a pass does to the
    tables, some run of single steps does, so everything proved of all runs holds
    of it. */
  lemma PassRefinesProtocol(schema: Schema, w: World, batchSize: nat, claimed: seq<nat>, feeds: seq<Feed>)
    returns (run: seq<Event>)
    requires Inv(w) && w.tasks == map[] && Batch(w.t.commands, w.now, batchSize, claimed) && |feeds| == |claimed|
    ensures Exec(Wiring(schema), w, run) == w.(t := RunPass(schema, w.t, claimed, feeds, w.now))
  {
    var claims := ClaimsAreRun(Wiring(schema), w, claimed);
    ExecKeeps(Wiring(schema), w, claims);
    var mid := Exec(Wiring(schema), w, claims);
    var rest := RunClaimedIsRun(schema, mid, claimed, feeds);
    run := claims + rest;
    ExecAppend(Wiring(schema), w, claims, rest);
    assert mid.tasks - (set i | i in claimed) == map[];
  }

  // ----- what one dispatch does to the queue -----

  /** submit and cancel each may enqueue one reconcile; a reconcile enqueues nothing. */
  function Weight(c: Command): nat {
    if !Unfinished(c) then 0 else if c.key.Kind().ReconcileOrder? then 1 else 2
  }

  function TotalWeight(commands: seq<Command>): nat {
    if commands == [] then 0 else TotalWeight(commands[..|commands| - 1]) + Weight(commands[|commands| - 1])
  }

  lemma {:induction false} WeightUpdate(commands: seq<Command>, i: nat, c: Command)
    requires i < |commands|
    ensures TotalWeight(commands[i := c]) == TotalWeight(commands) - Weight(commands[i]) + Weight(c)
    decreases |commands|
  {
    var front := commands[..|commands| - 1];
    if i == |commands| - 1 {
      assert commands[i := c][..|commands| - 1] == front;
    } else {
      WeightUpdate(front, i, c);
      assert commands[i := c][..|commands| - 1] == front[i := c];
    }
  }

  lemma WeightAppend(commands: seq<Command>, c: Command)
    ensures TotalWeight(commands + [c]) == TotalWeight(commands) + Weight(c)
  {
    assert (commands + [c])[..|commands|] == commands;
  }

  lemma {:induction false} WeightZeroMeansDrained(commands: seq<Command>)
    ensures TotalWeight(commands) == 0 <==> forall i :: 0 <= i < |commands| ==> !Unfinished(commands[i])
    decreases |commands|
  {
    if commands != [] {
      WeightZeroMeansDrained(commands[..|commands| - 1]);
    }
  }

  /** The commands after a dispatch: the old ones, and at most one new follow-up. */
  ghost predicate FollowUpOnly(before: seq<Command>, c: Command, after: seq<Command>) {
    || after == before
    || (&& !c.key.Kind().ReconcileOrder?
        && exists key ::
             after == before + [Command(c.account, key, c.mode, Queued, 0, 0)] && key.Kind().ReconcileOrder?)
  }

  lemma DispatchFollowUps(schema: Schema, t: Tables, c: Command, feed: Feed)
    ensures FollowUpOnly(t.commands, c, Dispatch(schema, t, c, feed).0.commands)
  {
    if HydrateTx(t, c.key.order).Some? {
      var s := HydrateTx(t, c.key.order).value;
      PersistKeepsCommands(schema, t, c.account, s, PaperAdapter.ReconcileOrder(s, Quote(feed, s.order)));
    }
  }

  /** The signed position the order's fill would leave. */
  predicate ClosesFully(t: Tables, account: AccountId, r: ReconcileResult) {
    |r.positionsDelta| == 1 &&
    var d := r.positionsDelta[0];
    d.quantityDelta != 0 && Net(t.positions, account, d.symbol) + d.quantityDelta == 0
  }

  lemma HydratedOk(t: Tables, i: nat)
    requires TablesOk(t) && i < |t.commands|
    ensures var c := t.commands[i];
      HydrateTx(t, c.key.order).Some? &&
      var s := HydrateTx(t, c.key.order).value;
      && SnapshotOk(t, c, s) && Fresh(t.orders[c.key.order], s) && c.mode == t.orders[c.key.order].mode
  {
    var c := t.commands[i];
    assert CommandOk(t.orders, c) && OrderOk(t, c.key.order);
    HydrationOk(Wiring(Schema(false)), t, i, NoReadFault);
    HydrationOk(Config(Schema(false), true, true, true), t, i, NoReadFault);
  }

  /** A paper pass over an up-to-date snapshot at positive quotes commits, unless
    the CHECK on positions refuses a full close. */
  lemma PaperReconcileOutcome(schema: Schema, t: Tables, i: nat, feed: Feed)
    requires TablesOk(t) && Valid(t.positions) && i < |t.commands| && feed.Positive()
    requires t.commands[i].mode.Paper? && t.commands[i].key.Kind().ReconcileOrder?
    ensures HydrateTx(t, t.commands[i].key.order).Some?
    ensures var c := t.commands[i];
      var s := HydrateTx(t, c.key.order).value;
      var r := PaperAdapter.ReconcileOrder(s, Quote(feed, s.order));
      Dispatch(schema, t, c, feed).1
        == if schema.closeCheck && ClosesFully(t, c.account, r) then Retry else Done
  {
    HydratedOk(t, i);
    var c := t.commands[i];
    var s := HydrateTx(t, c.key.order).value;
    var r := PaperAdapter.ReconcileOrder(s, Quote(feed, s.order));
    assert CommandOk(t.orders, c);
    assert AnswerOk(c, s, r) by {
      PaperAdapter.MeetsContract(s, Quote(feed, s.order));
    }
    assert r.newStatus.Some? ==> Legal(s.order.status, r.newStatus.value) by {
      Guarantees.PaperPassLegal(t, c, s, r);
    }
    FreshMeansSameFills(t, c, s);
    if r.fillsToAdd == [] {
      NoFillPersists(schema, t, c, s, r);
    } else {
      assert OneFill(Paper, s, r);
      PositiveFill(s, feed);
      FillPersists(schema, t, c, s, r);
    }
  }

  lemma PositiveFill(s: ReconcileSnapshot, feed: Feed)
    requires feed.Positive()
    ensures var r := PaperAdapter.ReconcileOrder(s, Quote(feed, s.order));
      r.fillsToAdd != [] ==> r.fillsToAdd[0].price > 0
  {
  }

  lemma NoFillPersists(schema: Schema, t: Tables, c: Command, s: ReconcileSnapshot, r: ReconcileResult)
    requires TablesOk(t) && SnapshotOk(t, c, s) && AnswerOk(c, s, r)
    requires Fresh(t.orders[c.key.order], s) && r.fillsToAdd == []
    requires r.newStatus.Some? ==> Legal(s.order.status, r.newStatus.value)
    ensures PersistTx(schema, t, c.account, s, r).Committed?
  {
    assert OrderOk(t, c.key.order);
    InsertContractFills(t.fills, c.account, c.key.order, r.fillsToAdd);
  }

  lemma FillPersists(schema: Schema, t: Tables, c: Command, s: ReconcileSnapshot, r: ReconcileResult)
    requires TablesOk(t) && Valid(t.positions) && SnapshotOk(t, c, s) && AnswerOk(c, s, r)
    requires c.mode.Paper? && CommandOk(t.orders, c) && Fresh(t.orders[c.key.order], s)
    requires s.fills == FillsOf(t.fills, c.key.order)
    requires r.fillsToAdd != [] && OneFill(Paper, s, r) && r.fillsToAdd[0].price > 0
    requires !TradeIdTaken(t.fills, c.account, r.fillsToAdd[0].tradeId)
    requires Legal(s.order.status, r.newStatus.value)
    ensures PersistTx(schema, t, c.account, s, r).Committed?
      <==> !(schema.closeCheck && ClosesFully(t, c.account, r))
    ensures PersistTx(schema, t, c.account, s, r).Aborted? ==> PersistTx(schema, t, c.account, s, r).why == Retry
  {
    var fill, delta := r.fillsToAdd[0], r.positionsDelta[0];
    InsertContractFills(t.fills, c.account, c.key.order, r.fillsToAdd);
    assert r.positionsDelta[..|r.positionsDelta| - 1] == [];
    assert ApplyDeltas(schema, t.positions, c.account, [], fill.price) == Some(t.positions);
    RefusedExactlyWhen(schema, t.positions, c.account, delta.symbol, delta.quantityDelta, fill.price);
    assert r.fillsToAdd == [] + [fill];
    SumQuantityAppend([], fill);
    assert OrderOk(t, c.key.order);
  }

  /** Dispatching row `i` at this book would close a position fully. */
  predicate ClosesAt(t: Tables, i: nat, feed: Feed)
    requires i < |t.commands|
  {
    var c := t.commands[i];
    && c.mode.Paper? && c.key.Kind().ReconcileOrder? && HydrateTx(t, c.key.order).Some?
    && var s := HydrateTx(t, c.key.order).value;
       ClosesFully(t, c.account, PaperAdapter.ReconcileOrder(s, Quote(feed, s.order)))
  }

  /** The only dispatch that does not end well is a refused full close. */
  lemma PaperDispatchOutcome(schema: Schema, t: Tables, i: nat, feed: Feed)
    requires TablesOk(t) && Valid(t.positions) && i < |t.commands| && feed.Positive()
    requires t.commands[i].mode.Paper?
    ensures Dispatch(schema, t, t.commands[i], feed).1
      == if schema.closeCheck && ClosesAt(t, i, feed) then Retry else Done
  {
    var c := t.commands[i];
    HydratedOk(t, i);
    if c.key.Kind().ReconcileOrder? {
      PaperReconcileOutcome(schema, t, i, feed);
    }
  }

  // ----- draining -----

  /** What one iteration leaves: nothing retried, less to do, and no row
    unfinished that was not. */
  ghost predicate Progress(before: seq<Command>, i: nat, after: seq<Command>)
    requires i < |before|
  {
    && TotalWeight(after) < TotalWeight(before)
    && |before| <= |after|
    && !Unfinished(after[i])
    && (forall j :: 0 <= j < |before| ==> after[j].attempts == before[j].attempts)
    && (forall j :: 0 <= j < |before| && j != i ==> after[j] == before[j])
    && (forall j :: |before| <= j < |after| ==> after[j].status.Queued?)
  }

  /** A mark on top of at most one new follow-up row. */
  lemma MarkProgresses(before: seq<Command>, i: nat, mid: seq<Command>, out: DispatchOutcome)
    requires i < |before| && Unfinished(before[i]) && !out.Retry? && FollowUpOnly(before, before[i], mid)
    ensures i < |mid| && Progress(before, i, mid[i := Mark(mid[i], out)])
  {
    if mid != before {
      var c := before[i];
      var key :| mid == before + [Command(c.account, key, c.mode, Queued, 0, 0)] && key.Kind().ReconcileOrder?;
      WeightAppend(before, Command(c.account, key, c.mode, Queued, 0, 0));
    }
    WeightUpdate(mid, i, Mark(mid[i], out));
  }

  lemma RunOneProgresses(schema: Schema, t: Tables, i: nat, feed: Feed)
    requires TablesOk(t) && Valid(t.positions) && i < |t.commands| && feed.Positive()
    requires !(schema.closeCheck && ClosesAt(t, i, feed))
    requires Unfinished(t.commands[i])
    ensures Progress(t.commands, i, RunOne(schema, t, i, feed).commands)
  {
    var c := t.commands[i];
    if c.mode.Live? {
      MarkProgresses(t.commands, i, t.commands, NeedsReview);
    } else {
      PaperDispatchOutcome(schema, t, i, feed);
      DispatchFollowUps(schema, t, c, feed);
      var mid := Dispatch(schema, t, c, feed).0;
      MarkProgresses(t.commands, i, mid.commands, Done);
      assert RunOne(schema, t, i, feed) == MarkAt(mid, i, Done);
    }
  }

  /** No claimed command closes a position fully at the moment of its dispatch. */
  ghost predicate NoFullClose(schema: Schema, t: Tables, claimed: seq<nat>, feeds: seq<Feed>)
    requires InTable(t.commands, claimed) && |feeds| == |claimed|
    decreases |claimed|
  {
    claimed != [] ==>
      var n := |claimed| - 1;
      && NoFullClose(schema, t, claimed[..n], feeds[..n])
      && !ClosesAt(RunClaimed(schema, t, claimed[..n], feeds[..n]), claimed[n], feeds[n])
  }

  /** The CHECK spares the pass. */
  ghost predicate Spared(schema: Schema, t: Tables, claimed: seq<nat>, feeds: seq<Feed>)
    requires InTable(t.commands, claimed) && |feeds| == |claimed|
  {
    schema.closeCheck ==> NoFullClose(schema, t, claimed, feeds)
  }

  /** The same over the claimed rows of a whole pass. */
  ghost predicate PassProgress(before: seq<Command>, claimed: seq<nat>, after: seq<Command>) {
    && TotalWeight(after) + |claimed| <= TotalWeight(before)
    && |before| <= |after|
    && (forall j :: 0 <= j < |before| ==> after[j].attempts == before[j].attempts)
    && (forall j :: 0 <= j < |before| && j !in claimed ==> after[j] == before[j])
    && (forall j :: 0 <= j < |before| && j in claimed ==> !Unfinished(after[j]))
    && (forall j :: |before| <= j < |after| ==> after[j].status.Queued?)
  }

  /** The claimed rows of a batch whose tasks have not begun. */
  ghost predicate Ready(w: World, claimed: seq<nat>, feeds: seq<Feed>) {
    && InTable(w.t.commands, claimed) && Distinct(claimed) && |feeds| == |claimed|
    && forall k :: 0 <= k < |claimed| ==>
         && claimed[k] in w.tasks && w.tasks[claimed[k]] == Task(claimed[k], Claimed)
         && Unfinished(w.t.commands[claimed[k]]) && feeds[k].Positive()
  }

  /** The tables after part of a pass are as sound as before it. */
  lemma RunClaimedKeeps(schema: Schema, w: World, claimed: seq<nat>, feeds: seq<Feed>)
    requires Inv(w) && Conserved(w.t) && Ready(w, claimed, feeds)
    ensures TablesOk(RunClaimed(schema, w.t, claimed, feeds)) && Conserved(RunClaimed(schema, w.t, claimed, feeds))
  {
    var run := RunClaimedIsRun(schema, w, claimed, feeds);
    ExecKeeps(Wiring(schema), w, run);
    ExecConserves(Wiring(schema), w, run);
  }

  lemma {:induction false} RunClaimedProgresses(schema: Schema, w: World, claimed: seq<nat>, feeds: seq<Feed>)
    requires Inv(w) && Conserved(w.t) && Ready(w, claimed, feeds)
    requires Spared(schema, w.t, claimed, feeds)
    ensures PassProgress(w.t.commands, claimed, RunClaimed(schema, w.t, claimed, feeds).commands)
    decreases |claimed|
  {
    if claimed != [] {
      var n := |claimed| - 1;
      RunClaimedProgresses(schema, w, claimed[..n], feeds[..n]);
      RunClaimedKeeps(schema, w, claimed[..n], feeds[..n]);
      var mid := RunClaimed(schema, w.t, claimed[..n], feeds[..n]);
      assert mid.commands[claimed[n]] == w.t.commands[claimed[n]] by {
        assert claimed[n] !in claimed[..n];
      }
      RunOneProgresses(schema, mid, claimed[n], feeds[n]);
      OneMore(w.t.commands, claimed, mid.commands, RunClaimed(schema, w.t, claimed, feeds).commands);
    }
  }

  lemma OneMore(before: seq<Command>, claimed: seq<nat>, mid: seq<Command>, after: seq<Command>)
    requires claimed != [] && InTable(before, claimed)
    requires PassProgress(before, claimed[..|claimed| - 1], mid)
    requires Progress(mid, claimed[|claimed| - 1], after)
    ensures PassProgress(before, claimed, after)
  {
    assert forall j :: j in claimed <==> j in claimed[..|claimed| - 1] || j == claimed[|claimed| - 1];
  }

  lemma {:induction false} LeasingKeepsWeight(commands: seq<Command>, claimed: seq<nat>, now: int)
    requires InTable(commands, claimed) && Distinct(claimed)
    requires forall k :: 0 <= k < |claimed| ==> Unfinished(commands[claimed[k]])
    ensures TotalWeight(LeaseAll(commands, claimed, now)) == TotalWeight(commands)
    decreases |claimed|
  {
    if claimed != [] {
      var front, last := claimed[..|claimed| - 1], claimed[|claimed| - 1];
      LeasingKeepsWeight(commands, front, now);
      LeaseTouchesClaimed(commands, front, now);
      WeightUpdate(LeaseAll(commands, front, now), last, Lease(LeaseAll(commands, front, now)[last], now));
    }
  }

  function AfterClaim(t: Tables, claimed: seq<nat>, now: int): Tables
    requires InTable(t.commands, claimed)
  {
    t.(commands := LeaseAll(t.commands, claimed, now))
  }

  /** A pass of which no command is a refused full close retries nothing and takes
    at least one unit of work off the queue for every command it claims. */
  lemma PassProgresses(schema: Schema, t: Tables, now: int, batchSize: nat, claimed: seq<nat>, feeds: seq<Feed>)
    requires TablesOk(t) && Conserved(t)
    requires Batch(t.commands, now, batchSize, claimed) && |feeds| == |claimed|
    requires Spared(schema, AfterClaim(t, claimed, now), claimed, feeds)
    requires forall k :: 0 <= k < |feeds| ==> feeds[k].Positive()
    ensures PassProgress(t.commands, claimed, RunPass(schema, t, claimed, feeds, now).commands)
  {
    ClaimKeeps(schema, t, now, batchSize, claimed);
    ClaimReadies(t, now, batchSize, claimed, feeds);
    RunClaimedProgresses(schema, JustClaimed(t, claimed, now), claimed, feeds);
    LeasingIsNoProgress(t.commands, claimed, now, RunPass(schema, t, claimed, feeds, now).commands);
  }

  /** Progress from the leased rows is progress from the rows before the claim. */
  lemma LeasingIsNoProgress(before: seq<Command>, claimed: seq<nat>, now: int, after: seq<Command>)
    requires InTable(before, claimed) && Distinct(claimed)
    requires forall k :: 0 <= k < |claimed| ==> Unfinished(before[claimed[k]])
    requires PassProgress(LeaseAll(before, claimed, now), claimed, after)
    ensures PassProgress(before, claimed, after)
  {
    LeaseTouchesClaimed(before, claimed, now);
    LeasingKeepsWeight(before, claimed, now);
  }

  lemma ClaimReadies(t: Tables, now: int, batchSize: nat, claimed: seq<nat>, feeds: seq<Feed>)
    requires Batch(t.commands, now, batchSize, claimed) && |feeds| == |claimed|
    requires forall k :: 0 <= k < |feeds| ==> feeds[k].Positive()
    ensures Ready(JustClaimed(t, claimed, now), claimed, feeds)
  {
    LeaseTouchesClaimed(t.commands, claimed, now);
  }

  /** The world in which a batch has just been claimed. */
  function JustClaimed(t: Tables, claimed: seq<nat>, now: int): World
    requires InTable(t.commands, claimed)
  {
    World(AfterClaim(t, claimed, now), ClaimedTasks(claimed), now, map[])
  }

  lemma ClaimKeeps(schema: Schema, t: Tables, now: int, batchSize: nat, claimed: seq<nat>)
    requires TablesOk(t) && Conserved(t) && Batch(t.commands, now, batchSize, claimed)
    ensures Inv(JustClaimed(t, claimed, now)) && Conserved(AfterClaim(t, claimed, now))
  {
    var w := World(t, map[], now, map[]);
    var claims := ClaimsAreRun(Wiring(schema), w, claimed);
    ExecKeeps(Wiring(schema), w, claims);
    ExecConserves(Wiring(schema), w, claims);
  }

  lemma PassKeepsTables(schema: Schema, t: Tables, now: int, batchSize: nat, claimed: seq<nat>, feeds: seq<Feed>)
    requires TablesOk(t) && Conserved(t) && Batch(t.commands, now, batchSize, claimed) && |feeds| == |claimed|
    ensures TablesOk(RunPass(schema, t, claimed, feeds, now)) && Conserved(RunPass(schema, t, claimed, feeds, now))
  {
    var w := World(t, map[], now, map[]);
    var run := PassRefinesProtocol(schema, w, batchSize, claimed, feeds);
    ExecKeeps(Wiring(schema), w, run);
    ExecConserves(Wiring(schema), w, run);
  }

  // ----- what a pass retries -----

  function Attempts(commands: seq<Command>, j: nat): nat
    requires j < |commands|
  {
    commands[j].attempts
  }

  /** One dispatch raises the attempts of its own row, and only for a refused full close. */
  lemma RunOneAttempts(schema: Schema, t: Tables, i: nat, feed: Feed)
    requires TablesOk(t) && Valid(t.positions) && i < |t.commands| && feed.Positive()
    ensures var after := RunOne(schema, t, i, feed).commands;
      forall j :: 0 <= j < |t.commands| ==>
        Attempts(after, j)
        == Attempts(t.commands, j) + if j == i && schema.closeCheck && ClosesAt(t, i, feed) then 1 else 0
  {
    var c := t.commands[i];
    if c.mode.Paper? {
      PaperDispatchOutcome(schema, t, i, feed);
      DispatchFollowUps(schema, t, c, feed);
    }
  }

  ghost predicate SameAttempts(before: seq<Command>, after: seq<Command>)
    requires |before| <= |after|
  {
    forall j :: 0 <= j < |before| ==> Attempts(after, j) == Attempts(before, j)
  }

  lemma {:induction false} RunClaimedAttempts(schema: Schema, w: World, claimed: seq<nat>, feeds: seq<Feed>)
    requires Inv(w) && Conserved(w.t) && Ready(w, claimed, feeds)
    ensures var after := RunClaimed(schema, w.t, claimed, feeds).commands;
      && (forall j :: 0 <= j < |w.t.commands| ==> Attempts(after, j) >= Attempts(w.t.commands, j))
      && (SameAttempts(w.t.commands, after) <==> Spared(schema, w.t, claimed, feeds))
    decreases |claimed|
  {
    if claimed != [] {
      var n := |claimed| - 1;
      RunClaimedAttempts(schema, w, claimed[..n], feeds[..n]);
      RunClaimedKeeps(schema, w, claimed[..n], feeds[..n]);
      var mid := RunClaimed(schema, w.t, claimed[..n], feeds[..n]);
      RunOneAttempts(schema, mid, claimed[n], feeds[n]);
      OneMoreAttempt(w.t.commands, mid.commands, RunClaimed(schema, w.t, claimed, feeds).commands, claimed[n],
                     schema.closeCheck && ClosesAt(mid, claimed[n], feeds[n]));
    }
  }

  lemma OneMoreAttempt(before: seq<Command>, mid: seq<Command>, after: seq<Command>, i: nat, retried: bool)
    requires i < |before| <= |mid| <= |after|
    requires forall j :: 0 <= j < |before| ==> Attempts(mid, j) >= Attempts(before, j)
    requires forall j :: 0 <= j < |mid| ==> Attempts(after, j) == Attempts(mid, j) + if j == i && retried then 1 else 0
    ensures forall j :: 0 <= j < |before| ==> Attempts(after, j) >= Attempts(before, j)
    ensures SameAttempts(before, after) <==> SameAttempts(before, mid) && !retried
  {
    if !SameAttempts(before, mid) {
      var j :| 0 <= j < |before| && Attempts(mid, j) != Attempts(before, j);
      assert Attempts(after, j) > Attempts(before, j);
    } else if retried {
      assert Attempts(after, i) > Attempts(before, i);
    }
  }

  /** Exactly when a pass retries nothing: when no claimed command is a full close
    that the CHECK refuses. */
  lemma RetriesExactly(schema: Schema, t: Tables, now: int, batchSize: nat, claimed: seq<nat>, feeds: seq<Feed>)
    requires TablesOk(t) && Conserved(t)
    requires Batch(t.commands, now, batchSize, claimed) && |feeds| == |claimed|
    requires forall k :: 0 <= k < |feeds| ==> feeds[k].Positive()
    ensures SameAttempts(t.commands, RunPass(schema, t, claimed, feeds, now).commands)
      <==> Spared(schema, AfterClaim(t, claimed, now), claimed, feeds)
  {
    ClaimKeeps(schema, t, now, batchSize, claimed);
    ClaimReadies(t, now, batchSize, claimed, feeds);
    LeaseTouchesClaimed(t.commands, claimed, now);
    RunClaimedAttempts(schema, JustClaimed(t, claimed, now), claimed, feeds);
  }

  // ----- over many passes -----

  /** One pass of the loop in main.rs. */
  datatype Pass = Pass(claimed: seq<nat>, feeds: seq<Feed>, now: int)

  /** Every leased row has outlived its lease: what a restarted worker finds after
    the lease time, and what a fault-free pass leaves. */
  ghost predicate AllDue(commands: seq<Command>, now: int) {
    forall i :: 0 <= i < |commands| && commands[i].status.Leased? ==> commands[i].leasedUntil < now
  }

  /** Passes at times that do not run backwards, each over a batch of what it finds. */
  ghost predicate FaultFree(schema: Schema, t: Tables, batchSize: nat, passes: seq<Pass>, since: int)
    decreases |passes|
  {
    passes != [] ==>
      var p := passes[0];
      && Batch(t.commands, p.now, batchSize, p.claimed)
      && |p.feeds| == |p.claimed| && (forall k :: 0 <= k < |p.feeds| ==> p.feeds[k].Positive())
      && since <= p.now
      && FaultFree(schema, RunPass(schema, t, p.claimed, p.feeds, p.now), batchSize, passes[1..], p.now)
  }

  ghost function RunPasses(schema: Schema, t: Tables, batchSize: nat, passes: seq<Pass>, since: int): Tables
    requires FaultFree(schema, t, batchSize, passes, since)
    decreases |passes|
  {
    if passes == [] then t
    else
      var p := passes[0];
      RunPasses(schema, RunPass(schema, t, p.claimed, p.feeds, p.now), batchSize, passes[1..], p.now)
  }

  /** No pass dispatches a full close that the CHECK refuses. Without the CHECK
    that is so of every pass. */
  ghost predicate SparedThroughout(schema: Schema, t: Tables, batchSize: nat, passes: seq<Pass>, since: int)
    requires FaultFree(schema, t, batchSize, passes, since)
    decreases |passes|
  {
    schema.closeCheck && passes != [] ==>
      var p := passes[0];
      && Spared(schema, AfterClaim(t, p.claimed, p.now), p.claimed, p.feeds)
      && SparedThroughout(schema, RunPass(schema, t, p.claimed, p.feeds, p.now), batchSize, passes[1..], p.now)
  }

  /** A pass that finds unfinished rows, all due, claims at least one. */
  lemma NothingToClaimMeansDrained(commands: seq<Command>, now: int, batchSize: nat, claimed: seq<nat>)
    requires Batch(commands, now, batchSize, claimed) && AllDue(commands, now) && batchSize >= 1
    ensures claimed == [] ==> TotalWeight(commands) == 0
  {
    if claimed == [] {
      forall i | 0 <= i < |commands|
        ensures !Unfinished(commands[i])
      {
        assert i !in claimed;
      }
      WeightZeroMeansDrained(commands);
    }
  }

  /** Fault-free passes drain the queue: with any batch size of at least one, as
    many passes as the queue weighs (submit 2, cancel 2, reconcile 1) leave no
    command queued or leased, whatever the quotes do in between, and no pass
    retries anything. Without the CHECK on closed rows always, with it as long as
    no claimed reconcile closes a position fully. */
  lemma {:induction false} PassesDrain(schema: Schema, t: Tables, batchSize: nat, passes: seq<Pass>, since: int)
    requires TablesOk(t) && Conserved(t) && batchSize >= 1
    requires FaultFree(schema, t, batchSize, passes, since) && AllDue(t.commands, since)
    requires SparedThroughout(schema, t, batchSize, passes, since)
    ensures var after := RunPasses(schema, t, batchSize, passes, since).commands;
      && (|passes| >= TotalWeight(t.commands) ==> forall i :: 0 <= i < |after| ==> !Unfinished(after[i]))
      && |t.commands| <= |after|
      && forall j :: 0 <= j < |t.commands| ==> after[j].attempts == t.commands[j].attempts
    decreases |passes|
  {
    if passes == [] {
      WeightZeroMeansDrained(t.commands);
    } else {
      var p := passes[0];
      PassProgresses(schema, t, p.now, batchSize, p.claimed, p.feeds);
      PassKeepsTables(schema, t, p.now, batchSize, p.claimed, p.feeds);
      NothingToClaimMeansDrained(t.commands, p.now, batchSize, p.claimed);
      PassesDrain(schema, RunPass(schema, t, p.claimed, p.feeds, p.now), batchSize, passes[1..], p.now);
    }
  }

  /** The same from every state a single-worker run can reach between passes. */
  lemma ReachedDrains(schema: Schema, w: World, batchSize: nat, passes: seq<Pass>, since: int)
    requires Reached(Wiring(schema), w) && batchSize >= 1
    requires FaultFree(schema, w.t, batchSize, passes, since) && AllDue(w.t.commands, since)
    requires SparedThroughout(schema, w.t, batchSize, passes, since)
    requires |passes| >= TotalWeight(w.t.commands)
    ensures var after := RunPasses(schema, w.t, batchSize, passes, since).commands;
      forall i :: 0 <= i < |after| ==> !Unfinished(after[i])
  {
    ReachedOk(Wiring(schema), w);
    var run :| w == Exec(Wiring(schema), INITIAL, run);
    ExecConserves(Wiring(schema), INITIAL, run);
    PassesDrain(schema, w.t, batchSize, passes, since);
  }

  /** With the CHECK as deployed the queue need not drain: a paper reconcile that
    would close a position exactly is retried, and leaves everything but its own
    command row as it was, so the next pass at the same quote finds the same
    work. It is the only paper reconcile that is retried. */
  lemma FullCloseIsRetried(t: Tables, i: nat, feed: Feed)
    requires TablesOk(t) && Valid(t.positions) && i < |t.commands| && feed.Positive()
    requires t.commands[i].mode.Paper? && t.commands[i].key.Kind().ReconcileOrder?
    ensures ClosesAt(t, i, feed) <==> RunOne(Schema(true), t, i, feed).commands[i].status.Queued?
    ensures ClosesAt(t, i, feed) ==> RunOne(Schema(true), t, i, feed) == MarkAt(t, i, Retry)
  {
    PaperDispatchOutcome(Schema(true), t, i, feed);
    DispatchFollowUps(Schema(true), t, t.commands[i], feed);
  }

  /** Row `i` is all that is left to do, and every quote the passes see would make it a full close. */
  ghost predicate OnlyCloses(t: Tables, i: nat, passes: seq<Pass>)
    requires i < |t.commands|
  {
    && t.commands[i].mode.Paper? && t.commands[i].key.Kind().ReconcileOrder?
    && (forall j :: 0 <= j < |t.commands| ==> (Unfinished(t.commands[j]) <==> j == i))
    && (forall p, k :: 0 <= p < |passes| && 0 <= k < |passes[p].feeds| ==> ClosesAt(t, i, passes[p].feeds[k]))
  }

  /** The command row after `n` passes have failed on it. */
  function Retried(c: Command, n: nat): Command {
    if n == 0 then c else Command(c.account, c.key, c.mode, Queued, c.attempts + n, 0)
  }

  function RetriedTables(t: Tables, i: nat, n: nat): Tables
    requires i < |t.commands|
  {
    t.(commands := t.commands[i := Retried(t.commands[i], n)])
  }

  lemma OnlyOneToClaim(t: Tables, i: nat, now: int, batchSize: nat, claimed: seq<nat>)
    requires i < |t.commands| && forall j :: 0 <= j < |t.commands| ==> (Unfinished(t.commands[j]) <==> j == i)
    requires Batch(t.commands, now, batchSize, claimed) && batchSize >= 1 && AllDue(t.commands, now)
    ensures claimed == [i]
  {
    assert |claimed| > 1 ==> claimed[0] != claimed[1];
    forall k | 0 <= k < |claimed|
      ensures claimed[k] == i
    {
      assert Claimable(t.commands[claimed[k]], now);
    }
    assert claimed == [] ==> i !in claimed && Claimable(t.commands[i], now);
  }

  lemma PassOverOne(schema: Schema, t: Tables, i: nat, feed: Feed, now: int)
    requires i < |t.commands|
    ensures RunPass(schema, t, [i], [feed], now)
      == RunOne(schema, t.(commands := t.commands[i := Lease(t.commands[i], now)]), i, feed)
  {
    assert [i][..0] == [] && [feed][..0] == [];
    assert LeaseAll(t.commands, [], now) == t.commands;
    var leased := AfterClaim(t, [i], now);
    assert leased == t.(commands := t.commands[i := Lease(t.commands[i], now)]);
    assert RunClaimed(schema, leased, [], []) == leased;
  }

  /** One pass over such a queue. */
  lemma ClosePass(t: Tables, i: nat, batchSize: nat, p: Pass)
    requires TablesOk(t) && Valid(t.positions) && i < |t.commands| && OnlyCloses(t, i, [p]) && batchSize >= 1
    requires Batch(t.commands, p.now, batchSize, p.claimed) && AllDue(t.commands, p.now)
    requires |p.feeds| == |p.claimed| && forall k :: 0 <= k < |p.feeds| ==> p.feeds[k].Positive()
    ensures RunPass(Schema(true), t, p.claimed, p.feeds, p.now) == RetriedTables(t, i, 1)
  {
    OnlyOneToClaim(t, i, p.now, batchSize, p.claimed);
    assert p.feeds == [p.feeds[0]];
    assert ClosesAt(t, i, [p][0].feeds[0]);
    CloseOnce(t, i, p.feeds[0], p.now);
  }

  lemma CloseOnce(t: Tables, i: nat, feed: Feed, now: int)
    requires TablesOk(t) && Valid(t.positions) && i < |t.commands| && feed.Positive() && ClosesAt(t, i, feed)
    ensures RunPass(Schema(true), t, [i], [feed], now) == RetriedTables(t, i, 1)
  {
    PassOverOne(Schema(true), t, i, feed, now);
    var leased := t.(commands := t.commands[i := Lease(t.commands[i], now)]);
    RowWriteKeeps(t, i, Lease(t.commands[i], now));
    assert ClosesAt(leased, i, feed);
    FullCloseIsRetried(leased, i, feed);
  }

  /** With the CHECK as deployed, for ever: a reconcile whose fill would close a
    position fully survives any number of passes at such quotes. Each raises its
    attempts by one and changes nothing else; the order is never filled. */
  lemma {:induction false} FullCloseRetriesForever(t: Tables, i: nat, batchSize: nat, passes: seq<Pass>, since: int)
    requires TablesOk(t) && Valid(t.positions) && i < |t.commands| && OnlyCloses(t, i, passes) && batchSize >= 1
    requires FaultFree(Schema(true), t, batchSize, passes, since) && AllDue(t.commands, since)
    ensures RunPasses(Schema(true), t, batchSize, passes, since)
      == RetriedTables(t, i, |passes|)
    decreases |passes|
  {
    if passes == [] {
      assert t.commands[i := t.commands[i]] == t.commands;
    } else {
      StillOnlyCloses(t, i, passes);
      FirstClosePass(t, i, batchSize, passes, since);
      FullCloseRetriesForever(RetriedTables(t, i, 1), i, batchSize, passes[1..], passes[0].now);
      RetriedAgain(t, i, |passes| - 1);
    }
  }

  lemma RetriedAgain(t: Tables, i: nat, n: nat)
    requires i < |t.commands|
    ensures RetriedTables(RetriedTables(t, i, 1), i, n) == RetriedTables(t, i, n + 1)
  {
  }

  lemma FirstClosePass(t: Tables, i: nat, batchSize: nat, passes: seq<Pass>, since: int)
    requires TablesOk(t) && Valid(t.positions) && i < |t.commands| && OnlyCloses(t, i, passes) && batchSize >= 1
    requires FaultFree(Schema(true), t, batchSize, passes, since) && AllDue(t.commands, since) && passes != []
    ensures var t' := RetriedTables(t, i, 1);
      && TablesOk(t')
      && FaultFree(Schema(true), t', batchSize, passes[1..], passes[0].now)
      && AllDue(t'.commands, passes[0].now)
      && RunPasses(Schema(true), t, batchSize, passes, since)
         == RunPasses(Schema(true), t', batchSize, passes[1..], passes[0].now)
  {
    var p := passes[0];
    assert OnlyCloses(t, i, [p]) by {
      assert forall k :: 0 <= k < |p.feeds| ==> ClosesAt(t, i, passes[0].feeds[k]);
    }
    ClosePass(t, i, batchSize, p);
    RowWriteKeeps(t, i, Retried(t.commands[i], 1));
  }

  lemma StillOnlyCloses(t: Tables, i: nat, passes: seq<Pass>)
    requires i < |t.commands| && OnlyCloses(t, i, passes) && passes != []
    ensures OnlyCloses(RetriedTables(t, i, 1), i, passes[1..])
  {
    var t' := RetriedTables(t, i, 1);
    forall p, k | 0 <= p < |passes| - 1 && 0 <= k < |passes[1..][p].feeds|
      ensures ClosesAt(t', i, passes[1..][p].feeds[k])
    {
      assert ClosesAt(t, i, passes[p + 1].feeds[k]);
    }
  }
}
