/** What a lease is worth. Mark and requeue do not look at who holds it
  (db.rs:551-591), so it keeps other workers away exactly as long as none of
  them requeues an older dispatch of the same command. */
module Leases {
  import opened Types
  import opened Ledger
  import opened Outbox
  import opened Orphans

  /** An undropped mark of the row by a task whose dispatch is to be retried. */
  predicate Requeues(w: World, e: Event, i: nat) {
    && e.MarkCommand? && !e.dropped && InPhase(w, e.task) && w.tasks[e.task].phase == Finished(Retry)
    && w.tasks[e.task].command == i
  }

  /** At the end of the run or somewhere before. */
  ghost predicate EverClaimable(cfg: Config, w: World, run: seq<Event>, i: nat)
    decreases |run|
  {
    var end := Exec(cfg, w, run);
    || (i < |end.t.commands| && Claimable(end.t.commands[i], end.now))
    || (run != [] && EverClaimable(cfg, w, run[..|run| - 1], i))
  }

  ghost predicate EverRequeued(cfg: Config, w: World, run: seq<Event>, i: nat)
    decreases |run|
  {
    run != [] &&
    (|| EverRequeued(cfg, w, run[..|run| - 1], i)
     || Requeues(Exec(cfg, w, run[..|run| - 1]), run[|run| - 1], i))
  }

  /** Not waiting, and any lease on it lasts until `last`. */
  predicate Reserved(c: Command, last: int) {
    !c.status.Queued? && (c.status.Leased? ==> last <= c.leasedUntil)
  }

  lemma StepForward(cfg: Config, w: World, e: Event)
    ensures w.now <= Step(cfg, w, e).now && |w.t.commands| <= |Step(cfg, w, e).t.commands|
  {
  }

  /** Rows that cannot be claimed are touched by marks alone. */
  lemma OnlyMarksTouch(cfg: Config, w: World, e: Event, i: nat)
    requires i < |w.t.commands| && !Claimable(w.t.commands[i], w.now) && !e.MarkCommand?
    ensures i < |Step(cfg, w, e).t.commands| && Step(cfg, w, e).t.commands[i] == w.t.commands[i]
  {
  }

  lemma MarkReserves(cfg: Config, w: World, e: Event, i: nat, last: int)
    requires i < |w.t.commands| && Reserved(w.t.commands[i], last) && e.MarkCommand?
    ensures i < |Step(cfg, w, e).t.commands|
    ensures Reserved(Step(cfg, w, e).t.commands[i], last) <==> !Requeues(w, e, i)
    ensures Requeues(w, e, i) ==> Step(cfg, w, e).t.commands[i].status.Queued?
  {
  }

  lemma StepReserves(cfg: Config, w: World, e: Event, i: nat, last: int)
    requires i < |w.t.commands| && Reserved(w.t.commands[i], last) && w.now <= last
    ensures i < |Step(cfg, w, e).t.commands|
    ensures Reserved(Step(cfg, w, e).t.commands[i], last) <==> !Requeues(w, e, i)
    ensures Requeues(w, e, i) ==> Claimable(Step(cfg, w, e).t.commands[i], Step(cfg, w, e).now)
  {
    if e.MarkCommand? {
      MarkReserves(cfg, w, e, i, last);
    } else {
      OnlyMarksTouch(cfg, w, e, i);
    }
  }

  lemma {:induction false} RequeuedOrReserved(cfg: Config, w: World, run: seq<Event>, i: nat, last: int)
    requires i < |w.t.commands| && Reserved(w.t.commands[i], last) && Exec(cfg, w, run).now <= last
    ensures var w' := Exec(cfg, w, run);
      && w.now <= w'.now && i < |w'.t.commands|
      && (!EverRequeued(cfg, w, run, i) ==> Reserved(w'.t.commands[i], last))
      && (EverClaimable(cfg, w, run, i) <==> EverRequeued(cfg, w, run, i))
    decreases |run|
  {
    if run != [] {
      var mid, e := Exec(cfg, w, run[..|run| - 1]), run[|run| - 1];
      StepForward(cfg, mid, e);
      RequeuedOrReserved(cfg, w, run[..|run| - 1], i, last);
      if !EverRequeued(cfg, w, run[..|run| - 1], i) {
        StepReserves(cfg, mid, e, i, last);
      }
    }
  }

  /** What a lease and what `delivered` are worth, exactly. Over any run that ends
    before the row's lease does, if it has one, a row that is not waiting now
    becomes claimable if and only if some task requeues it. Marks with any other
    outcome, by whomever, are harmless. */
  lemma ClaimableAgainExactlyWhenRequeued(cfg: Config, w: World, run: seq<Event>, i: nat)
    requires i < |w.t.commands| && !w.t.commands[i].status.Queued?
    requires w.t.commands[i].status.Leased? ==> Exec(cfg, w, run).now <= w.t.commands[i].leasedUntil
    ensures EverClaimable(cfg, w, run, i) <==> EverRequeued(cfg, w, run, i)
  {
    RequeuedOrReserved(cfg, w, run, i, Exec(cfg, w, run).now);
  }

  /** A claim leases the row for thirty seconds from the moment of the claim. */
  lemma ClaimLeases(cfg: Config, w: World, i: nat, task: nat)
    requires i < |w.t.commands| && task !in w.tasks
    ensures task in Step(cfg, w, Claim(i, task)).tasks <==> Claimable(w.t.commands[i], w.now)
    ensures Claimable(w.t.commands[i], w.now) ==>
      forall later :: Claimable(Step(cfg, w, Claim(i, task)).t.commands[i], later) <==> later > w.now + 30
  {
  }

  /** One command, leased to a task 1 that came after task 0's lease had expired. */
  function TwoClaims(row: OrderRow): World {
    World(Tables(map[0 := row], [], [Command(row.account, SubmitKey(0), row.mode, Leased, 0, 61)], []),
          map[0 := Task(0, Claimed), 1 := Task(0, Claimed)], 31, map[])
  }

  lemma TwoClaimsReached(cfg: Config, row: OrderRow)
    requires Placeable(row)
    ensures Exec(cfg, Exec(cfg, INITIAL, [PlaceOrder(0, row), Claim(0, 0)]), [Tick(31), Claim(0, 1)]) == TwoClaims(row)
  {
    OneClaimedReached(cfg, row);
    var w := OneClaimed(row, Claimed);
    ExecTwo(cfg, w, Tick(31), Claim(0, 1));
    var ticked := Step(cfg, w, Tick(31));
    assert ticked == w.(now := 31);
    assert Step(cfg, ticked, Claim(0, 1)).t == TwoClaims(row).t;
  }

  /** Without that proviso it is not exclusive: the slow task 0 fails and requeues
    the row, and a third task claims it while task 1's lease has thirty seconds left. */
  lemma LateRequeueBreaksLease(cfg: Config, row: OrderRow)
    requires Placeable(row) && Resolves(cfg, row.mode)
    ensures var late := Exec(cfg, TwoClaims(row), [Hydrate(0, ReadError), MarkCommand(0, false)]);
      var w := Step(cfg, late, Claim(0, 2));
      && w.now + 30 == TwoClaims(row).t.commands[0].leasedUntil
      && 1 in w.tasks && w.tasks[1] == Task(0, Claimed)
      && 2 in w.tasks && w.tasks[2] == Task(0, Claimed)
  {
    var w := TwoClaims(row);
    ExecTwo(cfg, w, Hydrate(0, ReadError), MarkCommand(0, false));
    assert Step(cfg, w, Hydrate(0, ReadError)) == w.(tasks := w.tasks[0 := Task(0, Finished(Retry))]);
  }

  /** Task 1 at `phase`, with task 0 not yet begun. */
  function OtherAt(row: OrderRow, phase: Phase): World {
    TwoClaims(row).(tasks := map[0 := Task(0, Claimed), 1 := Task(0, phase)])
  }

  lemma OtherHydrates(cfg: Config, row: OrderRow)
    requires Resolves(cfg, row.mode)
    ensures Step(cfg, TwoClaims(row), Hydrate(1, NoReadFault))
      == OtherAt(row, Hydrated(HydrateTx(TwoClaims(row).t, 0).value))
  {
  }

  lemma OtherIsAnswered(cfg: Config, row: OrderRow, s: ReconcileSnapshot)
    ensures Step(cfg, OtherAt(row, Hydrated(s)), Respond(1, None, NO_RESPONSE)) == OtherAt(row, Accepted)
  {
  }

  lemma OtherIsAccepted(cfg: Config, row: OrderRow)
    requires Placeable(row) && Resolves(cfg, row.mode)
    ensures Exec(cfg, TwoClaims(row), [Hydrate(1, NoReadFault), Respond(1, None, NO_RESPONSE)])
      == OtherAt(row, Accepted)
  {
    ExecTwo(cfg, TwoClaims(row), Hydrate(1, NoReadFault), Respond(1, None, NO_RESPONSE));
    OtherHydrates(cfg, row);
    OtherIsAnswered(cfg, row, HydrateTx(TwoClaims(row).t, 0).value);
  }

  /** Task 1 is done with the submit, task 0 is still at it. */
  function OtherDone(row: OrderRow, status: CommandStatus): World {
    World(Tables(map[0 := row.(status := Submitted)], [],
                 [Command(row.account, SubmitKey(0), row.mode, status, 0, 61),
                  Command(row.account, InitialKey(0), row.mode, Queued, 0, 0)], []),
          map[0 := Task(0, Claimed)], 31, map[])
  }

  /** Task 1 has committed and not yet marked. */
  function OtherCommitted(row: OrderRow): World {
    OtherDone(row, Leased).(tasks := map[0 := Task(0, Claimed), 1 := Task(0, Finished(Done))])
  }

  lemma OtherCommits(cfg: Config, row: OrderRow)
    requires Placeable(row)
    ensures Step(cfg, OtherAt(row, Accepted), Commit(1, NoCommitFault, [], [])) == OtherCommitted(row)
  {
    var w := OtherAt(row, Accepted);
    assert SubmitTx(w.t, w.t.commands[0]).tables.commands == OtherCommitted(row).t.commands;
    assert w.t.orders[0 := row.(status := Submitted)] == OtherCommitted(row).t.orders;
  }

  lemma OtherDelivers(cfg: Config, row: OrderRow)
    requires Placeable(row)
    ensures Exec(cfg, OtherAt(row, Accepted), [Commit(1, NoCommitFault, [], []), MarkCommand(1, false)])
      == OtherDone(row, Delivered)
  {
    ExecTwo(cfg, OtherAt(row, Accepted), Commit(1, NoCommitFault, [], []), MarkCommand(1, false));
    OtherCommits(cfg, row);
    assert OtherCommitted(row).tasks - {1} == map[0 := Task(0, Claimed)];
  }

  /** Nor is `delivered` final: task 1 delivers the submit, then the slow task 0
    fails and puts it back into the queue. */
  lemma DeliveredIsNotFinal(cfg: Config, row: OrderRow)
    requires Placeable(row) && Resolves(cfg, row.mode)
    ensures var accepted := Exec(cfg, TwoClaims(row), [Hydrate(1, NoReadFault), Respond(1, None, NO_RESPONSE)]);
      var delivered := Exec(cfg, accepted, [Commit(1, NoCommitFault, [], []), MarkCommand(1, false)]);
      var late := Exec(cfg, delivered, [Hydrate(0, ReadError), MarkCommand(0, false)]);
      && delivered == OtherDone(row, Delivered)
      && 0 < |late.t.commands| && late.t.commands[0].status.Queued? && late.t.orders == delivered.t.orders
  {
    OtherIsAccepted(cfg, row);
    OtherDelivers(cfg, row);
    LateRequeue(cfg, row);
  }

  lemma LateRequeue(cfg: Config, row: OrderRow)
    requires Resolves(cfg, row.mode)
    ensures var late := Exec(cfg, OtherDone(row, Delivered), [Hydrate(0, ReadError), MarkCommand(0, false)]);
      0 < |late.t.commands| && late.t.commands[0].status.Queued? && late.t.orders == OtherDone(row, Delivered).t.orders
  {
    var w := OtherDone(row, Delivered);
    ExecTwo(cfg, w, Hydrate(0, ReadError), MarkCommand(0, false));
    assert Step(cfg, w, Hydrate(0, ReadError)) == w.(tasks := map[0 := Task(0, Finished(Retry))]);
  }
}
