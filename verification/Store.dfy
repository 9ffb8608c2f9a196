/** The database layer (db.rs): the tables as mutable state and the statements
  that read and write them. */
module Database {
  import opened Types
  import opened Positions
  import opened Ledger

  /** The claim query: up to `limit` claimable rows, oldest first, from row `from` on. */
  function ClaimFrom(commands: seq<Command>, now: int, limit: nat, from: nat): seq<nat>
    requires from <= |commands|
    decreases |commands| - from
  {
    if from == |commands| || limit == 0 then []
    else if Claimable(commands[from], now) then [from] + ClaimFrom(commands, now, limit - 1, from + 1)
    else ClaimFrom(commands, now, limit, from + 1)
  }

  function LeaseAll(commands: seq<Command>, claimed: seq<nat>, now: int): (leased: seq<Command>)
    requires forall i :: 0 <= i < |claimed| ==> claimed[i] < |commands|
    ensures |leased| == |commands|
    decreases |claimed|
  {
    if claimed == [] then commands
    else
      var rest := LeaseAll(commands, claimed[..|claimed| - 1], now);
      var last := claimed[|claimed| - 1];
      rest[last := Lease(rest[last], now)]
  }

  ghost predicate Increasing(claimed: seq<nat>) {
    forall i, j :: 0 <= i < j < |claimed| ==> claimed[i] < claimed[j]
  }

  /** A claim takes claimable rows only, each once and oldest first; it takes
    fewer than `limit` only when it takes them all. */
  lemma {:induction false} ClaimTakesOldest(commands: seq<Command>, now: int, limit: nat, from: nat)
    requires from <= |commands|
    ensures var claimed := ClaimFrom(commands, now, limit, from);
      && |claimed| <= limit
      && Increasing(claimed)
      && (forall i :: 0 <= i < |claimed| ==> from <= claimed[i] < |commands| && Claimable(commands[claimed[i]], now))
      && (forall row :: from <= row < |commands| && Claimable(commands[row], now) && row !in claimed ==>
            |claimed| == limit && forall i :: 0 <= i < |claimed| ==> claimed[i] < row)
    decreases |commands| - from
  {
    if from < |commands| && limit > 0 {
      var more := if Claimable(commands[from], now) then limit - 1 else limit;
      ClaimTakesOldest(commands, now, more, from + 1);
      var rest := ClaimFrom(commands, now, more, from + 1);
      var claimed := ClaimFrom(commands, now, limit, from);
      forall row | from <= row < |commands| && Claimable(commands[row], now) && row !in claimed
        ensures |claimed| == limit && forall i :: 0 <= i < |claimed| ==> claimed[i] < row
      {
        assert row !in rest;
      }
    }
  }

  class Store {
    var orders: map<OrderId, OrderRow>
    var fills: seq<FillRow>
    var commands: seq<Command>
    var positions: seq<Position>
    const schema: Schema

    constructor (schema: Schema)
      ensures this.schema == schema && View() == Tables(map[], [], [], [])
    {
      this.schema := schema;
      orders, fills, commands, positions := map[], [], [], [];
    }

    function View(): Tables
      reads this
    {
      Tables(orders, fills, commands, positions)
    }

    /** ROLLBACK to an earlier state of the tables. */
    method Restore(t: Tables)
      modifies this
      ensures View() == t
    {
      orders, fills, commands, positions := t.orders, t.fills, t.commands, t.positions;
    }

    method LockOrder(order: OrderId) returns (row: Option<OrderRow>)
      ensures row == if order in orders then Some(orders[order]) else None
    {
      if order in orders {
        row := Some(orders[order]);
      } else {
        row := None;
      }
    }

    /** place_order (routes_orders.rs) once the intent was validated and the
      account locked: a rejected intent leaves no order behind, an approved one
      its order and its submit command. `row.quantity > 0` and the price CHECK are
      what the route and the table insist on. */
    method PlaceOrder(order: OrderId, row: OrderRow, approved: bool)
      requires order !in orders
      modifies this
      ensures View() == if approved then PlaceOrderTx(old(View()), order, row) else old(View())
    {
      if !approved {
        return;
      }
      orders := orders[order := row];
      InsertExchangeCommand(row.account, SubmitKey(order), row.mode);
    }

    method UpdateOrderStatus(order: OrderId, status: OrderStatus, filled: int) returns (ok: bool)
      requires order in orders
      modifies this`orders
      ensures ok <==> 0 <= filled <= old(orders)[order].quantity
      ensures orders == if ok then old(orders)[order := old(orders)[order].(status := status, filled := filled)]
                        else old(orders)
    {
      ok := 0 <= filled && filled <= orders[order].quantity;
      if ok {
        orders := orders[order := orders[order].(status := status, filled := filled)];
      }
    }

    method LoadFillsForOrder(order: OrderId) returns (found: seq<Fill>)
      ensures found == FillsOf(fills, order)
    {
      found := [];
      for i := 0 to |fills|
        invariant found == FillsOf(fills[..i], order)
      {
        if fills[i].order == order {
          found := found + [fills[i].fill];
        }
        assert fills[..i + 1][..i] == fills[..i];
      }
      assert fills[..|fills|] == fills;
    }

    /** Err is a CHECK violation; Ok(false) a trade id that was there already. */
    method InsertFill(account: AccountId, order: OrderId, fill: Fill) returns (inserted: Result<bool, ()>)
      modifies this`fills
      ensures match Ledger.InsertFill(old(fills), account, order, fill)
        case None => inserted == Err(()) && fills == old(fills)
        case Some((rows, isNew)) => inserted == Ok(isNew) && fills == rows
      ensures inserted.Err? <==> fill.quantity <= 0 || fill.price <= 0
      ensures inserted == Ok(true) ==> fills == old(fills) + [FillRow(account, order, fill)]
      ensures inserted != Ok(true) ==> fills == old(fills)
      ensures inserted == Ok(false) ==>
        exists i :: 0 <= i < |fills| && fills[i].account == account && fills[i].fill.tradeId == fill.tradeId
      ensures inserted == Ok(true) ==> forall i :: 0 <= i < |old(fills)| ==>
        old(fills)[i].account != account || old(fills)[i].fill.tradeId != fill.tradeId
    {
      if fill.quantity <= 0 || fill.price <= 0 {
        return Err(());
      }
      for i := 0 to |fills|
        invariant forall j :: 0 <= j < i ==> !(fills[j].account == account && fills[j].fill.tradeId == fill.tradeId)
      {
        if fills[i].account == account && fills[i].fill.tradeId == fill.tradeId {
          return Ok(false);
        }
      }
      fills := fills + [FillRow(account, order, fill)];
      return Ok(true);
    }

    method InsertExchangeCommand(account: AccountId, key: Key, mode: ExchangeMode)
      modifies this`commands
      ensures commands == InsertCommand(old(commands), account, key, mode)
      ensures if exists i ::
                   0 <= i < |old(commands)| && old(commands)[i].account == account && old(commands)[i].key == key
              then commands == old(commands)
              else commands == old(commands) + [Command(account, key, mode, Queued, 0, 0)]
    {
      for i := 0 to |commands|
        invariant forall j :: 0 <= j < i ==> !(commands[j].account == account && commands[j].key == key)
      {
        if commands[i].account == account && commands[i].key == key {
          return;
        }
      }
      commands := commands + [Command(account, key, mode, Queued, 0, 0)];
    }

    method ClaimPendingCommands(limit: nat, now: int) returns (claimed: seq<nat>)
      modifies this`commands
      ensures claimed == ClaimFrom(old(commands), now, limit, 0)
      ensures forall i :: 0 <= i < |claimed| ==> claimed[i] < |old(commands)|
      ensures commands == LeaseAll(old(commands), claimed, now)
    {
      claimed := [];
      var i := 0;
      while i < |commands| && |claimed| < limit
        invariant 0 <= i <= |commands| == |old(commands)|
        invariant |claimed| <= limit
        invariant forall k :: 0 <= k < |claimed| ==> claimed[k] < i
        invariant commands == LeaseAll(old(commands), claimed, now)
        invariant forall k :: i <= k < |commands| ==> commands[k] == old(commands)[k]
        invariant claimed + ClaimFrom(old(commands), now, limit - |claimed|, i)
          == ClaimFrom(old(commands), now, limit, 0)
      {
        if Claimable(commands[i], now) {
          ghost var before := claimed;
          claimed := claimed + [i];
          assert claimed[..|claimed| - 1] == before;
          assert claimed + ClaimFrom(old(commands), now, limit - |claimed|, i + 1)
            == before + ([i] + ClaimFrom(old(commands), now, limit - |claimed|, i + 1));
          commands := commands[i := Lease(commands[i], now)];
        }
        i := i + 1;
      }
      assert claimed + [] == claimed;
    }

    /** mark_command_delivered, mark_command_permanently_rejected,
      mark_command_reconciliation_required and requeue_command. */
    method MarkCommand(i: nat, out: DispatchOutcome)
      requires i < |commands|
      modifies this`commands
      ensures commands == old(commands)[i := Mark(old(commands)[i], out)]
      ensures commands[i].status == match out
        case Done => Delivered
        case Retry => Queued
        case PermanentReject => PermanentlyRejected
        case NeedsReview => ReconciliationRequired
    {
      var c := commands[i];
      match out {
        case Done => c := c.(status := Delivered);
        case Retry => c := c.(status := Queued, leasedUntil := 0, attempts := c.attempts + 1);
        case PermanentReject => c := c.(status := PermanentlyRejected);
        case NeedsReview => c := c.(status := ReconciliationRequired);
      }
      commands := commands[i := c];
    }

    /** The read half of apply_position_delta: the open row, if there is one. */
    method FindOpenPosition(account: AccountId, symbol: Symbol) returns (at: Option<nat>)
      ensures at == FindOpen(positions, account, symbol)
    {
      var i := |positions|;
      assert positions[..i] == positions;
      while i > 0
        invariant 0 <= i <= |positions|
        invariant FindOpen(positions, account, symbol) == FindOpen(positions[..i], account, symbol)
      {
        i := i - 1;
        assert positions[..i + 1][..i] == positions[..i];
        if positions[i].open && positions[i].account == account && positions[i].symbol == symbol {
          return Some(i);
        }
      }
      at := None;
    }

    /** False is a CHECK violation; the caller's transaction is then lost. */
    method ApplyPositionDelta(account: AccountId, symbol: Symbol, delta: int, fillPrice: int) returns (ok: bool)
      modifies this`positions
      ensures match ApplyDelta(schema, old(positions), account, symbol, delta, fillPrice)
        case None => !ok && positions == old(positions)
        case Some(ps) => ok && positions == ps
      ensures |old(positions)| <= |positions|
      ensures forall i :: 0 <= i < |old(positions)| && old(positions)[i].open && !positions[i].open ==>
        positions[i] == old(positions)[i].(open := false, quantity := 0)
    {
      if delta == 0 {
        return true;
      }
      var existing := FindOpenPosition(account, symbol);
      if existing.None? {
        var side := if delta > 0 then Long else Short;
        if fillPrice < 0 {
          return false;
        }
        positions := positions + [Position(account, symbol, side, Abs(delta), fillPrice, true)];
        return true;
      }
      var i := existing.value;
      var side, currentQuantity := positions[i].side, positions[i].quantity;
      var signedCurrent := if side.Short? then -currentQuantity else currentQuantity;
      var newSigned := signedCurrent + delta;
      if newSigned == 0 {
        if schema.closeCheck {
          return false;
        }
        positions := positions[i := positions[i].(open := false, quantity := 0)];
        return true;
      }
      var newSide := if newSigned > 0 then Long else Short;
      var sameDirection := side.Long? == (newSigned > 0);
      var entryPrice := if sameDirection then positions[i].entryPrice else fillPrice;
      if entryPrice < 0 {
        return false;
      }
      positions := positions[i := positions[i].(side := newSide, quantity := Abs(newSigned), entryPrice := entryPrice)];
      return true;
    }
  }
}
