/** The positions table as a signed number per account and symbol
  (db.rs, apply_position_delta). */
module Positions {
  import opened Types

  datatype PositionSide = Long | Short

  /** A row; closed rows stay in the table. */
  datatype Position = Position(
    account: AccountId, symbol: Symbol, side: PositionSide, quantity: int, entryPrice: int, open: bool)

  /** `closeCheck` says whether `CHECK (quantity > 0)` binds closed rows too, as
    migration 0001 declares it. The statement that closes a position writes
    quantity 0, so with the CHECK a full close always fails; without it the
    code does what it was written to do. Results hold for both values unless
    they name one. */
  datatype Schema = Schema(closeCheck: bool)

  predicate IsOpen(p: Position, account: AccountId, symbol: Symbol) {
    p.open && p.account == account && p.symbol == symbol
  }

  function FindOpen(ps: seq<Position>, account: AccountId, symbol: Symbol): (at: Option<nat>)
    ensures at.Some? ==> at.value < |ps| && IsOpen(ps[at.value], account, symbol)
    ensures at.None? ==> forall i :: 0 <= i < |ps| ==> !IsOpen(ps[i], account, symbol)
  {
    if ps == [] then None
    else if IsOpen(ps[|ps| - 1], account, symbol) then Some(|ps| - 1)
    else FindOpen(ps[..|ps| - 1], account, symbol)
  }

  function SideOf(net: int): PositionSide {
    if net > 0 then Long else Short
  }

  function Abs(n: int): int {
    if n < 0 then -n else n
  }

  function SignedQuantity(p: Position): int {
    if p.side.Short? then -p.quantity else p.quantity
  }

  function ApplyDelta(schema: Schema, ps: seq<Position>, account: AccountId, symbol: Symbol,
                      delta: int, fillPrice: int): Option<seq<Position>>
  {
    ApplyRead(schema, ps, FindOpen(ps, account, symbol), ps, account, symbol, delta, fillPrice)
  }

  /** The write half: `found` is the row the SELECT saw in `seen`; the INSERT or
    UPDATE acts on the table `ps` of that later moment. None is a CHECK or unique
    index violation. Within one statement order the two tables are the same. */
  function ApplyRead(schema: Schema, seen: seq<Position>, found: Option<nat>, ps: seq<Position>,
                     account: AccountId, symbol: Symbol, delta: int, fillPrice: int): Option<seq<Position>>
    requires found.Some? ==> found.value < |seen| <= |ps|
  {
    if delta == 0 then Some(ps)
    else if found.None? then
      if fillPrice < 0 || FindOpen(ps, account, symbol).Some? then None
      else Some(ps + [Position(account, symbol, SideOf(delta), Abs(delta), fillPrice, true)])
    else
      var i := found.value;
      var newSigned := SignedQuantity(seen[i]) + delta;
      if newSigned == 0 then
        if schema.closeCheck then None else Some(ps[i := ps[i].(open := false, quantity := 0)])
      else
        var sameDirection := seen[i].side.Long? == (newSigned > 0);
        var entry := if sameDirection then seen[i].entryPrice else fillPrice;
        if entry < 0 then None
        else Some(ps[i := ps[i].(side := SideOf(newSigned), quantity := Abs(newSigned), entryPrice := entry)])
  }

  /** At most one open row per account and symbol; open rows have a positive
    quantity, so that the side is the sign of the position. */
  ghost predicate Valid(ps: seq<Position>) {
    && (forall i :: 0 <= i < |ps| && ps[i].open ==> ps[i].quantity > 0 && ps[i].entryPrice >= 0)
    && (forall i, j :: 0 <= i < j < |ps| && ps[i].open && ps[j].open ==>
          ps[i].account != ps[j].account || ps[i].symbol != ps[j].symbol)
  }

  function Net(ps: seq<Position>, account: AccountId, symbol: Symbol): int {
    match FindOpen(ps, account, symbol)
    case None => 0
    case Some(i) => SignedQuantity(ps[i])
  }

  /** Open rows of other accounts and symbols are the same rows as before. */
  ghost predicate SameElsewhere(ps: seq<Position>, ps': seq<Position>, account: AccountId, symbol: Symbol) {
    && |ps| <= |ps'|
    && (forall i :: 0 <= i < |ps| && (ps[i].account != account || ps[i].symbol != symbol) ==> ps'[i] == ps[i])
    && (forall i :: 0 <= i < |ps| && ps[i].account == account && ps[i].symbol == symbol ==>
          ps'[i].account == account && ps'[i].symbol == symbol)
    && (forall i :: |ps| <= i < |ps'| ==> ps'[i].account == account && ps'[i].symbol == symbol)
  }

  lemma OpenIsUnique(ps: seq<Position>, account: AccountId, symbol: Symbol, i: nat)
    requires Valid(ps) && i < |ps| && IsOpen(ps[i], account, symbol)
    ensures FindOpen(ps, account, symbol) == Some(i)
  {
  }

  lemma NetElsewhere(ps: seq<Position>, ps': seq<Position>, account: AccountId, symbol: Symbol,
                     otherAccount: AccountId, otherSymbol: Symbol)
    requires Valid(ps) && Valid(ps') && SameElsewhere(ps, ps', account, symbol)
    requires otherAccount != account || otherSymbol != symbol
    ensures Net(ps', otherAccount, otherSymbol) == Net(ps, otherAccount, otherSymbol)
    ensures FindOpen(ps', otherAccount, otherSymbol) == FindOpen(ps, otherAccount, otherSymbol)
  {
    match FindOpen(ps, otherAccount, otherSymbol)
    case Some(i) => OpenIsUnique(ps', otherAccount, otherSymbol, i);
    case None =>
  }

  /** A delta that is applied adds to the signed position it names and to nothing
    else; opening, growing, shrinking, flipping and closing are all this one law. */
  lemma DeltaIsAddition(schema: Schema, ps: seq<Position>, account: AccountId, symbol: Symbol,
                        delta: int, fillPrice: int)
    requires Valid(ps)
    requires ApplyDelta(schema, ps, account, symbol, delta, fillPrice).Some?
    ensures var ps' := ApplyDelta(schema, ps, account, symbol, delta, fillPrice).value;
      && Valid(ps')
      && Net(ps', account, symbol) == Net(ps, account, symbol) + delta
      && SameElsewhere(ps, ps', account, symbol)
  {
    var ps' := ApplyDelta(schema, ps, account, symbol, delta, fillPrice).value;
    var found := FindOpen(ps, account, symbol);
    if delta != 0 {
      if found.None? {
        OpenIsUnique(ps', account, symbol, |ps|);
      } else {
        RowRewritten(ps, found.value, ps'[found.value], account, symbol);
      }
    }
  }

  /** Rewriting the open row in place, or closing it. */
  lemma RowRewritten(ps: seq<Position>, i: nat, row: Position, account: AccountId, symbol: Symbol)
    requires Valid(ps) && FindOpen(ps, account, symbol) == Some(i)
    requires row.account == account && row.symbol == symbol
    requires row.open ==> row.quantity > 0 && row.entryPrice >= 0
    ensures var ps' := ps[i := row];
      && Valid(ps') && SameElsewhere(ps, ps', account, symbol)
      && Net(ps', account, symbol) == if row.open then SignedQuantity(row) else 0
  {
    var ps' := ps[i := row];
    if row.open {
      OpenIsUnique(ps', account, symbol, i);
    }
  }

  function Sign(n: int): int {
    if n > 0 then 1 else if n < 0 then -1 else 0
  }

  /** The delta that leaves, from `net`, a position opened from flat or turned around. */
  predicate OpensOrFlips(net: int, delta: int) {
    net + delta != 0 && Sign(net + delta) != Sign(net)
  }

  /** Exactly when a delta is refused: a full close under the CHECK, or a
    negative entry price for a position it would open or flip. */
  lemma RefusedExactlyWhen(schema: Schema, ps: seq<Position>, account: AccountId, symbol: Symbol,
                           delta: int, fillPrice: int)
    requires Valid(ps)
    ensures ApplyDelta(schema, ps, account, symbol, delta, fillPrice).None?
      <==> delta != 0
           && (var net := Net(ps, account, symbol);
               || (net != 0 && net + delta == 0 && schema.closeCheck)
               || (fillPrice < 0 && OpensOrFlips(net, delta)))
  {
  }

  /** A row is closed exactly by a delta that cancels its position, and keeps
    everything but its quantity, which is zero; closed rows are never touched. */
  lemma ClosedExactly(schema: Schema, ps: seq<Position>, account: AccountId, symbol: Symbol,
                      delta: int, fillPrice: int, i: nat)
    requires Valid(ps) && i < |ps|
    requires ApplyDelta(schema, ps, account, symbol, delta, fillPrice).Some?
    ensures var ps' := ApplyDelta(schema, ps, account, symbol, delta, fillPrice).value;
      && i < |ps'|
      && (!ps[i].open ==> ps'[i] == ps[i])
      && (ps[i].open && !ps'[i].open <==>
            IsOpen(ps[i], account, symbol) && delta == if ps[i].side.Short? then ps[i].quantity else -ps[i].quantity)
      && (ps[i].open && !ps'[i].open ==> ps'[i] == ps[i].(open := false, quantity := 0))
  {
    if IsOpen(ps[i], account, symbol) {
      OpenIsUnique(ps, account, symbol, i);
    }
  }

  /** With the CHECK as deployed no position is ever closed: every full close is
    refused, whatever its price, and the position it would close is still there. */
  lemma FullCloseIsStuck(ps: seq<Position>, account: AccountId, symbol: Symbol, fillPrice: int)
    requires Valid(ps) && Net(ps, account, symbol) != 0
    ensures ApplyDelta(Schema(true), ps, account, symbol, -Net(ps, account, symbol), fillPrice).None?
    ensures fillPrice >= 0 ==>
      ApplyDelta(Schema(false), ps, account, symbol, -Net(ps, account, symbol), fillPrice).Some?
  {
  }

  /** `ps` is a later state of the table `seen`: rows are never removed and never
    change hands. */
  ghost predicate LaterThan(seen: seq<Position>, ps: seq<Position>) {
    && |seen| <= |ps|
    && forall i :: 0 <= i < |seen| ==> ps[i].account == seen[i].account && ps[i].symbol == seen[i].symbol
  }

  /** Why conservation needs a single worker: the position row is read without a
    lock and written as an absolute value. However old the read is, the write
    adds its delta if and only if the open row and its signed quantity are still,
    or again, what was read. */
  lemma StaleWriteExactly(schema: Schema, seen: seq<Position>, ps: seq<Position>, account: AccountId, symbol: Symbol,
                          delta: int, fillPrice: int)
    requires Valid(seen) && Valid(ps) && LaterThan(seen, ps) && delta != 0
    requires ApplyRead(schema, seen, FindOpen(seen, account, symbol), ps, account, symbol, delta, fillPrice).Some?
    ensures var found := FindOpen(seen, account, symbol);
      var after := ApplyRead(schema, seen, found, ps, account, symbol, delta, fillPrice).value;
      Net(after, account, symbol) == Net(ps, account, symbol) + delta <==>
        FindOpen(ps, account, symbol) == found && Net(ps, account, symbol) == Net(seen, account, symbol)
  {
    var found, now := FindOpen(seen, account, symbol), FindOpen(ps, account, symbol);
    var after := ApplyRead(schema, seen, found, ps, account, symbol, delta, fillPrice).value;
    if found.None? {
      OpenIsUnique(after, account, symbol, |ps|);
    } else if ps[found.value].open {
      OpenIsUnique(ps, account, symbol, found.value);
      RowRewritten(ps, found.value, after[found.value], account, symbol);
    } else {
      ClosedRowIsIdle(ps, found.value, after[found.value], account, symbol);
    }
  }

  /** Writing to a row that is no longer open moves no position. */
  lemma ClosedRowIsIdle(ps: seq<Position>, i: nat, row: Position, account: AccountId, symbol: Symbol)
    requires Valid(ps) && i < |ps| && !ps[i].open && !row.open
    ensures Net(ps[i := row], account, symbol) == Net(ps, account, symbol)
  {
    var after := ps[i := row];
    if FindOpen(ps, account, symbol).Some? {
      OpenIsUnique(after, account, symbol, FindOpen(ps, account, symbol).value);
    }
  }

  /** In particular: when two passes of different orders read the same position
    and both commit, one delta is always lost. */
  lemma SameReadLosesUpdate(schema: Schema, seen: seq<Position>, account: AccountId, symbol: Symbol,
                            delta1: int, price1: int, delta2: int, price2: int)
    requires Valid(seen) && delta1 != 0 && delta2 != 0
    requires ApplyDelta(schema, seen, account, symbol, delta1, price1).Some?
    ensures var between := ApplyDelta(schema, seen, account, symbol, delta1, price1).value;
      var after := ApplyRead(schema, seen, FindOpen(seen, account, symbol), between, account, symbol, delta2, price2);
      && (FindOpen(seen, account, symbol).None? ==> after.None?)
      && (after.Some? ==> Net(after.value, account, symbol) != Net(seen, account, symbol) + delta1 + delta2)
  {
    DeltaIsAddition(schema, seen, account, symbol, delta1, price1);
    var between := ApplyDelta(schema, seen, account, symbol, delta1, price1).value;
    if FindOpen(seen, account, symbol).None? {
      OpenIsUnique(between, account, symbol, |seen|);
    }
    if ApplyRead(schema, seen, FindOpen(seen, account, symbol), between, account, symbol, delta2, price2).Some? {
      StaleWriteExactly(schema, seen, between, account, symbol, delta2, price2);
    }
  }

  // ----- Entry price over a whole history -----

  /** One call of apply_position_delta. */
  datatype Op = Op(account: AccountId, symbol: Symbol, delta: int, fillPrice: int)

  /** A refused delta aborts its transaction and leaves the table as it was. */
  function ApplyOp(schema: Schema, ps: seq<Position>, op: Op): seq<Position> {
    match ApplyDelta(schema, ps, op.account, op.symbol, op.delta, op.fillPrice)
    case None => ps
    case Some(ps') => ps'
  }

  function ApplyOps(schema: Schema, ps: seq<Position>, ops: seq<Op>): seq<Position>
    decreases |ops|
  {
    if ops == [] then ps
    else ApplyOp(schema, ApplyOps(schema, ps, ops[..|ops| - 1]), ops[|ops| - 1])
  }

  lemma OpKeepsValid(schema: Schema, ps: seq<Position>, op: Op)
    requires Valid(ps)
    ensures Valid(ApplyOp(schema, ps, op))
    ensures SameElsewhere(ps, ApplyOp(schema, ps, op), op.account, op.symbol)
  {
    if ApplyDelta(schema, ps, op.account, op.symbol, op.delta, op.fillPrice).Some? {
      DeltaIsAddition(schema, ps, op.account, op.symbol, op.delta, op.fillPrice);
    }
  }

  lemma {:induction false} OpsKeepValid(schema: Schema, ps: seq<Position>, ops: seq<Op>)
    requires Valid(ps)
    ensures Valid(ApplyOps(schema, ps, ops))
    decreases |ops|
  {
    if ops != [] {
      OpsKeepValid(schema, ps, ops[..|ops| - 1]);
      OpKeepsValid(schema, ApplyOps(schema, ps, ops[..|ops| - 1]), ops[|ops| - 1]);
    }
  }

  /** The position before the first operation and after each one. */
  function NetHistory(schema: Schema, ps: seq<Position>, ops: seq<Op>,
                      account: AccountId, symbol: Symbol): (nets: seq<int>)
    ensures |nets| == |ops| + 1
    ensures nets[|ops|] == Net(ApplyOps(schema, ps, ops), account, symbol)
    decreases |ops|
  {
    if ops == [] then [Net(ps, account, symbol)]
    else NetHistory(schema, ps, ops[..|ops| - 1], account, symbol)
         + [Net(ApplyOps(schema, ps, ops), account, symbol)]
  }

  /** Operation `j` opened the position from flat or flipped it, and the sign
    has not changed since. */
  ghost predicate LastOpening(nets: seq<int>, ops: seq<Op>, j: nat, account: AccountId, symbol: Symbol)
    requires |nets| == |ops| + 1
  {
    && j < |ops|
    && ops[j].account == account && ops[j].symbol == symbol
    && Sign(nets[j]) != Sign(nets[j + 1])
    && forall k :: j < k <= |ops| ==> Sign(nets[k]) == Sign(nets[|ops|]) != 0
  }

  ghost predicate EntryFromOpening(schema: Schema, ps: seq<Position>, ops: seq<Op>,
                                   account: AccountId, symbol: Symbol)
  {
    var end := ApplyOps(schema, ps, ops);
    var nets := NetHistory(schema, ps, ops, account, symbol);
    var at := FindOpen(end, account, symbol);
    at.Some? ==> exists j: nat :: LastOpening(nets, ops, j, account, symbol)
                                  && end[at.value].entryPrice == ops[j].fillPrice
  }

  /** One operation: either it leaves sign and entry price of the open row as
    they were, or it sets the entry price to its own. */
  lemma EntryStep(schema: Schema, ps: seq<Position>, op: Op, account: AccountId, symbol: Symbol)
    requires Valid(ps)
    ensures var ps' := ApplyOp(schema, ps, op);
      var at, at' := FindOpen(ps, account, symbol), FindOpen(ps', account, symbol);
      && (at'.Some? ==> Net(ps', account, symbol) != 0)
      && (at'.Some? && Sign(Net(ps, account, symbol)) != Sign(Net(ps', account, symbol)) ==>
            op.account == account && op.symbol == symbol && ps'[at'.value].entryPrice == op.fillPrice)
      && (at'.Some? && Sign(Net(ps, account, symbol)) == Sign(Net(ps', account, symbol)) ==>
            at.Some? && ps'[at'.value].entryPrice == ps[at.value].entryPrice)
  {
    var ps' := ApplyOp(schema, ps, op);
    OpKeepsValid(schema, ps, op);
    if op.account != account || op.symbol != symbol {
      NetElsewhere(ps, ps', op.account, op.symbol, account, symbol);
    } else {
      var at := FindOpen(ps, account, symbol);
      if ApplyDelta(schema, ps, account, symbol, op.delta, op.fillPrice).Some? {
        DeltaIsAddition(schema, ps, account, symbol, op.delta, op.fillPrice);
        if at.Some? && ps'[at.value].open {
          OpenIsUnique(ps', account, symbol, at.value);
        } else if at.None? && op.delta != 0 {
          OpenIsUnique(ps', account, symbol, |ps|);
        }
      }
    }
  }

  /** The last operation of a history either is the opening or leaves it where it was. */
  lemma OpeningExtends(schema: Schema, ps: seq<Position>, ops: seq<Op>, account: AccountId, symbol: Symbol)
    requires Valid(ps) && ops != [] && EntryFromOpening(schema, ps, ops[..|ops| - 1], account, symbol)
    ensures EntryFromOpening(schema, ps, ops, account, symbol)
  {
    var n := |ops| - 1;
    OpsKeepValid(schema, ps, ops[..n]);
    EntryStep(schema, ApplyOps(schema, ps, ops[..n]), ops[n], account, symbol);
    var nets, at := NetHistory(schema, ps, ops, account, symbol), FindOpen(ApplyOps(schema, ps, ops), account, symbol);
    if at.Some? {
      if Sign(nets[n]) != Sign(nets[n + 1]) {
        assert LastOpening(nets, ops, n, account, symbol);
      } else {
        var j: nat :| LastOpening(nets[..n + 1], ops[..n], j, account, symbol)
                      && ApplyOps(schema, ps, ops)[at.value].entryPrice == ops[..n][j].fillPrice;
        StillLastOpening(nets, ops, j, account, symbol);
      }
    }
  }

  lemma StillLastOpening(nets: seq<int>, ops: seq<Op>, j: nat, account: AccountId, symbol: Symbol)
    requires ops != [] && |nets| == |ops| + 1
    requires LastOpening(nets[..|ops|], ops[..|ops| - 1], j, account, symbol)
    requires Sign(nets[|ops|]) == Sign(nets[|ops| - 1])
    ensures LastOpening(nets, ops, j, account, symbol)
  {
  }

  /** Whatever adds, partial closes, refusals and other symbols' deltas happen in
    between, an open position carries the price of the fill that last opened or
    flipped it. */
  lemma {:induction false} EntryPriceHistory(schema: Schema, ps: seq<Position>, ops: seq<Op>,
                                             account: AccountId, symbol: Symbol)
    requires Valid(ps) && FindOpen(ps, account, symbol).None?
    ensures EntryFromOpening(schema, ps, ops, account, symbol)
    decreases |ops|
  {
    if ops != [] {
      EntryPriceHistory(schema, ps, ops[..|ops| - 1], account, symbol);
      OpeningExtends(schema, ps, ops, account, symbol);
    }
  }
}
