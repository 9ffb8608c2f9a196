/** The validated order lifecycle (order_state.rs). */
module OrderState {
  import opened Types

  /** `OrderStateMachine::transition(from, to).is_ok()`. */
  predicate Legal(from: OrderStatus, to: OrderStatus) {
    match (from, to)
    case (Pending, Submitted) => true
    case (Pending, Rejected) => true
    case (Pending, CancelRequested) => true
    case (Submitted, PartiallyFilled) => true
    case (Submitted, Filled) => true
    case (Submitted, Rejected) => true
    case (Submitted, CancelRequested) => true
    case (PartiallyFilled, PartiallyFilled) => true
    case (PartiallyFilled, Filled) => true
    case (PartiallyFilled, CancelRequested) => true
    case (CancelRequested, Cancelled) => true
    case (CancelRequested, Filled) => true
    case (CancelRequested, PartiallyFilled) => true
    case _ => false
  }

  /** What any number of legal transitions can lead to. */
  predicate Reaches(from: OrderStatus, to: OrderStatus) {
    match from
    case Pending => true
    case Submitted => !to.Pending?
    case PartiallyFilled => !to.Pending? && !to.Submitted? && !to.Rejected?
    case CancelRequested => !to.Pending? && !to.Submitted? && !to.Rejected?
    case _ => to == from
  }

  /** The single transitions among them: only a partial fill may repeat, a cancel
    is only confirmed once requested, and nothing fills before it was submitted. */
  lemma LegalExactly(from: OrderStatus, to: OrderStatus)
    ensures Legal(from, to) <==>
      && Reaches(from, to)
      && (from == to ==> from.PartiallyFilled?)
      && (to.Cancelled? ==> from.CancelRequested?)
      && (to.PartiallyFilled? || to.Filled? ==> !from.Pending?)
  {
  }

  /** A path of legal transitions from `from` to `to` through `via`. */
  ghost predicate Path(from: OrderStatus, via: seq<OrderStatus>, to: OrderStatus)
    decreases |via|
  {
    if via == [] then from == to
    else Legal(from, via[0]) && Path(via[0], via[1..], to)
  }

  lemma ReachesTransitive(a: OrderStatus, b: OrderStatus, c: OrderStatus)
    requires Reaches(a, b) && (Reaches(b, c) || Legal(b, c))
    ensures Reaches(a, c)
  {
  }

  lemma {:induction false} PathReaches(from: OrderStatus, via: seq<OrderStatus>, to: OrderStatus)
    requires Path(from, via, to)
    ensures Reaches(from, to)
    decreases |via|
  {
    if via != [] {
      PathReaches(via[0], via[1..], to);
    }
  }

  /** A witness path for every reachable pair. */
  function Route(from: OrderStatus, to: OrderStatus): seq<OrderStatus> {
    if from == to then []
    else if Legal(from, to) then [to]
    else if from.Pending? && to.Cancelled? then [CancelRequested, to]
    else if from.Pending? then [Submitted, to]
    else [CancelRequested, to]
  }

  lemma RouteIsPath(from: OrderStatus, to: OrderStatus)
    requires Reaches(from, to)
    ensures Path(from, Route(from, to), to)
  {
    var via := Route(from, to);
    if |via| == 1 {
      assert via[1..] == [];
    } else if |via| == 2 {
      assert Legal(from, via[0]) && Legal(via[0], via[1]);
      assert via[1..] == [to];
      assert Path(to, [], to);
      assert Path(via[0], [to], to);
    }
  }

  /** `Reaches` is exactly the reflexive transitive closure of `Legal`. */
  lemma ReachesIsClosure(from: OrderStatus, to: OrderStatus)
    ensures Reaches(from, to) <==> exists via :: Path(from, via, to)
  {
    if Reaches(from, to) {
      RouteIsPath(from, to);
      assert exists via :: Path(from, via, to);
    }
    forall via | Path(from, via, to)
      ensures Reaches(from, to)
    {
      PathReaches(from, via, to);
    }
  }

  /** Terminal statuses are final, and Pending and Submitted are never re-entered. */
  lemma NoWayBack(from: OrderStatus, via: seq<OrderStatus>, to: OrderStatus)
    requires Path(from, via, to)
    ensures from.IsTerminal() ==> to == from && via == []
    ensures !from.Pending? ==> !to.Pending?
    ensures !from.Pending? && !from.Submitted? ==> !to.Submitted?
  {
    PathReaches(from, via, to);
  }
}
