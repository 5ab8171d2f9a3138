/** The order the indexer checks a page against before committing it. */
module EventOrdering {
  import opened Wrappers
  import opened Records
  import opened PositionKeys

  /** Lexicographic over ledger, operation and event; a missing component comes last. */
  function CompareOrder(a: EventOrder, b: EventOrder): Ordering {
    Then(CompareUnknownLast(a.ledgerSequence, b.ledgerSequence),
         Then(CompareUnknownLast(a.operationIndex, b.operationIndex),
              CompareUnknownLast(a.eventIndex, b.eventIndex)))
  }

  predicate IsStrictlyIncreasing(order: seq<EventOrder>) {
    forall i :: 0 < i < |order| ==> CompareOrder(order[i - 1], order[i]) == Less
  }

  lemma CompareOrderTransitive(a: EventOrder, b: EventOrder, c: EventOrder)
    requires CompareOrder(a, b) == Less && CompareOrder(b, c) == Less
    ensures CompareOrder(a, c) == Less
  {
  }

  predicate PairwiseIncreasing(order: seq<EventOrder>) {
    forall i, j :: 0 <= i < j < |order| ==> CompareOrder(order[i], order[j]) == Less
  }

  lemma {:induction false} LaterIsGreater(order: seq<EventOrder>, i: nat, j: nat)
    requires IsStrictlyIncreasing(order) && i < j < |order|
    ensures CompareOrder(order[i], order[j]) == Less
  {
    if i + 1 < j {
      LaterIsGreater(order, i, j - 1);
      CompareOrderTransitive(order[i], order[j - 1], order[j]);
    }
  }

  /** Checking neighbours decides the order of every pair. */
  lemma AdjacentDecidesPairs(order: seq<EventOrder>)
    ensures IsStrictlyIncreasing(order) <==> PairwiseIncreasing(order)
  {
    if IsStrictlyIncreasing(order) {
      forall i, j | 0 <= i < j < |order| ensures CompareOrder(order[i], order[j]) == Less {
        LaterIsGreater(order, i, j);
      }
    }
  }

  predicate SamePlacement(a: EventOrder, b: EventOrder) {
    a.ledgerSequence == b.ledgerSequence && a.operationIndex == b.operationIndex && a.eventIndex == b.eventIndex
  }

  /** No page that repeats a placement passes the check, wherever the repetition sits. */
  lemma RepeatedPlacementRefused(order: seq<EventOrder>, i: nat, j: nat)
    requires i < j < |order| && SamePlacement(order[i], order[j])
    ensures !IsStrictlyIncreasing(order)
  {
    AdjacentDecidesPairs(order);
    assert CompareOrder(order[i], order[j]) == Equal;
  }

  /** The full on-chain hierarchy, transaction position included. */
  function CompareHierarchy(a: EventOrder, b: EventOrder): Ordering {
    Then(CompareUnknownLast(a.ledgerSequence, b.ledgerSequence),
         Then(CompareUnknownLast(a.transactionPosition, b.transactionPosition),
              Then(CompareUnknownLast(a.operationIndex, b.operationIndex),
                   CompareUnknownLast(a.eventIndex, b.eventIndex))))
  }

  /** The check ignores the transaction position: two transactions of one ledger can be refused. */
  lemma HierarchyOrderIsNotEnough()
    ensures
      var first := EventOrder(Some(7), Some(0), Some(0), Some(0));
      var second := EventOrder(Some(7), Some(1), Some(0), Some(0));
      CompareHierarchy(first, second) == Less && !IsStrictlyIncreasing([first, second])
  {
    var first := EventOrder(Some(7), Some(0), Some(0), Some(0));
    var second := EventOrder(Some(7), Some(1), Some(0), Some(0));
    RepeatedPlacementRefused([first, second], 0, 1);
  }

  /** What the check cannot see: a later transaction of the same ledger that starts again at or below an operation. */
  predicate Restarts(a: EventOrder, b: EventOrder) {
    && a.ledgerSequence == b.ledgerSequence
    && a.transactionPosition != b.transactionPosition
    && Then(CompareUnknownLast(a.operationIndex, b.operationIndex),
            CompareUnknownLast(a.eventIndex, b.eventIndex)) != Less
  }

  lemma NeighboursAcceptedIff(a: EventOrder, b: EventOrder)
    requires CompareHierarchy(a, b) == Less
    ensures CompareOrder(a, b) == Less <==> !Restarts(a, b)
  {
  }

  ghost predicate InHierarchyOrder(order: seq<EventOrder>) {
    forall i :: 0 < i < |order| ==> CompareHierarchy(order[i - 1], order[i]) == Less
  }

  /**
   A page in hierarchy order passes the check exactly when nowhere in it a transaction of the same ledger
   follows another without also increasing in operation and event.
   */
  lemma HierarchyOrderAcceptedIff(order: seq<EventOrder>)
    requires InHierarchyOrder(order)
    ensures IsStrictlyIncreasing(order) <==> forall i :: 0 < i < |order| ==> !Restarts(order[i - 1], order[i])
  {
    hide CompareOrder, CompareHierarchy, Restarts;
    forall i | 0 < i < |order|
      ensures CompareOrder(order[i - 1], order[i]) == Less <==> !Restarts(order[i - 1], order[i])
    {
      NeighboursAcceptedIff(order[i - 1], order[i]);
    }
  }

  /** A page in hierarchy order with one transaction per ledger passes. */
  lemma OneTransactionPerLedgerAccepted(order: seq<EventOrder>)
    requires InHierarchyOrder(order)
    requires forall i :: 0 < i < |order| && order[i - 1].ledgerSequence == order[i].ledgerSequence ==>
               order[i - 1].transactionPosition == order[i].transactionPosition
    ensures PairwiseIncreasing(order)
  {
    HierarchyOrderAcceptedIff(order);
    AdjacentDecidesPairs(order);
  }
}
