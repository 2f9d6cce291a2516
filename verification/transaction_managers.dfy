/** `TransactionManager`: a two-state machine holding at most one ongoing
    transaction. The ongoing transaction's customer carries the live cart. */
module TransactionManagers {
  import opened Wrappers
  import opened Products
  import opened Carts
  import opened Transactions

  datatype TransactionManager = TransactionManager(ongoing: Option<Transaction>)

  /** `hasOngoingTransaction()`. */
  predicate HasOngoingTransaction(m: TransactionManager) {
    m.ongoing.Some?
  }

  /** `new TransactionManager()`. */
  function NewTransactionManager(): (m: TransactionManager)
    ensures !HasOngoingTransaction(m)
  {
    TransactionManager(None)
  }

  /** `setOngoingTransaction(transaction)`: refused, keeping the current
      one, iff a transaction is already ongoing. */
  function SetOngoingTransaction(m: TransactionManager, t: Transaction): (r: Result<TransactionManager>)
    ensures r.Err? <==> HasOngoingTransaction(m)
    ensures r.Err? ==> r.error == FailedTransaction
    ensures r.Ok? ==> HasOngoingTransaction(r.value) && r.value.ongoing.value == t
  {
    if HasOngoingTransaction(m) then Err(FailedTransaction) else Ok(TransactionManager(Some(t)))
  }

  /** `registerPendingPurchase(product)`: refused when nothing is ongoing or
      the ongoing transaction is finalised; otherwise the product goes at
      the end of the ongoing customer's cart and nothing else changes. */
  function RegisterPendingPurchase(m: TransactionManager, p: Product): (r: Result<TransactionManager>)
    ensures r.Err? <==> !HasOngoingTransaction(m) || m.ongoing.value.finalised
    ensures r.Err? ==> r.error == FailedTransaction
    ensures r.Ok? ==> HasOngoingTransaction(r.value)
    ensures r.Ok? ==> var before := m.ongoing.value;
                      var after := r.value.ongoing.value;
                      && Contents(after.customer.cart) == Contents(before.customer.cart) + [p]
                      && after == before.(customer := before.customer.(cart := after.customer.cart))
                      && GetPurchases(after) == GetPurchases(before) + [p]
  {
    if !HasOngoingTransaction(m) || m.ongoing.value.finalised then Err(FailedTransaction)
    else Ok(TransactionManager(Some(AddToCustomerCart(m.ongoing.value, p))))
  }

  /** `closeCurrentTransaction()`: refused iff nothing is ongoing; otherwise
      the ongoing transaction is finalised, handed back and no longer
      ongoing. */
  function CloseCurrentTransaction(m: TransactionManager): (r: Result<(TransactionManager, Transaction)>)
    ensures r.Err? <==> !HasOngoingTransaction(m)
    ensures r.Err? ==> r.error == FailedTransaction
    ensures r.Ok? ==> var (after, closed) := r.value;
                      && !HasOngoingTransaction(after)
                      && closed.finalised
                      && GetPurchases(closed) == Contents(m.ongoing.value.customer.cart)
                      && IsEmpty(closed.customer.cart)
                      && closed.customer == m.ongoing.value.customer.(cart := closed.customer.cart)
  {
    if !HasOngoingTransaction(m) then Err(FailedTransaction)
    else Ok((TransactionManager(None), Finalise(m.ongoing.value)))
  }

  // ---------------------------------------------------------------------
  // Runs of manager calls
  // ---------------------------------------------------------------------

  datatype Call = Start(t: Transaction) | Register(p: Product) | Close

  /** What a call did: a successful start, registration or close, or a
      refusal (the exception). */
  datatype Event = Started | Registered | Closed | Refused

  /** One call on the manager; a refused call leaves the manager as it was. */
  function Step(m: TransactionManager, c: Call): (r: (TransactionManager, Event))
    ensures r.1 == Refused ==> r.0 == m
    ensures r.1 == Started ==> !HasOngoingTransaction(m) && HasOngoingTransaction(r.0)
    ensures r.1 == Closed ==> HasOngoingTransaction(m) && !HasOngoingTransaction(r.0)
    ensures r.1 == Registered ==> HasOngoingTransaction(r.0)
  {
    match c
    case Start(t) =>
      (match SetOngoingTransaction(m, t)
       case Ok(m') => (m', Started)
       case Err(_) => (m, Refused))
    case Register(p) =>
      (match RegisterPendingPurchase(m, p)
       case Ok(m') => (m', Registered)
       case Err(_) => (m, Refused))
    case Close =>
      match CloseCurrentTransaction(m)
      case Ok((m', _)) => (m', Closed)
      case Err(_) => (m, Refused)
  }

  /** The calls run one after the other on a new manager. */
  function Run(calls: seq<Call>): (r: (TransactionManager, seq<Event>))
    ensures |r.1| == |calls|
    decreases |calls|
  {
    if |calls| == 0 then (NewTransactionManager(), [])
    else
      var (m, events) := Run(calls[..|calls| - 1]);
      var (m', e) := Step(m, calls[|calls| - 1]);
      (m', events + [e])
  }

  /** Whether the last start in `events` has not been followed by a close. */
  function Open(events: seq<Event>): bool
    decreases |events|
  {
    if |events| == 0 then false
    else if events[|events| - 1] == Started then true
    else if events[|events| - 1] == Closed then false
    else Open(events[..|events| - 1])
  }

  /** Any two successful starts have a successful close between them. */
  predicate Separated(events: seq<Event>) {
    forall i, j :: 0 <= i < j < |events| && events[i] == Started && events[j] == Started
      ==> exists k :: i < k < j && events[k] == Closed
  }

  /** When nothing is open, every start was followed by a close. */
  lemma {:induction false} ClosedAfterEveryStart(events: seq<Event>, i: nat)
    requires !Open(events)
    requires i < |events| && events[i] == Started
    ensures exists k :: i < k < |events| && events[k] == Closed
    decreases |events|
  {
    var n := |events|;
    var init := events[..n - 1];
    if events[n - 1] == Closed {
      assert i < n - 1;
    } else {
      assert i < n - 1;
      assert init[i] == Started;
      ClosedAfterEveryStart(init, i);
      var k :| i < k < |init| && init[k] == Closed;
      assert events[k] == Closed;
    }
  }

  /** A log stays separated when it grows by a start only while nothing is
      open, or by any other event. */
  lemma {:induction false} SeparatedSnoc(events: seq<Event>, e: Event)
    requires Separated(events)
    requires e == Started ==> !Open(events)
    ensures Separated(events + [e])
  {
    var all := events + [e];
    forall i, j | 0 <= i < j < |all| && all[i] == Started && all[j] == Started
      ensures exists k :: i < k < j && all[k] == Closed
    {
      if j < |events| {
        assert events[i] == Started && events[j] == Started;
        var k :| i < k < j && events[k] == Closed;
        assert all[k] == Closed;
      } else {
        assert events[i] == Started;
        ClosedAfterEveryStart(events, i);
        var k :| i < k < |events| && events[k] == Closed;
        assert all[k] == Closed;
      }
    }
  }

  /** The manager has an ongoing transaction exactly when the event log is
      open, and the log never shows two starts without a close between. */
  lemma {:induction false} RunInvariant(calls: seq<Call>)
    ensures HasOngoingTransaction(Run(calls).0) <==> Open(Run(calls).1)
    ensures Separated(Run(calls).1)
    decreases |calls|
  {
    if |calls| > 0 {
      var init := calls[..|calls| - 1];
      RunInvariant(init);
      var (m, events) := Run(init);
      var (m', e) := Step(m, calls[|calls| - 1]);
      var all := events + [e];
      assert Run(calls) == (m', all);
      assert all[..|all| - 1] == events;
      SeparatedSnoc(events, e);
    }
  }

  /** Two successful `setOngoingTransaction` calls are always separated by a
      successful `closeCurrentTransaction`. */
  lemma StartsSeparatedByClose(calls: seq<Call>, i: nat, j: nat)
    requires i < j < |Run(calls).1|
    requires Run(calls).1[i] == Started && Run(calls).1[j] == Started
    ensures exists k :: i < k < j && Run(calls).1[k] == Closed
  {
    RunInvariant(calls);
  }
}
