/**
 * The transaction lifecycle of services/mockBackend.ts as a state machine on
 * values: the backend's module-level state is a `State`, and each exported
 * operation, each helper and each timer body is a function from the state before
 * to the state after. The imperative class in module `Backend` is proved to
 * compute exactly these functions.
 *
 * `currentTransaction` and `transactionHistory[0]` are one object in the source.
 * Here the history holds the transactions by value, newest first, and the current
 * transaction, when there is one, is the entry at index 0: every update of the
 * current transaction is an update of `history[0]`.
 *
 * A `setTimeout` becomes a `Task` in `pending`; `Fire` runs the body of any
 * pending task, reading the state at the moment it fires.
 */
module Lifecycle {
  import opened JsText
  import opened Types

  /** A started timer: the delayed name check of a webhook, or the settlement. */
  datatype Task = Verify(senderName: string) | Settle

  /** One call of a subscribed listener with a copy of the current transaction. */
  datatype Delivery = Delivery(listener: nat, snapshot: Transaction)

  /** The backend's state. `hasCurrent` says whether `currentTransaction` is set;
      `delivered` records every listener call so far. */
  datatype State = State(
    hasCurrent: bool,
    history: seq<Transaction>,
    listeners: seq<nat>,
    logs: seq<LogEntry>,
    orderBook: OrderBook,
    pending: seq<Task>,
    delivered: seq<Delivery>)

  /** ฿5,000,000 and ₮150,000, automatic hedging on. */
  const InitialOrderBook: OrderBook := OrderBook(5_000_000 * SatangPerBaht, 150_000 * MicroPerUsdt, true)

  /** A current transaction is the newest entry of the history, and its log is the
      newest part of the global log. */
  predicate Valid(s: State) {
    s.hasCurrent ==> |s.history| > 0 && s.history[0].logs <= s.logs
  }

  /** Only the current transaction, `history[0]`, has changed: the older entries
      are untouched. */
  predicate KeepsOlder(s: State, r: State) {
    |r.history| == |s.history| && (|s.history| > 0 ==> r.history[1..] == s.history[1..])
  }

  function Initial(): (s: State)
    ensures Valid(s) && !s.hasCurrent && s.history == [] && s.logs == []
  {
    State(false, [], [], [], InitialOrderBook, [], [])
  }

  function Current(s: State): Transaction
    requires Valid(s) && s.hasCurrent
  {
    s.history[0]
  }

  /** The operations a caller can invoke, and the firing of a pending timer. */
  datatype Op =
    | Listen(listener: nat)
    | Unlisten(listener: nat)
    | NewTransaction(tx: Transaction)
    | IncomingTransfer(amountThb: int, senderName: string, refId: string)
    | Disburse
    | ScheduleSettlement
    | Approve
    | ToggleHedge
    | FireTimer(index: nat)

  predicate Enabled(s: State, op: Op) {
    op.FireTimer? ==> op.index < |s.pending|
  }

  function Apply(s: State, op: Op): (r: State)
    requires Valid(s) && Enabled(s, op)
    ensures Valid(r)
  {
    match op
    case Listen(l) => Subscribe(s, l)
    case Unlisten(l) => Unsubscribe(s, l)
    case NewTransaction(tx) => CreateTransaction(s, tx)
    case IncomingTransfer(amount, senderName, refId) => TriggerIncomingTransfer(s, amount, senderName, refId)
    case Disburse => ProcessDisbursement(s)
    case ScheduleSettlement => ExecuteFinalSettlement(s)
    case Approve => ApproveTransaction(s)
    case ToggleHedge => ToggleAutoHedge(s)
    case FireTimer(i) => Fire(s, i)
  }

  // ---------------------------------------------------------------------------
  // Helpers: addLog, notify, status updates

  /** `addLog`: the entry goes in front of the global log and, when there is a
      current transaction, in front of that transaction's log. */
  function AddLog(s: State, component: LogModule, message: Message, level: Level): (r: State)
    requires Valid(s)
    ensures Valid(r) && r.hasCurrent == s.hasCurrent && KeepsOlder(s, r)
    ensures r.orderBook == s.orderBook && r.pending == s.pending && r.listeners == s.listeners
    ensures r.delivered == s.delivered
  {
    var entry := LogEntry(level, component, message);
    var history := if s.hasCurrent then s.history[0 := s.history[0].(logs := [entry] + s.history[0].logs)] else s.history;
    s.(logs := [entry] + s.logs, history := history)
  }

  /** The listener calls of one notification: each listener once, in order of
      subscription, each with its own copy of the transaction, all equal. */
  function Deliveries(listeners: seq<nat>, snapshot: Transaction): (r: seq<Delivery>)
    ensures |r| == |listeners|
    ensures forall i :: 0 <= i < |r| ==> r[i] == Delivery(listeners[i], snapshot)
  {
    if listeners == [] then [] else [Delivery(listeners[0], snapshot)] + Deliveries(listeners[1..], snapshot)
  }

  /** Notifying the listeners of `a + b` is notifying those of `a`, then those of
      `b`. */
  lemma {:induction false} DeliveriesAppend(a: seq<nat>, b: seq<nat>, snapshot: Transaction)
    ensures Deliveries(a + b, snapshot) == Deliveries(a, snapshot) + Deliveries(b, snapshot)
  {
    if a != [] {
      assert (a + b)[1..] == a[1..] + b;
      DeliveriesAppend(a[1..], b, snapshot);
    }
  }

  /** `notify`: every listener receives the current transaction; nothing happens
      without a current transaction. */
  function Notify(s: State): (r: State)
    requires Valid(s)
    ensures Valid(r) && r.hasCurrent == s.hasCurrent && r.history == s.history && r.logs == s.logs
    ensures r.orderBook == s.orderBook && r.pending == s.pending && r.listeners == s.listeners
    ensures s.hasCurrent ==> r.delivered == s.delivered + Deliveries(s.listeners, Current(s))
    ensures !s.hasCurrent ==> r == s
  {
    if s.hasCurrent then s.(delivered := s.delivered + Deliveries(s.listeners, Current(s))) else s
  }

  /** `currentTransaction.status = status`. */
  function SetStatus(s: State, status: Status): (r: State)
    requires Valid(s) && s.hasCurrent
    ensures Valid(r) && r.hasCurrent && KeepsOlder(s, r) && r.logs == s.logs
    ensures Current(r) == Current(s).(status := status)
    ensures r.orderBook == s.orderBook && r.pending == s.pending && r.listeners == s.listeners
    ensures r.delivered == s.delivered
  {
    s.(history := s.history[0 := s.history[0].(status := status)])
  }

  // ---------------------------------------------------------------------------
  // The exported operations

  /** `subscribe`: the listener joins the end of the list; nothing else changes. */
  function Subscribe(s: State, listener: nat): (r: State)
    requires Valid(s)
    ensures Valid(r)
    ensures r.listeners == s.listeners + [listener]
    ensures r.hasCurrent == s.hasCurrent && r.history == s.history && r.logs == s.logs
    ensures r.orderBook == s.orderBook && r.pending == s.pending && r.delivered == s.delivered
  {
    s.(listeners := s.listeners + [listener])
  }

  /** The unsubscribe function `subscribe` returns: every registration of the
      listener is dropped, the others stay in order; nothing else changes. */
  function Unsubscribe(s: State, listener: nat): (r: State)
    requires Valid(s)
    ensures Valid(r)
    ensures r.listeners == Without(s.listeners, listener)
    ensures r.hasCurrent == s.hasCurrent && r.history == s.history && r.logs == s.logs
    ensures r.orderBook == s.orderBook && r.pending == s.pending && r.delivered == s.delivered
  {
    s.(listeners := Without(s.listeners, listener))
  }

  /** `listeners.filter(l => l !== listener)`. */
  function Without(listeners: seq<nat>, listener: nat): (r: seq<nat>)
    ensures listener !in r
    ensures forall l :: l in r <==> l in listeners && l != listener
    ensures |r| <= |listeners|
  {
    if listeners == [] then []
    else (if listeners[0] == listener then [] else [listeners[0]]) + Without(listeners[1..], listener)
  }

  /** The filter works piece by piece: the other listeners keep their order and
      their number of registrations. */
  lemma {:induction false} WithoutAppend(a: seq<nat>, b: seq<nat>, listener: nat)
    ensures Without(a + b, listener) == Without(a, listener) + Without(b, listener)
  {
    if a == [] {
      assert a + b == b;
    } else {
      assert (a + b)[1..] == a[1..] + b;
      WithoutAppend(a[1..], b, listener);
    }
  }

  /** A listener other than the removed one keeps all its registrations. */
  lemma {:induction false} WithoutKeepsOthers(listeners: seq<nat>, listener: nat, other: nat)
    requires other != listener
    ensures multiset(Without(listeners, listener))[other] == multiset(listeners)[other]
  {
    if listeners != [] {
      assert listeners == [listeners[0]] + listeners[1..];
      WithoutKeepsOthers(listeners[1..], listener, other);
    }
  }

  /** `createTransaction`: a copy of the record, awaiting payment and with an
      empty log, becomes current and the newest history entry; two log entries and
      a notification follow. */
  function CreateTransaction(s: State, tx: Transaction): (r: State)
    requires Valid(s)
    ensures Valid(r) && r.hasCurrent
  {
    var created := tx.(status := AwaitingPayment, logs := []);
    var s1 := s.(hasCurrent := true, history := [created] + s.history);
    var s2 := AddLog(s1, Kyc, NewSession(tx.user.fullName, tx.user.nationalId), Info);
    var s3 := AddLog(s2, Ledger, Created(tx.referenceId, tx.amountThb), Info);
    Notify(s3)
  }

  /** `triggerIncomingTransfer`, the bank's webhook. */
  function TriggerIncomingTransfer(s: State, amountThb: int, senderName: string, refId: string): (r: State)
    requires Valid(s)
    ensures Valid(r)
  {
    if !s.hasCurrent then s
    else
      var s1 := AddLog(s, Webhook, Received(amountThb, senderName, refId), Info);
      if Current(s1).status != AwaitingPayment then AddLog(s1, Webhook, LateWebhook, Warn)
      else
        var s2 := Notify(SetStatus(s1, VerifyingBank));
        s2.(pending := s2.pending + [Verify(senderName)])
  }

  /** The name check: either upper-cased name contains the other. */
  predicate NamesMatch(fullName: string, senderName: string) {
    var expected, actual := ToUpperCase(fullName), ToUpperCase(senderName);
    Includes(actual, expected) || Includes(expected, actual)
  }

  /** The body of the webhook's timer: the name check against the transaction that
      is current when it fires. */
  function VerifyName(s: State, senderName: string): (r: State)
    requires Valid(s)
    ensures Valid(r)
  {
    if !s.hasCurrent then s
    else
      var expected := ToUpperCase(Current(s).user.fullName);
      var actual := ToUpperCase(senderName);
      if NamesMatch(Current(s).user.fullName, senderName) then
        ProcessDisbursement(AddLog(s, Kyc, GuardPassed(actual), Info))
      else
        Notify(SetStatus(AddLog(s, Kyc, GuardFailed(actual, expected), Critical), Failed))
  }

  /** `processDisbursement`: above the automatic approval ceiling the transaction
      waits for an administrator; otherwise it is disbursed and settled. */
  function ProcessDisbursement(s: State): (r: State)
    requires Valid(s)
    ensures Valid(r)
  {
    if !s.hasCurrent then s
    else if Current(s).amountUsdt > MaxAutoApproveUsd * MicroPerUsdt then
      Notify(SetStatus(AddLog(s, Disburser, ApprovalRequired(MaxAutoApproveUsd), Warn), AwaitingApproval))
    else
      ExecuteFinalSettlement(Notify(SetStatus(s, Disbursing)))
  }

  /** `approveTransaction`. */
  function ApproveTransaction(s: State): (r: State)
    requires Valid(s)
    ensures Valid(r)
  {
    if !s.hasCurrent || Current(s).status != AwaitingApproval then s
    else ExecuteFinalSettlement(Notify(SetStatus(AddLog(s, Disburser, ManualApproval, Info), Disbursing)))
  }

  /** `executeFinalSettlement`: it only starts the settlement timer. */
  function ExecuteFinalSettlement(s: State): (r: State)
    requires Valid(s)
    ensures Valid(r) && r.hasCurrent == s.hasCurrent && r.history == s.history && r.logs == s.logs
    ensures r.orderBook == s.orderBook && r.listeners == s.listeners && r.delivered == s.delivered
    ensures r.pending == s.pending + [Settle]
  {
    s.(pending := s.pending + [Settle])
  }

  /** The ledger entry of the hedging step: a buy order when hedging is on, a
      warning that it was skipped otherwise. */
  function HedgeMessage(autoHedge: bool, amountUsdt: int): Message {
    if autoHedge then HedgePlaced(amountUsdt) else HedgeSkipped
  }

  /** The body of the settlement timer. */
  function Settlement(s: State): (r: State)
    requires Valid(s)
    ensures Valid(r)
  {
    if !s.hasCurrent || Current(s).status != Disbursing then s
    else
      var tx := Current(s);
      var s1 := AddLog(s, Disburser, Broadcasting(tx.amountUsdt, tx.user.walletAddress), Info);
      var s2 := s1.(orderBook := s1.orderBook.(thbReserves := s1.orderBook.thbReserves + tx.amountThb,
                                               usdtReserves := s1.orderBook.usdtReserves - tx.amountUsdt));
      var s3 := AddLog(s2, Ledger, HedgeMessage(s2.orderBook.autoHedge, tx.amountUsdt), Info);
      var s4 := SetStatus(s3, Completed);
      Notify(AddLog(s4, Ledger, Finalized(tx.referenceId), Info))
  }

  /** `toggleAutoHedge`. */
  function ToggleAutoHedge(s: State): (r: State)
    requires Valid(s)
    ensures Valid(r)
  {
    var on := !s.orderBook.autoHedge;
    AddLog(s.(orderBook := s.orderBook.(autoHedge := on)), Ledger, HedgeSwitched(on), Warn)
  }

  /** A pending timer fires: it leaves the queue and its body runs. */
  function Fire(s: State, i: nat): (r: State)
    requires Valid(s) && i < |s.pending|
    ensures Valid(r)
  {
    var s1 := s.(pending := s.pending[..i] + s.pending[i + 1..]);
    match s.pending[i]
    case Verify(senderName) => VerifyName(s1, senderName)
    case Settle => Settlement(s1)
  }
}
