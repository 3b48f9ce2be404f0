/**
 * services/mockBackend.ts as an object: the module-level variables of the source
 * are the fields of `MockBackend`, and each exported operation, helper and timer
 * body is a method that updates them in place. Every method is proved to leave
 * the object in the state the matching function of module `Lifecycle` computes,
 * so the properties proved there hold of the object.
 */
module Backend {
  import opened JsText
  import opened Types
  import L = Lifecycle

  class MockBackend {
    /** Whether `currentTransaction` is set; it is then `history[0]`. */
    var hasCurrent: bool
    /** `transactionHistory`, newest first. */
    var history: seq<Transaction>
    var listeners: seq<nat>
    /** The global log, newest first. */
    var logs: seq<LogEntry>
    var orderBook: OrderBook
    /** The started timers that have not fired yet. */
    var pending: seq<L.Task>
    /** Every listener call so far. */
    var delivered: seq<L.Delivery>

    /** The object's fields as a value of the state machine. */
    function State(): L.State
      reads this
    {
      L.State(hasCurrent, history, listeners, logs, orderBook, pending, delivered)
    }

    ghost predicate Valid()
      reads this
    {
      L.Valid(State())
    }

    /** The state the module starts in: no transaction, empty logs and the
        initial reserves. */
    constructor ()
      ensures Valid() && State() == L.Initial()
    {
      hasCurrent := false;
      history := [];
      listeners := [];
      logs := [];
      orderBook := L.InitialOrderBook;
      pending := [];
      delivered := [];
    }

    /** `addLog`. */
    method AddLog(component: LogModule, message: Message, level: Level)
      requires Valid()
      modifies this
      ensures Valid() && State() == L.AddLog(old(State()), component, message, level)
    {
      var entry := LogEntry(level, component, message);
      logs := [entry] + logs;
      if hasCurrent {
        history := history[0 := history[0].(logs := [entry] + history[0].logs)];
      }
    }

    /** `notify`: every listener, in order, receives its own copy of the current
        transaction. */
    method Notify()
      requires Valid()
      modifies this
      ensures Valid() && State() == L.Notify(old(State()))
    {
      if hasCurrent {
        var snapshot := history[0];
        var i := 0;
        while i < |listeners|
          invariant 0 <= i <= |listeners|
          invariant hasCurrent == old(hasCurrent) && history == old(history) && listeners == old(listeners)
          invariant logs == old(logs) && orderBook == old(orderBook) && pending == old(pending)
          invariant delivered == old(delivered) + L.Deliveries(listeners[..i], snapshot)
        {
          L.DeliveriesAppend(listeners[..i], [listeners[i]], snapshot);
          assert listeners[..i + 1] == listeners[..i] + [listeners[i]];
          delivered := delivered + [L.Delivery(listeners[i], snapshot)];
          i := i + 1;
        }
        assert listeners[..i] == listeners;
      }
    }

    /** `currentTransaction.status = status`. */
    method SetStatus(status: Status)
      requires Valid() && hasCurrent
      modifies this
      ensures Valid() && State() == L.SetStatus(old(State()), status)
    {
      history := history[0 := history[0].(status := status)];
    }

    /** `subscribe`. */
    method Subscribe(listener: nat)
      requires Valid()
      modifies this
      ensures Valid() && State() == L.Subscribe(old(State()), listener)
    {
      listeners := listeners + [listener];
    }

    /** The unsubscribe function `subscribe` returns. */
    method Unsubscribe(listener: nat)
      requires Valid()
      modifies this
      ensures Valid() && State() == L.Unsubscribe(old(State()), listener)
    {
      listeners := L.Without(listeners, listener);
    }

    /** `createTransaction`. */
    method CreateTransaction(tx: Transaction)
      requires Valid()
      modifies this
      ensures Valid() && State() == L.CreateTransaction(old(State()), tx)
    {
      hasCurrent := true;
      history := [tx.(status := AwaitingPayment, logs := [])] + history;
      AddLog(Kyc, NewSession(tx.user.fullName, tx.user.nationalId), Info);
      AddLog(Ledger, Created(tx.referenceId, tx.amountThb), Info);
      Notify();
    }

    /** `triggerIncomingTransfer`, the bank's webhook: the name check is started as
        a pending timer. */
    method TriggerIncomingTransfer(amountThb: int, senderName: string, refId: string)
      requires Valid()
      modifies this
      ensures Valid() && State() == L.TriggerIncomingTransfer(old(State()), amountThb, senderName, refId)
    {
      if !hasCurrent {
        return;
      }
      AddLog(Webhook, Received(amountThb, senderName, refId), Info);
      if history[0].status != AwaitingPayment {
        AddLog(Webhook, LateWebhook, Warn);
        return;
      }
      SetStatus(VerifyingBank);
      Notify();
      pending := pending + [L.Verify(senderName)];
    }

    /** The body of the webhook's timer. */
    method VerifyName(senderName: string)
      requires Valid()
      modifies this
      ensures Valid() && State() == L.VerifyName(old(State()), senderName)
    {
      if !hasCurrent {
        return;
      }
      var expected := ToUpperCase(history[0].user.fullName);
      var actual := ToUpperCase(senderName);
      if L.NamesMatch(history[0].user.fullName, senderName) {
        AddLog(Kyc, GuardPassed(actual), Info);
        ProcessDisbursement();
      } else {
        AddLog(Kyc, GuardFailed(actual, expected), Critical);
        SetStatus(Failed);
        Notify();
      }
    }

    /** `processDisbursement`. */
    method ProcessDisbursement()
      requires Valid()
      modifies this
      ensures Valid() && State() == L.ProcessDisbursement(old(State()))
    {
      if !hasCurrent {
        return;
      }
      if history[0].amountUsdt > MaxAutoApproveUsd * MicroPerUsdt {
        AddLog(Disburser, ApprovalRequired(MaxAutoApproveUsd), Warn);
        SetStatus(AwaitingApproval);
        Notify();
        return;
      }
      SetStatus(Disbursing);
      Notify();
      ExecuteFinalSettlement();
    }

    /** `approveTransaction`. */
    method ApproveTransaction()
      requires Valid()
      modifies this
      ensures Valid() && State() == L.ApproveTransaction(old(State()))
    {
      if !hasCurrent || history[0].status != AwaitingApproval {
        return;
      }
      AddLog(Disburser, ManualApproval, Info);
      SetStatus(Disbursing);
      Notify();
      ExecuteFinalSettlement();
    }

    /** `executeFinalSettlement`: the settlement is started as a pending timer. */
    method ExecuteFinalSettlement()
      requires Valid()
      modifies this
      ensures Valid() && State() == L.ExecuteFinalSettlement(old(State()))
    {
      pending := pending + [L.Settle];
    }

    /** The body of the settlement timer. */
    method Settlement()
      requires Valid()
      modifies this
      ensures Valid() && State() == L.Settlement(old(State()))
    {
      if !hasCurrent || history[0].status != Disbursing {
        return;
      }
      var tx := history[0];
      AddLog(Disburser, Broadcasting(tx.amountUsdt, tx.user.walletAddress), Info);
      orderBook := orderBook.(thbReserves := orderBook.thbReserves + tx.amountThb,
                              usdtReserves := orderBook.usdtReserves - tx.amountUsdt);
      if orderBook.autoHedge {
        AddLog(Ledger, HedgePlaced(tx.amountUsdt), Info);
      } else {
        AddLog(Ledger, HedgeSkipped, Info);
      }
      SetStatus(Completed);
      AddLog(Ledger, Finalized(tx.referenceId), Info);
      Notify();
    }

    /** `toggleAutoHedge`. */
    method ToggleAutoHedge()
      requires Valid()
      modifies this
      ensures Valid() && State() == L.ToggleAutoHedge(old(State()))
    {
      orderBook := orderBook.(autoHedge := !orderBook.autoHedge);
      AddLog(Ledger, HedgeSwitched(orderBook.autoHedge), Warn);
    }

    /** A pending timer fires: it leaves the queue and its body runs. */
    method Fire(i: nat)
      requires Valid() && i < |pending|
      modifies this
      ensures Valid() && State() == L.Fire(old(State()), i)
    {
      var task := pending[i];
      pending := pending[..i] + pending[i + 1..];
      match task
      case Verify(senderName) =>
        VerifyName(senderName);
      case Settle =>
        Settlement();
    }
  }
}
