/**
 * What the backend promises about its transaction lifecycle, proved about the
 * state machine of module `Lifecycle`.
 */
module LifecycleProperties {
  import opened JsText
  import opened Types
  import opened Lifecycle

  // ---------------------------------------------------------------------------
  // addLog and createTransaction

  /** A log entry goes in front of the global log and, when there is a current
      transaction, in front of its log too: both logs are newest first. */
  lemma {:induction false} AddLogPrepends(s: State, component: LogModule, message: Message, level: Level)
    requires Valid(s)
    ensures var r := AddLog(s, component, message, level);
      && r.logs == [LogEntry(level, component, message)] + s.logs
      && (s.hasCurrent ==> Current(r) == Current(s).(logs := [LogEntry(level, component, message)] + Current(s).logs))
      && (!s.hasCurrent ==> r.history == s.history)
  {
  }

  /** `createTransaction`: the new record, awaiting payment, is current and the
      newest history entry; its log holds the ledger entry above the KYC entry;
      the global log gains the same two entries; every listener receives it once;
      the reserves and the timers are untouched. */
  lemma {:induction false} CreateTransactionSpec(s: State, tx: Transaction)
    requires Valid(s)
    ensures var r := CreateTransaction(s, tx);
      var kyc := LogEntry(Info, Kyc, NewSession(tx.user.fullName, tx.user.nationalId));
      var ledger := LogEntry(Info, Ledger, Created(tx.referenceId, tx.amountThb));
      && r.hasCurrent
      && Current(r) == tx.(status := AwaitingPayment, logs := [ledger, kyc])
      && r.history == [Current(r)] + s.history
      && r.logs == [ledger, kyc] + s.logs
      && r.delivered == s.delivered + Deliveries(s.listeners, Current(r))
      && r.orderBook == s.orderBook && r.pending == s.pending && r.listeners == s.listeners
  {
    var kyc := LogEntry(Info, Kyc, NewSession(tx.user.fullName, tx.user.nationalId));
    var ledger := LogEntry(Info, Ledger, Created(tx.referenceId, tx.amountThb));
    var created := tx.(status := AwaitingPayment, logs := []);
    var s1 := s.(hasCurrent := true, history := [created] + s.history);
    var s2 := AddLog(s1, Kyc, NewSession(tx.user.fullName, tx.user.nationalId), Info);
    var s3 := AddLog(s2, Ledger, Created(tx.referenceId, tx.amountThb), Info);
    AddLogPrepends(s1, Kyc, NewSession(tx.user.fullName, tx.user.nationalId), Info);
    AddLogPrepends(s2, Ledger, Created(tx.referenceId, tx.amountThb), Info);
    assert Current(s3) == tx.(status := AwaitingPayment, logs := [ledger, kyc]);
    assert s3.history[1..] == s.history by {
      assert s1.history[1..] == s.history;
    }
    assert s3.history == [Current(s3)] + s3.history[1..];
    assert s3.logs == [ledger, kyc] + s.logs;
  }

  // ---------------------------------------------------------------------------
  // The webhook

  /** Without a current transaction the webhook changes nothing, not even the log. */
  lemma WebhookWithoutTransaction(s: State, amountThb: int, senderName: string, refId: string)
    requires Valid(s) && !s.hasCurrent
    ensures TriggerIncomingTransfer(s, amountThb, senderName, refId) == s
  {
  }

  /** A webhook for a transaction that no longer awaits payment only logs: the
      receipt, then the warning; nothing else changes and no timer starts. */
  lemma {:induction false} LateWebhookIgnored(s: State, amountThb: int, senderName: string, refId: string)
    requires Valid(s) && s.hasCurrent && Current(s).status != AwaitingPayment
    ensures var r := TriggerIncomingTransfer(s, amountThb, senderName, refId);
      var received := LogEntry(Info, Webhook, Received(amountThb, senderName, refId));
      var late := LogEntry(Warn, Webhook, LateWebhook);
      && r.hasCurrent
      && Current(r) == Current(s).(logs := [late, received] + Current(s).logs)
      && r.logs == [late, received] + s.logs
      && KeepsOlder(s, r)
      && r.orderBook == s.orderBook && r.pending == s.pending && r.delivered == s.delivered
  {
    var s1 := AddLog(s, Webhook, Received(amountThb, senderName, refId), Info);
    AddLogPrepends(s, Webhook, Received(amountThb, senderName, refId), Info);
    AddLogPrepends(s1, Webhook, LateWebhook, Warn);
  }

  /** A webhook for a transaction awaiting payment moves it to VERIFYING_BANK,
      notifies the listeners and starts the name check with the sender's name. */
  lemma {:induction false} WebhookAccepted(s: State, amountThb: int, senderName: string, refId: string)
    requires Valid(s) && s.hasCurrent && Current(s).status == AwaitingPayment
    ensures var r := TriggerIncomingTransfer(s, amountThb, senderName, refId);
      var received := LogEntry(Info, Webhook, Received(amountThb, senderName, refId));
      && r.hasCurrent
      && Current(r) == Current(s).(status := VerifyingBank, logs := [received] + Current(s).logs)
      && r.logs == [received] + s.logs
      && KeepsOlder(s, r)
      && r.pending == s.pending + [Verify(senderName)]
      && r.delivered == s.delivered + Deliveries(s.listeners, Current(r))
      && r.orderBook == s.orderBook
  {
    AddLogPrepends(s, Webhook, Received(amountThb, senderName, refId), Info);
  }

  // ---------------------------------------------------------------------------
  // The name check

  /** An empty sender name is contained in every name, so it always passes. */
  lemma EmptySenderMatches(fullName: string)
    ensures NamesMatch(fullName, "")
  {
    assert ToUpperCase("") == "";
  }

  /** A sender name that contains the registered name, in any letter case,
      passes. */
  lemma {:induction false} SenderContainingNameMatches(fullName: string, before: string, after: string)
    ensures NamesMatch(fullName, before + fullName + after)
  {
    ToUpperCaseConcat(before, fullName);
    ToUpperCaseConcat(before + fullName, after);
    IncludesInfix(ToUpperCase(before), ToUpperCase(fullName), ToUpperCase(after));
  }

  /** The check is blind to letter case: upper-casing either name first changes
      nothing. */
  lemma {:induction false} NamesMatchIgnoresCase(fullName: string, senderName: string)
    ensures NamesMatch(ToUpperCase(fullName), senderName) == NamesMatch(fullName, senderName)
    ensures NamesMatch(fullName, ToUpperCase(senderName)) == NamesMatch(fullName, senderName)
  {
    ToUpperCaseIdempotent(fullName);
    ToUpperCaseIdempotent(senderName);
  }

  /** The name check fails exactly when neither name contains the other. On
      failure the transaction is FAILED after a CRITICAL KYC entry and no timer
      starts; on success a KYC entry is logged and the disbursement step runs, which
      leaves the transaction awaiting approval or disbursing. Either way the
      listeners are notified once with the outcome; the reserves never change. */
  lemma {:induction false} NameCheck(s: State, senderName: string)
    requires Valid(s) && s.hasCurrent
    ensures var r := VerifyName(s, senderName);
      var expected := ToUpperCase(Current(s).user.fullName);
      var actual := ToUpperCase(senderName);
      && r.hasCurrent && KeepsOlder(s, r) && r.orderBook == s.orderBook
      && r.delivered == s.delivered + Deliveries(s.listeners, Current(r))
      && (Current(r).status == Failed <==> !NamesMatch(Current(s).user.fullName, senderName))
      && (!NamesMatch(Current(s).user.fullName, senderName) ==>
            && r.logs == [LogEntry(Critical, Kyc, GuardFailed(actual, expected))] + s.logs
            && Current(r) == Current(s).(status := Failed, logs := [LogEntry(Critical, Kyc, GuardFailed(actual, expected))] + Current(s).logs)
            && r.pending == s.pending)
      && (NamesMatch(Current(s).user.fullName, senderName) ==>
            && r.logs[|r.logs| - |s.logs| - 1] == LogEntry(Info, Kyc, GuardPassed(actual))
            && (Current(r).status == AwaitingApproval || Current(r).status == Disbursing))
  {
    var expected := ToUpperCase(Current(s).user.fullName);
    var actual := ToUpperCase(senderName);
    if NamesMatch(Current(s).user.fullName, senderName) {
      var s1 := AddLog(s, Kyc, GuardPassed(actual), Info);
      AddLogPrepends(s, Kyc, GuardPassed(actual), Info);
      Disbursement(s1);
      var r := ProcessDisbursement(s1);
      assert r.logs[|r.logs| - |s1.logs|..] == s1.logs;
      assert s1.logs[0] == r.logs[|r.logs| - |s.logs| - 1];
    } else {
      var s1 := AddLog(s, Kyc, GuardFailed(actual, expected), Critical);
      AddLogPrepends(s, Kyc, GuardFailed(actual, expected), Critical);
    }
  }

  /** The name check does not look at the status: a check left over from an
      earlier webhook that fires on a COMPLETED transaction, with a name that
      passes and an amount within the ceiling, sets it back to DISBURSING and
      starts a second settlement. */
  lemma {:induction false} StaleCheckReopens(s: State, senderName: string)
    requires Valid(s) && s.hasCurrent && Current(s).status == Completed
    requires NamesMatch(Current(s).user.fullName, senderName)
    requires Current(s).amountUsdt <= MaxAutoApproveUsd * MicroPerUsdt
    ensures var r := VerifyName(s, senderName);
      && r.hasCurrent && Current(r).status == Disbursing
      && r.pending == s.pending + [Settle]
  {
    var s1 := AddLog(s, Kyc, GuardPassed(ToUpperCase(senderName)), Info);
    AddLogPrepends(s, Kyc, GuardPassed(ToUpperCase(senderName)), Info);
    Disbursement(s1);
  }

  // ---------------------------------------------------------------------------
  // Disbursement, approval, settlement

  /** `processDisbursement` with a current transaction: above 5000 USDT it waits
      for approval, with a WARN entry and no timer; at 5000 USDT or less it is
      disbursing, with no entry and one settlement timer. Only the current
      transaction changes, the listeners are notified with its new status, and the
      reserves do not change. */
  lemma {:induction false} Disbursement(s: State)
    requires Valid(s) && s.hasCurrent
    ensures var r := ProcessDisbursement(s);
      var t := Current(s);
      && r.hasCurrent && KeepsOlder(s, r) && r.orderBook == s.orderBook
      && r.delivered == s.delivered + Deliveries(s.listeners, Current(r))
      && (t.amountUsdt > MaxAutoApproveUsd * MicroPerUsdt ==>
            && Current(r) == t.(status := AwaitingApproval, logs := [LogEntry(Warn, Disburser, ApprovalRequired(MaxAutoApproveUsd))] + t.logs)
            && r.logs == [LogEntry(Warn, Disburser, ApprovalRequired(MaxAutoApproveUsd))] + s.logs
            && r.pending == s.pending)
      && (t.amountUsdt <= MaxAutoApproveUsd * MicroPerUsdt ==>
            && Current(r) == t.(status := Disbursing)
            && r.logs == s.logs
            && r.pending == s.pending + [Settle])
  {
    if Current(s).amountUsdt > MaxAutoApproveUsd * MicroPerUsdt {
      AddLogPrepends(s, Disburser, ApprovalRequired(MaxAutoApproveUsd), Warn);
    }
  }

  /** Exactly 5000 USDT is still approved automatically. */
  lemma CeilingIsInclusive(s: State)
    requires Valid(s) && s.hasCurrent && Current(s).amountUsdt == 5000 * MicroPerUsdt
    ensures ProcessDisbursement(s).hasCurrent && Current(ProcessDisbursement(s)).status == Disbursing
  {
    Disbursement(s);
  }

  /** `approveTransaction` does nothing unless the current transaction awaits
      approval; then it logs the approval, disburses, notifies the listeners and
      starts the settlement. */
  lemma {:induction false} Approval(s: State)
    requires Valid(s)
    ensures var r := ApproveTransaction(s);
      && (!s.hasCurrent || Current(s).status != AwaitingApproval ==> r == s)
      && (s.hasCurrent && Current(s).status == AwaitingApproval ==>
            var entry := LogEntry(Info, Disburser, ManualApproval);
            && r.hasCurrent
            && Current(r) == Current(s).(status := Disbursing, logs := [entry] + Current(s).logs)
            && r.logs == [entry] + s.logs && KeepsOlder(s, r)
            && r.pending == s.pending + [Settle] && r.orderBook == s.orderBook
            && r.delivered == s.delivered + Deliveries(s.listeners, Current(r)))
  {
    if s.hasCurrent && Current(s).status == AwaitingApproval {
      AddLogPrepends(s, Disburser, ManualApproval, Info);
    }
  }

  /** The settlement of a disbursing transaction: the baht reserve gains the
      transaction's baht, the USDT reserve loses its USDT, the hedging flag stays,
      three entries are logged (broadcast, hedge, finalisation, newest first) and
      the transaction is COMPLETED, of which the listeners are notified. */
  lemma {:induction false} SettlementCredits(s: State)
    requires Valid(s) && s.hasCurrent && Current(s).status == Disbursing
    ensures var r := Settlement(s);
      var t := Current(s);
      var broadcast := LogEntry(Info, Disburser, Broadcasting(t.amountUsdt, t.user.walletAddress));
      var hedge := LogEntry(Info, Ledger, HedgeMessage(s.orderBook.autoHedge, t.amountUsdt));
      var finalized := LogEntry(Info, Ledger, Finalized(t.referenceId));
      && r.hasCurrent
      && r.orderBook == OrderBook(s.orderBook.thbReserves + t.amountThb, s.orderBook.usdtReserves - t.amountUsdt, s.orderBook.autoHedge)
      && Current(r) == t.(status := Completed, logs := [finalized, hedge, broadcast] + t.logs)
      && r.logs == [finalized, hedge, broadcast] + s.logs
      && KeepsOlder(s, r) && r.pending == s.pending
      && r.delivered == s.delivered + Deliveries(s.listeners, Current(r))
  {
    SettlementSteps(s);
    var r := Settlement(s);
    var t := Current(s);
    assert Current(r) == t.(status := Completed, logs := Current(r).logs);
  }

  /** The steps of `Settlement` one by one. */
  lemma {:induction false} SettlementSteps(s: State)
    requires Valid(s) && s.hasCurrent && Current(s).status == Disbursing
    ensures var r := Settlement(s);
      var t := Current(s);
      var broadcast := LogEntry(Info, Disburser, Broadcasting(t.amountUsdt, t.user.walletAddress));
      var hedge := LogEntry(Info, Ledger, HedgeMessage(s.orderBook.autoHedge, t.amountUsdt));
      var finalized := LogEntry(Info, Ledger, Finalized(t.referenceId));
      && r.hasCurrent
      && r.orderBook == OrderBook(s.orderBook.thbReserves + t.amountThb, s.orderBook.usdtReserves - t.amountUsdt, s.orderBook.autoHedge)
      && Current(r).logs == [finalized, hedge, broadcast] + t.logs
      && Current(r).status == Completed
      && r.logs == [finalized, hedge, broadcast] + s.logs
      && KeepsOlder(s, r) && r.pending == s.pending
      && r.delivered == s.delivered + Deliveries(s.listeners, Current(r))
  {
    var t := Current(s);
    var s1 := AddLog(s, Disburser, Broadcasting(t.amountUsdt, t.user.walletAddress), Info);
    AddLogPrepends(s, Disburser, Broadcasting(t.amountUsdt, t.user.walletAddress), Info);
    var s2 := s1.(orderBook := s1.orderBook.(thbReserves := s1.orderBook.thbReserves + t.amountThb,
                                             usdtReserves := s1.orderBook.usdtReserves - t.amountUsdt));
    var s3 := AddLog(s2, Ledger, HedgeMessage(s2.orderBook.autoHedge, t.amountUsdt), Info);
    AddLogPrepends(s2, Ledger, HedgeMessage(s2.orderBook.autoHedge, t.amountUsdt), Info);
    var s4 := SetStatus(s3, Completed);
    AddLogPrepends(s4, Ledger, Finalized(t.referenceId), Info);
  }

  /** Settlement does nothing unless the current transaction is disbursing. */
  lemma SettlementIgnored(s: State)
    requires Valid(s) && (!s.hasCurrent || Current(s).status != Disbursing)
    ensures Settlement(s) == s
  {
  }

  /** A second settlement right after the first does nothing. */
  lemma {:induction false} SettlementOnce(s: State)
    requires Valid(s)
    ensures Settlement(Settlement(s)) == Settlement(s)
  {
    if s.hasCurrent && Current(s).status == Disbursing {
      SettlementCredits(s);
    }
  }

  /** Two settlement timers fired one after the other credit the reserves once:
      the second finds the transaction no longer disbursing. */
  lemma {:induction false} NoDoubleCredit(s: State, i: nat, j: nat)
    requires Valid(s) && i < |s.pending| && s.pending[i] == Settle
    requires j < |Fire(s, i).pending| && Fire(s, i).pending[j] == Settle
    ensures Fire(Fire(s, i), j).orderBook == Fire(s, i).orderBook
  {
    var s1 := s.(pending := s.pending[..i] + s.pending[i + 1..]);
    SettlementOnce(s1);
    var r1 := Fire(s, i);
    var t1 := r1.(pending := r1.pending[..j] + r1.pending[j + 1..]);
    if s1.hasCurrent && Current(s1).status == Disbursing {
      SettlementCredits(s1);
    }
    assert !t1.hasCurrent || Current(t1).status != Disbursing;
  }

  /** `toggleAutoHedge` flips the flag, leaves the reserves, and logs one WARN
      LEDGER entry with the new setting, in front of the global log and of the
      current transaction's log; nothing else changes and no listener is called. */
  lemma {:induction false} ToggleAutoHedgeSpec(s: State)
    requires Valid(s)
    ensures var r := ToggleAutoHedge(s);
      && r.orderBook == s.orderBook.(autoHedge := !s.orderBook.autoHedge)
      && r.logs == [LogEntry(Warn, Ledger, HedgeSwitched(!s.orderBook.autoHedge))] + s.logs
      && r.hasCurrent == s.hasCurrent && KeepsOlder(s, r)
      && (s.hasCurrent ==> Current(r) == Current(s).(logs := [LogEntry(Warn, Ledger, HedgeSwitched(!s.orderBook.autoHedge))] + Current(s).logs))
      && r.pending == s.pending && r.delivered == s.delivered && r.listeners == s.listeners
  {
    var on := !s.orderBook.autoHedge;
    AddLogPrepends(s.(orderBook := s.orderBook.(autoHedge := on)), Ledger, HedgeSwitched(on), Warn);
  }

  /** Toggling twice restores the order book. */
  lemma ToggleTwice(s: State)
    requires Valid(s)
    ensures ToggleAutoHedge(ToggleAutoHedge(s)).orderBook == s.orderBook
  {
  }

  // ---------------------------------------------------------------------------
  // Listeners

  /** A subscribed listener is called by the next notification, after the
      listeners subscribed before it. */
  lemma {:induction false} SubscribedListenerNotified(s: State, listener: nat)
    requires Valid(s) && s.hasCurrent
    ensures Notify(Subscribe(s, listener)).delivered
         == Notify(s).delivered + [Delivery(listener, Current(s))]
  {
    DeliveriesAppend(s.listeners, [listener], Current(s));
  }

  /** After unsubscribing, a notification no longer calls the listener, and still
      calls every other listener, in order of subscription. */
  lemma {:induction false} UnsubscribedListenerSilent(s: State, listener: nat)
    requires Valid(s)
    ensures var r := Notify(Unsubscribe(s, listener));
      forall d :: d in r.delivered[|s.delivered|..] ==> d.listener != listener
    ensures s.hasCurrent ==>
      Notify(Unsubscribe(s, listener)).delivered
        == s.delivered + Deliveries(Without(s.listeners, listener), Current(s))
  {
    var u := Unsubscribe(s, listener);
    var r := Notify(u);
    if s.hasCurrent {
      assert r.delivered[|s.delivered|..] == Deliveries(u.listeners, Current(u));
    } else {
      assert r.delivered[|s.delivered|..] == [];
    }
  }

  // ---------------------------------------------------------------------------
  // The designed flow

  /** The happy path: a transaction within the ceiling is created, its payment
      arrives from a sender whose name matches, the name check fires and the
      settlement fires. The transaction ends COMPLETED, the reserves are credited
      with its amounts exactly once, and no timer is left. */
  lemma {:induction false} HappyPath(s: State, tx: Transaction, amountThb: int, senderName: string, refId: string)
    requires Valid(s) && s.pending == []
    requires NamesMatch(tx.user.fullName, senderName)
    requires tx.amountUsdt <= MaxAutoApproveUsd * MicroPerUsdt
    ensures var s1 := Apply(s, NewTransaction(tx));
      var s2 := Apply(s1, IncomingTransfer(amountThb, senderName, refId));
      && s2.pending == [Verify(senderName)]
      && var s3 := Apply(s2, FireTimer(0));
      && s3.pending == [Settle]
      && var s4 := Apply(s3, FireTimer(0));
      && s4.pending == []
      && s4.hasCurrent && Current(s4).status == Completed
      && Current(s4).referenceId == tx.referenceId
      && s4.orderBook == s.orderBook.(thbReserves := s.orderBook.thbReserves + tx.amountThb,
                                      usdtReserves := s.orderBook.usdtReserves - tx.amountUsdt)
      && s4.history[1..] == s.history
  {
    var s1 := Apply(s, NewTransaction(tx));
    var s2 := Apply(s1, IncomingTransfer(amountThb, senderName, refId));
    PaymentArrives(s, tx, amountThb, senderName, refId);
    var s3 := Apply(s2, FireTimer(0));
    NamePasses(s2, senderName);
    SettlementFires(s3);
  }

  /** The first two steps of the happy path: creation, then the webhook. */
  lemma {:induction false} PaymentArrives(s: State, tx: Transaction, amountThb: int, senderName: string, refId: string)
    requires Valid(s) && s.pending == []
    ensures var s2 := Apply(Apply(s, NewTransaction(tx)), IncomingTransfer(amountThb, senderName, refId));
      && s2.pending == [Verify(senderName)]
      && s2.hasCurrent
      && Current(s2) == tx.(status := VerifyingBank, logs := Current(s2).logs)
      && s2.orderBook == s.orderBook && s2.history[1..] == s.history
  {
    var s1 := Apply(s, NewTransaction(tx));
    CreateTransactionSpec(s, tx);
    WebhookAccepted(s1, amountThb, senderName, refId);
  }

  /** The third step: the name check fires, passes and disburses within the
      ceiling. */
  lemma {:induction false} NamePasses(s: State, senderName: string)
    requires Valid(s) && s.pending == [Verify(senderName)] && s.hasCurrent
    requires NamesMatch(Current(s).user.fullName, senderName)
    requires Current(s).amountUsdt <= MaxAutoApproveUsd * MicroPerUsdt
    ensures var r := Apply(s, FireTimer(0));
      && r.pending == [Settle]
      && r.hasCurrent
      && Current(r) == Current(s).(status := Disbursing, logs := Current(r).logs)
      && r.orderBook == s.orderBook && KeepsOlder(s, r)
  {
    var v := s.(pending := []);
    var v1 := AddLog(v, Kyc, GuardPassed(ToUpperCase(senderName)), Info);
    AddLogPrepends(v, Kyc, GuardPassed(ToUpperCase(senderName)), Info);
    Disbursement(v1);
  }

  /** The last step: the settlement fires on the disbursing transaction. */
  lemma {:induction false} SettlementFires(s: State)
    requires Valid(s) && s.pending == [Settle] && s.hasCurrent && Current(s).status == Disbursing
    ensures var r := Apply(s, FireTimer(0));
      && r.pending == []
      && r.hasCurrent
      && Current(r) == Current(s).(status := Completed, logs := Current(r).logs)
      && r.orderBook == s.orderBook.(thbReserves := s.orderBook.thbReserves + Current(s).amountThb,
                                     usdtReserves := s.orderBook.usdtReserves - Current(s).amountUsdt)
      && KeepsOlder(s, r)
  {
    SettlementCredits(s.(pending := []));
  }

  // ---------------------------------------------------------------------------
  // Every operation

  /** The approval gate: a transaction above the ceiling that awaits approval
      reaches DISBURSING only through `approveTransaction` (or is replaced by a
      new transaction). Every other operation leaves it short of DISBURSING and
      the reserves untouched. */
  lemma {:induction false} ApprovalGate(s: State, op: Op)
    requires Valid(s) && Enabled(s, op) && s.hasCurrent
    requires Current(s).status == AwaitingApproval
    requires Current(s).amountUsdt > MaxAutoApproveUsd * MicroPerUsdt
    requires !op.Approve? && !op.NewTransaction?
    ensures Apply(s, op).hasCurrent
    ensures Current(Apply(s, op)).status != Disbursing
    ensures Apply(s, op).orderBook.thbReserves == s.orderBook.thbReserves
    ensures Apply(s, op).orderBook.usdtReserves == s.orderBook.usdtReserves
  {
    match op
    case IncomingTransfer(amount, senderName, refId) =>
      LateWebhookIgnored(s, amount, senderName, refId);
    case Disburse =>
      Disbursement(s);
    case ToggleHedge =>
      ToggleAutoHedgeSpec(s);
    case FireTimer(i) =>
      var s1 := s.(pending := s.pending[..i] + s.pending[i + 1..]);
      if s.pending[i].Verify? {
        var senderName := s.pending[i].senderName;
        NameCheck(s1, senderName);
        if NamesMatch(Current(s1).user.fullName, senderName) {
          var s2 := AddLog(s1, Kyc, GuardPassed(ToUpperCase(senderName)), Info);
          AddLogPrepends(s1, Kyc, GuardPassed(ToUpperCase(senderName)), Info);
          Disbursement(s2);
        }
      } else {
        assert Settlement(s1) == s1;
      }
    case _ =>
  }

  /** The reserves change only when a settlement timer fires on a disbursing
      transaction. */
  lemma {:induction false} ReservesOnlyInSettlement(s: State, op: Op)
    requires Valid(s) && Enabled(s, op)
    requires Apply(s, op).orderBook.thbReserves != s.orderBook.thbReserves
          || Apply(s, op).orderBook.usdtReserves != s.orderBook.usdtReserves
    ensures op.FireTimer? && s.pending[op.index] == Settle
    ensures s.hasCurrent && Current(s).status == Disbursing
  {
    match op
    case IncomingTransfer(amount, senderName, refId) =>
      assert false;
    case Disburse =>
      if s.hasCurrent {
        Disbursement(s);
      }
      assert false;
    case Approve =>
      Approval(s);
      assert false;
    case ToggleHedge =>
      assert false;
    case FireTimer(i) =>
      FireEffects(s, i);
    case _ =>
  }

  /** No operation touches a transaction older than the current one, and only
      `createTransaction` adds to the history, in front. */
  lemma {:induction false} HistoryOnlyGrowsInFront(s: State, op: Op)
    requires Valid(s) && Enabled(s, op)
    ensures var r := Apply(s, op);
      if op.NewTransaction? then r.history[1..] == s.history else KeepsOlder(s, r)
  {
    match op
    case NewTransaction(tx) =>
      CreateTransactionSpec(s, tx);
    case IncomingTransfer(amount, senderName, refId) =>
      if s.hasCurrent && Current(s).status != AwaitingPayment {
        LateWebhookIgnored(s, amount, senderName, refId);
      } else if s.hasCurrent {
        WebhookAccepted(s, amount, senderName, refId);
      }
    case Disburse =>
      if s.hasCurrent {
        Disbursement(s);
      }
    case Approve =>
      Approval(s);
    case ToggleHedge =>
      ToggleAutoHedgeSpec(s);
    case FireTimer(i) =>
      FireEffects(s, i);
    case _ =>
  }

  /** A timer firing changes only the current transaction, and only a settlement
      of a disbursing transaction moves the reserves. */
  lemma {:induction false} FireEffects(s: State, i: nat)
    requires Valid(s) && i < |s.pending|
    ensures KeepsOlder(s, Fire(s, i))
    ensures !(s.pending[i] == Settle && s.hasCurrent && Current(s).status == Disbursing) ==>
      Fire(s, i).orderBook == s.orderBook
  {
    var s1 := s.(pending := s.pending[..i] + s.pending[i + 1..]);
    if s.pending[i].Verify? {
      if s1.hasCurrent {
        NameCheck(s1, s.pending[i].senderName);
      }
    } else if s1.hasCurrent && Current(s1).status == Disbursing {
      SettlementCredits(s1);
    }
  }

  /** A COMPLETED or FAILED transaction keeps its status and the reserves stay
      put under a webhook, an approval or a settlement. */
  lemma {:induction false} TerminalStatusesKept(s: State, op: Op)
    requires Valid(s) && Enabled(s, op) && s.hasCurrent
    requires Current(s).status == Completed || Current(s).status == Failed
    requires op.IncomingTransfer? || op.Approve? || (op.FireTimer? && s.pending[op.index] == Settle)
    ensures Apply(s, op).hasCurrent
    ensures Current(Apply(s, op)).status == Current(s).status
    ensures Apply(s, op).orderBook == s.orderBook
  {
    if op.IncomingTransfer? {
      LateWebhookIgnored(s, op.amountThb, op.senderName, op.refId);
    } else if op.FireTimer? {
      var s1 := s.(pending := s.pending[..op.index] + s.pending[op.index + 1..]);
      assert Settlement(s1) == s1;
    }
  }
}
