/**
 * The records of types.ts and the constants of constants.ts that the core reads.
 *
 * Amounts are integers in the smallest unit: baht as satang (1/100) and USDT as
 * micro-USDT (1/1,000,000). A log entry carries its level, module and message;
 * the message is the template the source fills in, with its interpolated values.
 */
module Types {
  import opened Wrappers

  /** `TransactionStatus`, with `AWAITING_APPROVAL`, which the backend assigns
      although the enumeration does not list it. */
  datatype Status =
    | Idle
    | KycPending
    | AwaitingPayment
    | VerifyingBank
    | AwaitingApproval
    | Disbursing
    | Completed
    | Failed

  datatype Level = Info | Warn | Critical

  datatype LogModule = Webhook | Kyc | Ledger | Disburser

  /** The message templates of the backend's log calls. */
  datatype Message =
    | NewSession(fullName: string, nationalId: string)
    | Created(referenceId: string, amountThb: int)
    | Received(amountThb: int, senderName: string, refId: string)
    | LateWebhook
    | GuardPassed(actualName: string)
    | GuardFailed(actualName: string, expectedName: string)
    | ApprovalRequired(limitUsd: int)
    | ManualApproval
    | Broadcasting(amountUsdt: int, walletAddress: string)
    | HedgePlaced(amountUsdt: int)
    | HedgeSkipped
    | Finalized(referenceId: string)
    | HedgeSwitched(on: bool)

  /** `LogEntry` without its timestamp and hash. */
  datatype LogEntry = LogEntry(level: Level, component: LogModule, message: Message)

  datatype UserKyc = UserKyc(fullName: string, nationalId: string, walletAddress: string, isVerified: bool)

  /** `Transaction` without its exchange rate and creation time. */
  datatype Transaction = Transaction(
    id: string,
    referenceId: string,
    user: UserKyc,
    amountThb: int,
    amountUsdt: int,
    status: Status,
    logs: seq<LogEntry>,
    qrPayload: Option<string>,
    memo: Option<string>)

  /** `OrderBook` without its spread, which the backend never reads. */
  datatype OrderBook = OrderBook(thbReserves: int, usdtReserves: int, autoHedge: bool)

  /** `PROMPTPAY_ID`, the merchant's mobile number. */
  const PromptPayId: string := "0899999999"

  /** `MAX_AUTO_APPROVE_USD`, in whole USDT. */
  const MaxAutoApproveUsd: int := 5000

  const SatangPerBaht: int := 100

  const MicroPerUsdt: int := 1_000_000
}
