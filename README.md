# PromptPay-Direct core, modelled in Dafny

PromptPay-Direct is a gateway that takes Thai baht through PromptPay and pays out USDT. This
project models its core:

- **The PromptPay QR payload generator** (`utils/promptpay.ts`). It has four parts:
  - the EMVCo CRC-16/CCITT checksum;
  - the tag-length-value encoder `f`;
  - the classification of a PromptPay identifier into a mobile number, a national ID or an
    e-wallet;
  - the assembly of the payload.
- **The two string helpers** of `utils/security.ts`: `maskPII` and the DJB2 `generateHash`.
- **The simulated backend** (`services/mockBackend.ts`). It holds the current transaction, the
  history, the listeners, the global log and the order book. Its operations are:
  - create a transaction;
  - the bank webhook, and its delayed name check;
  - disbursement, with a ceiling of 5000 USDT above which an administrator must approve;
  - manual approval;
  - the delayed settlement that moves the reserves;
  - the hedging switch.
- **The records** of `types.ts` and the two constants of `constants.ts` that the core reads.

## Modules

- `Wrappers`: `Option`.
- `JsText`: the JavaScript string and number operations the core uses. These are:
  - `replace(/\D/g, '')`;
  - `toString(radix)`;
  - `padStart`;
  - `toUpperCase` on ASCII;
  - `includes`.
- `Crc16`: `calculateCRC16`.
  - The source keeps the register as a JavaScript int32. Its bit operations are exactly
    32-bit operations, so the register is a `bv32`.
  - The method `CalculateCrc16` runs the source's two loops, masking once per byte. It is proved
    equal to a reference CRC that masks to 16 bits after every shift.
  - The register stays within 16 bits after each byte.
  - The reference CRC maps `"123456789"` to the standard check value `29B1`.
- `PromptPay`: `f` (`Field`), `getTargetTypeAndValue`, the amount formatting, and
  `generatePromptPayPayload`.
  - A TLV decoder (`Decode`) serves as the encoder's inverse.
  - The payload is proved to decode into its data objects, in order. Field `54` is present
    exactly when an amount is given, and reads back as that amount.
- `Security`: `maskPII`, and `generateHash` as a loop that follows JavaScript's 32-bit shift
  and `>>> 0`. It is proved equal to DJB2 modulo 2^32, printed in lower-case hexadecimal.
- `Types`:
  - the transaction status, including `AWAITING_APPROVAL`, which the backend assigns although the
    enumeration lacks it;
  - log entries, with their messages as data;
  - the user, the transaction and the order book;
  - `PROMPTPAY_ID` and `MAX_AUTO_APPROVE_USD`.
  - Baht amounts are integers in satang and USDT amounts in micro-USDT.
- `Lifecycle`: the backend as a state machine on values. Each operation, helper and timer body is
  a function from state to state.
  - The current transaction is the newest history entry, `history[0]`. In the source they are
    one object.
  - A started `setTimeout` is a pending `Task`. `Fire` runs any pending task, and the task reads
    the state at the moment it fires.
- `LifecycleProperties`: what the backend promises, proved about `Lifecycle`.
- `Backend`: the class `MockBackend`. Its fields are the module variables of
  `services/mockBackend.ts` and its methods update them in place. Each method is proved to leave
  exactly the state that the matching `Lifecycle` function computes.

## Notable behaviour of the code, which the model follows

- **Classification.** The code tests the local mobile form first, then `66…`, then
  `0066…`, then 13 digits, then 15 digits.
  - A 10-digit number is a mobile number only when it starts with `06`, `08` or `09`. Other
    10-digit numbers fall back to tag `02` unchanged.
  - Every 13-digit number that does not start with `0066` gets tag `02`, whatever its first digit.
- **`f` never omits a field.** It encodes an empty value as `id00`, and nothing bounds the length.
  The optional amount field is left out by the caller's conditional, not by `f`.
- **No merchant name or city.** The payload has no fields `59` and `60`, which the EMVCo merchant-presented QR specification lists as mandatory.
- **The late webhook writes two entries.** A webhook for a transaction that no longer awaits
  payment logs the receipt (INFO) and then the warning (WARN).
- **The name check ignores the status.** The delayed name check, and `processDisbursement`, check
  only that a current transaction exists. So a COMPLETED or FAILED transaction is not final.
  - A check left over from an earlier webhook can find a different, or already settled, current
    transaction.
  - `StaleCheckReopens` shows it reopening a COMPLETED transaction to DISBURSING and starting a
    second settlement.
  - `NameCheck` shows that a failing name sets FAILED from any status.
  - Two settlements in a row still credit the reserves once (`NoDoubleCredit`).

## Model

| member | source | states |
|---|---|---|
| JsText.DigitsOnly | utils/promptpay.ts:54 | the result is all digits, no longer than the input, and contains exactly the input's digit characters; with DigitsOnlyConcat, the same digits in order with their repetitions |
| JsText.DigitsOnlyConcat | utils/promptpay.ts:54 | the filter works piece by piece, so separators anywhere are dropped and the digits keep their order |
| JsText.DigitsOnlyFixedPoint | utils/promptpay.ts:54 | a string is unchanged by the filter exactly when it is all digits |
| JsText.ToRadix | utils/promptpay.ts:39 | `toString(radix)` is at least one digit, each a digit of the radix |
| JsText.ParseToRadix | utils/promptpay.ts:39 | reading the digits back gives the number |
| JsText.ToRadixNoLeadingZero | utils/security.ts:14 | the first digit is `0` only for zero |
| JsText.ToRadixLength | utils/security.ts:14 | a number below radix^k has at most k digits |
| JsText.PadStart | utils/promptpay.ts:29 | the padded string has the requested width (or keeps its length), ends in the original and is filled in front |
| JsText.ToUpperCase | services/mockBackend.ts:74-75 | upper-casing keeps the length and maps each ASCII lower-case letter to its capital |
| JsText.ToUpperCaseIdempotent | services/mockBackend.ts:74-75 | upper-casing twice is upper-casing once |
| JsText.ToUpperCaseConcat | services/mockBackend.ts:74-75 | upper-casing distributes over concatenation |
| JsText.IncludesAtOffset | services/mockBackend.ts:78 | `includes` holds exactly when the needle occurs at some offset |
| JsText.IncludesInfix | services/mockBackend.ts:78 | a string includes anything it has in its middle |
| Crc16.Crc | utils/promptpay.ts:11-26 | the reference register holds a 16-bit value after every byte |
| Crc16.MaskShifts | utils/promptpay.ts:16-25 | masking the int32 register once after n shifts equals masking after each shift |
| Crc16.ByteStep | utils/promptpay.ts:14-25 | one byte of the source's loop, masked at the end, is one byte update of the reference CRC on the character's low byte |
| Crc16.ShiftByte | utils/promptpay.ts:16-23 | the inner loop performs exactly eight polynomial shifts |
| Crc16.CalculateCrc16 | utils/promptpay.ts:10-30 | the method's result is the reference checksum of the characters' bytes, printed |
| Crc16.FormatRegister | utils/promptpay.ts:29 | definition of `toString(16).toUpperCase().padStart(4, '0')`; see FormatRegisterShape |
| Crc16.Crc16Hex | utils/promptpay.ts:10-30 | definition: the printed reference checksum; see CalculateCrc16, Crc16HexShape and CheckValue |
| Crc16.Crc16HexShape | utils/promptpay.ts:29 | the checksum is four upper-case hexadecimal digits that read back as the 16-bit register |
| Crc16.FormatRegisterShape | utils/promptpay.ts:29 | any 16-bit value prints as four upper-case hex digits, zero-padded, reading back as the value |
| Crc16.Crc16HexEmpty | utils/promptpay.ts:11-29 | the checksum of the empty string is `FFFF`, the initial register |
| Crc16.CheckValue | utils/promptpay.ts:1-30 | the checksum of `123456789` is `29B1`, the CRC-16/CCITT-FALSE check value |
| Crc16.CrcSnoc | utils/promptpay.ts:13-26 | the checksum of data plus one byte is one update of the checksum of the data |
| PromptPay.Field | utils/promptpay.ts:38-41 | `f` is the ID, two length digits and the value when the value has at most 99 characters; a longer value gets three or more length digits |
| PromptPay.LengthDigitsValue | utils/promptpay.ts:39 | a length up to 99 is two decimal digits that read back as the length |
| PromptPay.Encode | utils/promptpay.ts:38-41 | definition: one data object through `f`; see DecodeField and DecodeEncodeAll |
| PromptPay.EncodeAll | utils/promptpay.ts:118 | definition: `tags.join('')`; see DecodeEncodeAll |
| PromptPay.Decode | utils/promptpay.ts:38-41 | definition of a TLV reader independent of the encoder; see DecodeField and DecodeEncodeAll |
| PromptPay.DecodeField | utils/promptpay.ts:38-41 | an encodable object followed by any text decodes as that object followed by the text's decoding |
| PromptPay.DecodeEncodeAll | utils/promptpay.ts:38-41 | concatenated fields of two-character IDs and at most 99-character values decode back to the same objects |
| PromptPay.LastNine | utils/promptpay.ts:59-71 | definition: the last nine digits, which every tag 01 value carries after 0066 |
| PromptPay.Classify | utils/promptpay.ts:56-88 | definition of the case analysis on the digits; its properties are in GetTargetTypeAndValue, ClassifyShape and the spelling lemmas |
| PromptPay.GetTargetTypeAndValue | utils/promptpay.ts:52-89 | the tag is 01, 02 or 03; the value is digits; tag 01 exactly for the three mobile spellings (10 digits starting 06/08/09, 11 starting 66, 13 starting 0066), with value 0066 and the last nine digits; tag 03 exactly for 15 digits; tags 02 and 03 pass the digits unchanged |
| PromptPay.ClassifyDigitsOnly | utils/promptpay.ts:54 | classification depends only on the identifier's digits |
| PromptPay.ClassifyShape | utils/promptpay.ts:56-88 | every classification of a digit string yields digits; tag 01 exactly for a mobile spelling, with value 0066 and the last nine digits |
| PromptPay.LocalSpelling | utils/promptpay.ts:58-60 | a local 06/08/09 mobile number becomes tag 01 with 0066 in place of the leading 0 |
| PromptPay.InternationalSpelling | utils/promptpay.ts:64-66 | every 11-digit number starting 66, whatever digit follows, becomes tag 01 with 00 in front |
| PromptPay.FullSpelling | utils/promptpay.ts:70-72 | every 13-digit number starting 0066, whatever digit follows, is tag 01 unchanged |
| PromptPay.MobileSpellings | utils/promptpay.ts:58-72 | the three spellings of one mobile number classify identically, as tag 01 |
| PromptPay.MerchantIdExample | constants.ts:3 | the merchant's number 0899999999 is tag 01 with value 0066899999999 |
| PromptPay.TenDigitFallback | utils/promptpay.ts:58-88 | a 10-digit number not starting 06, 08 or 09 falls back to tag 02 unchanged |
| PromptPay.FormatAmount | utils/promptpay.ts:112 | `toFixed(2)` has at least four characters and a point third from the end |
| PromptPay.AmountRoundTrip | utils/promptpay.ts:112 | reading the formatted amount back gives the amount in satang |
| PromptPay.MerchantInfo | utils/promptpay.ts:102-103 | definition of field 29's value; see MerchantInfoLength and MerchantInfoDecodes |
| PromptPay.RawData | utils/promptpay.ts:107-118 | definition of the root fields and the `6304` header; see PayloadParts and PayloadDecodes |
| PromptPay.GeneratePromptPayPayload | utils/promptpay.ts:96-125 | definition: raw data followed by its checksum; see PayloadParts, PayloadDecodes, ChecksumTrailer and PayloadAmount |
| PromptPay.PayloadParts | utils/promptpay.ts:96-124 | the payload is fields 00, 01, 29, 53, the optional 54, 58, then 63 holding the checksum of what precedes it |
| PromptPay.MerchantInfoLength | utils/promptpay.ts:102-103 | merchant information fits in 99 characters when the identifier has at most 75 digits |
| PromptPay.MerchantInfoDecodes | utils/promptpay.ts:102-103 | merchant information decodes to the PromptPay AID and the classified target |
| PromptPay.PayloadDecodes | utils/promptpay.ts:96-124 | a payload within the length limits decodes to its data objects in order, field 54 only with an amount, checksum last |
| PromptPay.PayloadFormat | utils/promptpay.ts:108 | the payload starts with `000201` |
| PromptPay.FormatField | utils/promptpay.ts:108 | field 00 is `000201` |
| PromptPay.PayloadInitiation | utils/promptpay.ts:109 | characters 6 to 12 are field 01 |
| PromptPay.InitiationCodes | utils/promptpay.ts:109 | field 01 is `010212` exactly with an amount and `010211` exactly without |
| PromptPay.PointOfInitiation | utils/promptpay.ts:109 | the payload carries `010212` at offset 6 exactly when an amount is given, `010211` exactly when not |
| PromptPay.InitiationLookup | utils/promptpay.ts:109 | the first field 01 among the data objects is 12 with an amount and 11 without |
| PromptPay.PayloadHasCurrency | utils/promptpay.ts:111 | the payload contains `5303764` (baht) |
| PromptPay.CurrencyField | utils/promptpay.ts:111 | field 53 is `5303764` |
| PromptPay.PayloadHasCountry | utils/promptpay.ts:113 | the payload contains `5802TH` |
| PromptPay.CountryField | utils/promptpay.ts:113 | field 58 is `5802TH` |
| PromptPay.AmountLookup | utils/promptpay.ts:112 | field 54 of the data objects is the formatted amount when an amount is given and absent otherwise |
| PromptPay.AmountDecodes | utils/promptpay.ts:112 | the optional amount field decodes to its object, or to nothing |
| PromptPay.PayloadAmount | utils/promptpay.ts:109-112 | the decoded payload has field 54 exactly when an amount is given, and it reads back as the amount |
| PromptPay.ChecksumField | utils/promptpay.ts:118 | a four-character checksum's field is `6304` and the checksum |
| PromptPay.ChecksumTrailer | utils/promptpay.ts:118-124 | the payload ends in `6304` and the checksum of everything before its last four characters |
| Security.MaskPii | utils/security.ts:3-6 | under four characters the mask is `****`; otherwise eight characters: the first two, four stars, the last two |
| Security.MaskPiiHidesMiddle | utils/security.ts:5 | values agreeing in their two first and two last characters mask alike |
| Security.MaskPiiShort | utils/security.ts:4 | all values under four characters mask alike |
| Security.ToUint32 | utils/security.ts:14 | `>>> 0` gives a value below 2^32 congruent to the input |
| Security.ToInt32 | utils/security.ts:12 | the shift operand is a signed 32-bit value with the same low 32 bits |
| Security.ShiftLeft5 | utils/security.ts:12 | `<< 5` is a signed 32-bit value congruent to 32 times the input |
| Security.Djb2 | utils/security.ts:8-15 | the reference hash is below 2^32 |
| Security.ShiftStep | utils/security.ts:12 | one step of the source's loop is the DJB2 step modulo 2^32 |
| Security.HashHex | utils/security.ts:14 | definition: DJB2 modulo 2^32 printed by `toString(16)`; see GenerateHash and HashHexShape |
| Security.GenerateHash | utils/security.ts:8-15 | the method's result is DJB2 modulo 2^32 in hexadecimal |
| Security.HashHexShape | utils/security.ts:14 | the digest has one to eight lower-case hex digits, no leading zero, and reads back as the hash |
| Security.HashEmpty | utils/security.ts:10-14 | the digest of the empty string is `1505` |
| Security.Djb2Snoc | utils/security.ts:11-13 | the hash of a string plus a character depends on the string only through its hash |
| Lifecycle.Valid | services/mockBackend.ts:6-8 | definition of the invariant: the current transaction is the newest history entry and its log is a prefix of the global log; kept by Apply |
| Lifecycle.Current | services/mockBackend.ts:6-8 | definition: the current transaction is `history[0]` |
| Lifecycle.NamesMatch | services/mockBackend.ts:74-78 | definition of the name check; see NameCheck, EmptySenderMatches, SenderContainingNameMatches and NamesMatchIgnoresCase |
| Lifecycle.Initial | services/mockBackend.ts:7-18 | the backend starts with no transaction, an empty history and log, and is valid |
| Lifecycle.AddLog | services/mockBackend.ts:26-38 | adding a log entry changes only the logs and the current transaction: reserves, timers, listeners and older history stay |
| Lifecycle.Deliveries | services/mockBackend.ts:22 | a notification calls each listener once, in order, each with its own equal copy |
| Lifecycle.DeliveriesAppend | services/mockBackend.ts:22 | notifying two lists of listeners is notifying each in turn |
| Lifecycle.Notify | services/mockBackend.ts:20-24 | with a current transaction every listener receives it, in order; without one nothing happens; nothing else changes |
| Lifecycle.SetStatus | services/mockBackend.ts:68 | the current transaction gets the new status and nothing else changes |
| Lifecycle.Subscribe | services/mockBackend.ts:41-42 | the listener is appended to the listeners and nothing else changes |
| Lifecycle.Without | services/mockBackend.ts:44 | the filtered list holds every other listener and never the removed one |
| Lifecycle.WithoutAppend | services/mockBackend.ts:44 | the filter works piece by piece, so the other listeners keep their order |
| Lifecycle.WithoutKeepsOthers | services/mockBackend.ts:44 | every other listener keeps its number of registrations |
| Lifecycle.Unsubscribe | services/mockBackend.ts:43-45 | the listener list becomes the filtered list and nothing else changes |
| Lifecycle.CreateTransaction | services/mockBackend.ts:48-54 | the new transaction is current and the state is valid |
| Lifecycle.TriggerIncomingTransfer | services/mockBackend.ts:57-89 | the webhook keeps the state valid |
| Lifecycle.VerifyName | services/mockBackend.ts:71-88 | the name check keeps the state valid |
| Lifecycle.ProcessDisbursement | services/mockBackend.ts:91-104 | disbursement keeps the state valid |
| Lifecycle.ApproveTransaction | services/mockBackend.ts:106-113 | approval keeps the state valid |
| Lifecycle.ExecuteFinalSettlement | services/mockBackend.ts:115-116 | one settlement timer is added to the pending ones; nothing else changes |
| Lifecycle.Settlement | services/mockBackend.ts:116-136 | the settlement keeps the state valid |
| Lifecycle.ToggleAutoHedge | services/mockBackend.ts:139-142 | the switch keeps the state valid |
| Lifecycle.Fire | services/mockBackend.ts:71-136 | firing a timer keeps the state valid |
| Lifecycle.Apply | services/mockBackend.ts:40-143 | every operation keeps the current transaction the newest history entry with its log a prefix of the global log |
| LifecycleProperties.AddLogPrepends | services/mockBackend.ts:26-38 | the entry goes in front of the global log and in front of the current transaction's log |
| LifecycleProperties.CreateTransactionSpec | services/mockBackend.ts:48-54 | the record, awaiting payment, is current and newest in the history; its log is [ledger, KYC]; listeners get it once; reserves and timers stay |
| LifecycleProperties.WebhookWithoutTransaction | services/mockBackend.ts:58 | without a current transaction the webhook changes nothing |
| LifecycleProperties.LateWebhookIgnored | services/mockBackend.ts:60-65 | a webhook for a transaction not awaiting payment only logs an INFO receipt and a WARN warning |
| LifecycleProperties.WebhookAccepted | services/mockBackend.ts:60-71 | a webhook awaiting payment logs the receipt, sets VERIFYING_BANK, notifies and starts the name check |
| LifecycleProperties.EmptySenderMatches | services/mockBackend.ts:78 | an empty sender name always passes the name check |
| LifecycleProperties.SenderContainingNameMatches | services/mockBackend.ts:74-78 | a sender name that contains the registered name passes |
| LifecycleProperties.NamesMatchIgnoresCase | services/mockBackend.ts:74-75 | the check does not depend on letter case |
| LifecycleProperties.NameCheck | services/mockBackend.ts:71-88 | FAILED exactly when neither upper-cased name includes the other, with a CRITICAL KYC entry and no timer; otherwise a KYC entry and approval or disbursal; listeners notified once; reserves unchanged |
| LifecycleProperties.StaleCheckReopens | services/mockBackend.ts:71-82 | a passing check firing on a COMPLETED transaction within the ceiling sets it to DISBURSING and starts another settlement |
| LifecycleProperties.Disbursement | services/mockBackend.ts:91-104 | above 5000 USDT: AWAITING_APPROVAL, a WARN entry, no timer; otherwise DISBURSING and one settlement timer; listeners notified with the new status; reserves unchanged |
| LifecycleProperties.CeilingIsInclusive | services/mockBackend.ts:94 | exactly 5000 USDT is approved automatically |
| LifecycleProperties.Approval | services/mockBackend.ts:106-113 | nothing happens unless the transaction awaits approval; then a log, DISBURSING, a notification and one settlement timer |
| LifecycleProperties.SettlementSteps | services/mockBackend.ts:116-136 | settlement adds the baht, removes the USDT, logs broadcast, hedge and finalisation, completes the transaction and notifies the listeners |
| LifecycleProperties.SettlementCredits | services/mockBackend.ts:116-136 | settling a disbursing transaction credits the reserves once, keeps the hedging flag and completes it with three entries and one notification |
| LifecycleProperties.SettlementIgnored | services/mockBackend.ts:117 | settlement does nothing unless the current transaction is disbursing |
| LifecycleProperties.SettlementOnce | services/mockBackend.ts:117-133 | a settlement right after a settlement does nothing |
| LifecycleProperties.NoDoubleCredit | services/mockBackend.ts:115-137 | two settlement timers fired in a row move the reserves once |
| LifecycleProperties.ToggleAutoHedgeSpec | services/mockBackend.ts:139-142 | the flag flips, the reserves stay, one WARN LEDGER entry with the new setting heads the global log and the current transaction's log; listeners, timers, history and the transaction's other fields are unchanged |
| LifecycleProperties.ToggleTwice | services/mockBackend.ts:139-140 | toggling twice restores the order book |
| LifecycleProperties.SubscribedListenerNotified | services/mockBackend.ts:20-42 | after subscribing, the next notification calls the new listener last, after the earlier ones |
| LifecycleProperties.UnsubscribedListenerSilent | services/mockBackend.ts:20-45 | after unsubscribing, a notification never calls that listener and calls the others in order |
| LifecycleProperties.HappyPath | services/mockBackend.ts:47-137 | create, a matching webhook, the name check and the settlement within the ceiling end COMPLETED with the reserves credited once and no timer left |
| LifecycleProperties.PaymentArrives | services/mockBackend.ts:47-69 | creating a transaction and receiving its payment leaves it VERIFYING_BANK with one name-check timer |
| LifecycleProperties.NamePasses | services/mockBackend.ts:71-104 | a passing name check within the ceiling leaves the transaction DISBURSING with one settlement timer |
| LifecycleProperties.SettlementFires | services/mockBackend.ts:115-137 | the settlement timer completes a disbursing transaction and credits its amounts |
| LifecycleProperties.ApprovalGate | services/mockBackend.ts:91-113 | above the ceiling and awaiting approval, every operation but approval and a new transaction leaves it short of DISBURSING with the reserves unchanged |
| LifecycleProperties.ReservesOnlyInSettlement | services/mockBackend.ts:123-124 | any operation that moves the reserves is a settlement timer firing on a disbursing transaction |
| LifecycleProperties.FireEffects | services/mockBackend.ts:71-136 | a timer changes only the current transaction; only a settlement of a disbursing one moves the reserves |
| LifecycleProperties.HistoryOnlyGrowsInFront | services/mockBackend.ts:50 | no operation alters an older history entry; only creation adds one, in front |
| LifecycleProperties.TerminalStatusesKept | services/mockBackend.ts:62-63 | webhooks, approvals and settlements leave a COMPLETED or FAILED transaction and the reserves as they are |
| Backend.MockBackend.constructor | services/mockBackend.ts:7-18 | the object starts in the initial state |
| Backend.MockBackend.AddLog | services/mockBackend.ts:26-38 | the method updates the fields as `Lifecycle.AddLog` does |
| Backend.MockBackend.Notify | services/mockBackend.ts:20-24 | the loop calls every listener in order, each with an equal copy, as `Lifecycle.Notify` |
| Backend.MockBackend.SetStatus | services/mockBackend.ts:68 | as `Lifecycle.SetStatus` |
| Backend.MockBackend.Subscribe | services/mockBackend.ts:41-42 | as `Lifecycle.Subscribe` |
| Backend.MockBackend.Unsubscribe | services/mockBackend.ts:43-45 | as `Lifecycle.Unsubscribe` |
| Backend.MockBackend.CreateTransaction | services/mockBackend.ts:48-54 | as `Lifecycle.CreateTransaction` |
| Backend.MockBackend.TriggerIncomingTransfer | services/mockBackend.ts:57-89 | as `Lifecycle.TriggerIncomingTransfer` |
| Backend.MockBackend.VerifyName | services/mockBackend.ts:71-88 | as `Lifecycle.VerifyName` |
| Backend.MockBackend.ProcessDisbursement | services/mockBackend.ts:91-104 | as `Lifecycle.ProcessDisbursement` |
| Backend.MockBackend.ApproveTransaction | services/mockBackend.ts:106-113 | as `Lifecycle.ApproveTransaction` |
| Backend.MockBackend.ExecuteFinalSettlement | services/mockBackend.ts:115-116 | as `Lifecycle.ExecuteFinalSettlement` |
| Backend.MockBackend.Settlement | services/mockBackend.ts:116-136 | as `Lifecycle.Settlement` |
| Backend.MockBackend.ToggleAutoHedge | services/mockBackend.ts:139-142 | as `Lifecycle.ToggleAutoHedge` |
| Backend.MockBackend.Fire | services/mockBackend.ts:71-136 | a pending timer leaves the queue and its body runs, as `Lifecycle.Fire` |

## Left out

- PromptPay.Field: the model computes a value for every input, as the source does. A length of 100
  or more gives a malformed field. The well-formedness condition (at most 99 characters, so at
  most 75 identifier digits for field 29) is a hypothesis of the decoding lemmas (`Fits`), not a
  precondition.
- PromptPay.GeneratePromptPayPayload: `amount` is an optional number of satang, a natural number.
  Several cases are not modelled:
  - negative amounts;
  - amounts with more than two decimals, and the rounding of `toFixed`;
  - `NaN`;
  - JavaScript's exponent notation for amounts of 10^21 or more.
  An amount of zero is falsy, as in the source.
- Security.MaskPii: characters above U+FFFF are left out. JavaScript counts them as two UTF-16 code
  units in `length` and `substring`, so `maskPII` can split them; here a `char` is a whole
  character.
- PromptPay.Field: characters above U+FFFF are left out. The source's length digits count UTF-16
  code units, and here a value's length counts characters.
- Crc16.CalculateCrc16: characters above U+FFFF are left out. They are two UTF-16 code units in
  JavaScript and one `char` here. For the other characters only the code's low byte reaches the
  16-bit checksum, and this is proved.
- Security.GenerateHash: the loop's sum is an unbounded integer. JavaScript keeps it exactly only
  below 2^53, which holds for inputs under about four million characters. Characters above U+FFFF
  are left out, as for the checksum.
- Lifecycle.Fire: timers fire in any order the caller chooses. The real delays (2 s for the name
  check, 3 s for the settlement) and the wall clock are not modelled, so the model allows every
  ordering that real timing allows, and more.
- Lifecycle.AddLog: a log entry keeps its level, module and message data. The rendered message
  text, the ISO timestamp and the entry's `generateHash(message + Date.now())` fingerprint are not
  modelled.
- Lifecycle.ProcessDisbursement: amounts are exact integers (satang, micro-USDT), so the source's
  floating-point comparison `amountUSDT > 5000` becomes a comparison in micro-USDT.
- Types.Transaction: the exchange rate and the creation time are not modelled, and neither is the
  order book's spread. The core never reads them.
- Listeners are identified by numbers. What a listener does with its copy is outside the backend.
- The getters `getLogs`, `getOrderBook`, `getCurrentTransaction` and `getTransactionHistory`
  return the module variables. In the model these are the fields of `MockBackend`.
- `generateReferenceId` depends on the clock and on randomness, so it is not part of this model.
- `toUpperCase` is modelled on ASCII letters only. Unicode case mapping is not modelled.
- The user interface, the configuration service and the exchange-rate feed are not part of this
  model.
