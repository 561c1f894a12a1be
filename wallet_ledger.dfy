/**
 * The wallet ledger of `WalletService` as transitions over the database state:
 * one function per service operation or `prisma.$transaction` block, each
 * giving the state afterwards and what the operation answers. Gateway
 * answers, the clock, bcrypt and the configured webhook secret are parameters.
 *
 * A `$transaction` block that throws rolls back, so its function returns the
 * state it was given together with Threw; blocks committed before the throw
 * stay committed.
 */
module WalletLedger {
  import opened Wrappers
  import opened Strings
  import opened Responses
  import opened Store
  import Paginate

  /** The prefix of every transaction reference. */
  const RefPrefix := "FLW-TRE-"

  /** The smallest amount a vendor may withdraw. */
  const MinimumWithdrawalAmount := 100

  /** The note stored on withdrawal transactions. */
  const WithdrawalNote := "Money Withdrawal"

  // ---------------------------------------------------------------- references

  /** `'FLW-TRE-' + Date.getTime()`. */
  function TransactionReference(nowMs: nat): (ref: string)
    ensures |ref| > |RefPrefix| && ref[..|RefPrefix|] == RefPrefix
    ensures AllDigits(ref[|RefPrefix|..]) && DigitsValue(ref[|RefPrefix|..]) == nowMs
  {
    var digits := NatToString(nowMs);
    DigitsValueOfNatToString(nowMs);
    assert (RefPrefix + digits)[|RefPrefix|..] == digits;
    RefPrefix + digits
  }

  /** References made at different milliseconds differ. */
  lemma ReferencesDistinct(a: nat, b: nat)
    requires a != b
    ensures TransactionReference(a) != TransactionReference(b)
  {
  }

  /** The invoice a card payment pays for: its tx_ref with the first prefix removed. */
  function InvoiceIdOf(txRef: string): (id: string)
    ensures id == txRef || |id| == |txRef| - |RefPrefix|
    ensures |txRef| >= |RefPrefix| && txRef[..|RefPrefix|] == RefPrefix ==> id == txRef[|RefPrefix|..]
  {
    ReplaceFirst(txRef, RefPrefix, "")
  }

  /** A payment reference built as prefix + invoice id leads back to that invoice. */
  lemma InvoiceIdOfPrefixed(invoiceId: InvoiceId)
    ensures InvoiceIdOf(RefPrefix + invoiceId) == invoiceId
  {
    ReplaceFirstStripsPrefix(RefPrefix, invoiceId);
  }

  /** `transaction.findFirst({where: {reference_id}})`: the first row with that reference. */
  function FindReference(txs: seq<Transaction>, ref: string): (i: Option<nat>)
    ensures i.Some? ==> i.value < |txs| && txs[i.value].referenceId == ref
    ensures i.Some? ==> forall j :: 0 <= j < i.value ==> txs[j].referenceId != ref
    ensures i.None? ==> forall j :: 0 <= j < |txs| ==> txs[j].referenceId != ref
  {
    if |txs| == 0 then None
    else if txs[0].referenceId == ref then Some(0)
    else
      var k := FindReference(txs[1..], ref);
      if k.None? then None else Some(k.value + 1)
  }

  /** Overwriting a row that keeps its reference does not change any lookup. */
  lemma FindReferenceAfterUpdate(txs: seq<Transaction>, i: nat, t: Transaction, ref: string)
    requires i < |txs| && t.referenceId == txs[i].referenceId
    ensures FindReference(txs[i := t], ref) == FindReference(txs, ref)
  {
    var a, b := FindReference(txs[i := t], ref), FindReference(txs, ref);
    assert forall j :: 0 <= j < |txs| ==> txs[i := t][j].referenceId == txs[j].referenceId;
    if a.Some? && b.Some? {
      assert !(a.value < b.value) && !(b.value < a.value);
    }
  }

  /** Appending a row: earlier matches win, otherwise the new row is found if it matches. */
  lemma FindReferenceAfterAppend(txs: seq<Transaction>, t: Transaction, ref: string)
    ensures FindReference(txs, ref).Some? ==> FindReference(txs + [t], ref) == FindReference(txs, ref)
    ensures FindReference(txs, ref).None? ==>
      FindReference(txs + [t], ref) == if t.referenceId == ref then Some(|txs|) else None
  {
    var a, b := FindReference(txs + [t], ref), FindReference(txs, ref);
    assert forall j :: 0 <= j < |txs| ==> (txs + [t])[j] == txs[j];
    if a.Some? && b.Some? {
      assert !(a.value < b.value) && !(b.value < a.value);
    }
    if b.None? && t.referenceId == ref {
      assert (txs + [t])[|txs|] == t;
    }
  }

  // ---------------------------------------------------------------- results

  /** A service's result: the new state and the reply object, None for `undefined`. */
  datatype Answer = Answer(state: State, reply: Option<Ack>)

  /** How an inner block ends: it returns (a value the callers ignore) or throws. */
  datatype Outcome = Returned(value: Option<Ack>) | Threw

  datatype Step = Step(state: State, outcome: Outcome)

  /** Every wallet's balance is its credits minus its withdrawals. */
  ghost predicate Balanced(s: State) {
    forall v :: v in s.wallets ==> s.wallets[v].balance == s.wallets[v].totalCredit - s.wallets[v].totalWithdrawal
  }

  /** The schema assumption under which Balanced is kept: new wallets start at zero. */
  predicate ZeroDefaults(schema: Schema) {
    schema.walletDefaults == Wallet(0, 0, 0)
  }

  /** `wallet.update({balance: {increment}, totalCredit: {increment}})`. */
  function CreditWallet(wallets: map<VendorId, Wallet>, v: VendorId, amount: int): (r: map<VendorId, Wallet>)
    requires v in wallets
    ensures r.Keys == wallets.Keys
    ensures r[v].balance == wallets[v].balance + amount && r[v].totalCredit == wallets[v].totalCredit + amount
    ensures r[v].totalWithdrawal == wallets[v].totalWithdrawal
    ensures forall u :: u in wallets && u != v ==> r[u] == wallets[u]
  {
    var w := wallets[v];
    wallets[v := w.(balance := w.balance + amount, totalCredit := w.totalCredit + amount)]
  }

  /** `wallet.update({balance: {decrement}, totalWithdrawal: {increment}})`. */
  function DebitWallet(wallets: map<VendorId, Wallet>, v: VendorId, amount: int): (r: map<VendorId, Wallet>)
    requires v in wallets
    ensures r.Keys == wallets.Keys
    ensures r[v].balance == wallets[v].balance - amount && r[v].totalWithdrawal == wallets[v].totalWithdrawal + amount
    ensures r[v].totalCredit == wallets[v].totalCredit
    ensures forall u :: u in wallets && u != v ==> r[u] == wallets[u]
  {
    var w := wallets[v];
    wallets[v := w.(balance := w.balance - amount, totalWithdrawal := w.totalWithdrawal + amount)]
  }

  /** A wallet row for `v`, created with the column defaults when there is none. */
  function EnsureWallet(wallets: map<VendorId, Wallet>, schema: Schema, v: VendorId): (r: map<VendorId, Wallet>)
    ensures r.Keys == wallets.Keys + {v}
    ensures v in wallets ==> r == wallets
    ensures v !in wallets ==> r[v] == schema.walletDefaults
    ensures forall u :: u in wallets ==> r[u] == wallets[u]
  {
    if v in wallets then wallets else wallets[v := schema.walletDefaults]
  }

  // ---------------------------------------------------------------- createUserWallet

  /**
   * A vendor without a wallet gets one with balance 0 (the other columns take
   * their defaults); a vendor with one is refused and nothing changes.
   */
  function CreateUserWallet(s: State, schema: Schema, vendorId: VendorId): (a: Answer)
    ensures vendorId in s.wallets ==> a == Answer(s, Some(Failure(Conflict, WalletExists)))
    ensures vendorId !in s.wallets ==>
      && a.reply == Some(Success(UserWalletCreated, None))
      && a.state.wallets.Keys == s.wallets.Keys + {vendorId}
      && a.state.wallets[vendorId].balance == 0
      && a.state.wallets[vendorId].totalCredit == schema.walletDefaults.totalCredit
      && a.state.wallets[vendorId].totalWithdrawal == schema.walletDefaults.totalWithdrawal
    ensures forall v :: v in s.wallets ==> v in a.state.wallets && a.state.wallets[v] == s.wallets[v]
    ensures a.state.(wallets := s.wallets) == s
  {
    if vendorId in s.wallets then Answer(s, Some(Failure(Conflict, WalletExists)))
    else
      var d := schema.walletDefaults;
      Answer(s.(wallets := s.wallets[vendorId := Wallet(0, d.totalCredit, d.totalWithdrawal)]),
             Some(Success(UserWalletCreated, None)))
  }

  // ---------------------------------------------------------------- withdrawToBank

  datatype WithdrawRequest = WithdrawRequest(amount: int, bankCode: string, accountNumber: string)

  /** What is sent to the transfer gateway. */
  datatype TransferRequest = TransferRequest(bankCode: string, accountNumber: string, amount: int, reference: string)

  /** The gateway's answer to a transfer: a throw, or its top-level and transfer status. */
  datatype TransferAnswer = TransferThrew | TransferAnswered(status: string, transferStatus: string)

  datatype Withdrawal = Withdrawal(state: State, reply: Option<Ack>, sent: Option<TransferRequest>)

  /** The vendor's wallet row as the withdrawal sees it (created when missing). */
  function WalletSeen(s: State, schema: Schema, vendorId: VendorId): Wallet {
    if vendorId in s.wallets then s.wallets[vendorId] else schema.walletDefaults
  }

  /** Whether the checks before the gateway call pass. */
  predicate MayWithdraw(s: State, schema: Schema, vendorId: VendorId, password: string, req: WithdrawRequest,
                        matches: (string, string) -> bool)
  {
    && vendorId in s.vendors
    && matches(password, s.vendors[vendorId].passwordHash)
    && MinimumWithdrawalAmount <= req.amount <= WalletSeen(s, schema, vendorId).balance
  }

  /** The PENDING debit recorded for an accepted transfer. */
  function PendingDebit(vendorId: VendorId, vendor: Vendor, ref: string, amount: int): Transaction {
    Transaction(ref, vendorId, amount, Debit, Pending, Some(WithdrawalNote), Some(vendor.businessName), Some(vendor.email))
  }

  /**
   * The checks in source order: a missing vendor (reading its password
   * throws), the password, creating a missing wallet (which stays created),
   * the minimum amount, the balance. Only then is the transfer sent; a throw
   * or an `error` status gives an internal error, `success` with transfer
   * status SUCCESSFUL or NEW records a PENDING debit and a log entry, and any
   * other answer falls through to `undefined`.
   */
  function WithdrawToBank(s: State, schema: Schema, vendorId: VendorId, password: string, req: WithdrawRequest,
                          matches: (string, string) -> bool, nowMs: nat, answer: TransferAnswer): (w: Withdrawal)
    ensures w.reply.None? ==> w.sent.Some? && answer.TransferAnswered? && answer.status != "error"
                              && !(answer.status == "success" && answer.transferStatus in {"SUCCESSFUL", "NEW"})
    ensures w.reply.None? || w.reply == Some(Success(ProcessingTransaction, None)) ==> w.sent.Some?
    ensures |w.state.transactions| <= |s.transactions| + 1
  {
    if vendorId !in s.vendors then Withdrawal(s, Some(InternalError()), None)
    else
      var vendor := s.vendors[vendorId];
      if !matches(password, vendor.passwordHash) then
        Withdrawal(s, Some(Failure(Validation, IncorrectPassword)), None)
      else
        var s1 := s.(wallets := EnsureWallet(s.wallets, schema, vendorId));
        if req.amount < MinimumWithdrawalAmount then
          Withdrawal(s1, Some(Failure(Validation, MinimumWithdrawal(NatToString(MinimumWithdrawalAmount)))), None)
        else if req.amount > s1.wallets[vendorId].balance then
          Withdrawal(s1, Some(Failure(Validation, InsufficientFund)), None)
        else
          var ref := TransactionReference(nowMs);
          var sent := Some(TransferRequest(req.bankCode, req.accountNumber, req.amount, ref));
          match answer
          case TransferThrew => Withdrawal(s1, Some(InternalError()), sent)
          case TransferAnswered(status, transferStatus) =>
            if status == "error" then Withdrawal(s1, Some(InternalError()), sent)
            else if status == "success" && (transferStatus == "SUCCESSFUL" || transferStatus == "NEW") then
              if schema.uniqueReference && FindReference(s1.transactions, ref).Some? then
                // the insert violates the unique reference; the block rolls back
                Withdrawal(s1, Some(InternalError()), sent)
              else
                Withdrawal(s1.(transactions := s1.transactions + [PendingDebit(vendorId, vendor, ref, req.amount)],
                               activityLog := s1.activityLog + [LogEntry(WithdrawalAction, ProcessingWithdrawal, vendorId)]),
                           Some(Success(ProcessingTransaction, None)), sent)
            else Withdrawal(s1, None, sent)
  }

  /** Every rejection comes before the gateway call, and the transfer goes out exactly when the checks pass. */
  lemma WithdrawChecksPrecedeTransfer(s: State, schema: Schema, vendorId: VendorId, password: string, req: WithdrawRequest,
                                      matches: (string, string) -> bool, nowMs: nat, answer: TransferAnswer)
    ensures var w := WithdrawToBank(s, schema, vendorId, password, req, matches, nowMs, answer);
      && (w.sent.Some? <==> MayWithdraw(s, schema, vendorId, password, req, matches))
      && (w.sent.Some? ==> w.sent.value == TransferRequest(req.bankCode, req.accountNumber, req.amount, TransactionReference(nowMs)))
      && (w.sent.None? ==> w.state.transactions == s.transactions && w.state.activityLog == s.activityLog)
      && (vendorId !in s.vendors ==> w == Withdrawal(s, Some(InternalError()), None))
      && (vendorId in s.vendors && !matches(password, s.vendors[vendorId].passwordHash) ==>
            w == Withdrawal(s, Some(Failure(Validation, IncorrectPassword)), None))
      && (vendorId in s.vendors && matches(password, s.vendors[vendorId].passwordHash) && req.amount < MinimumWithdrawalAmount ==>
            w.reply == Some(Failure(Validation, MinimumWithdrawal("100"))))
      && (vendorId in s.vendors && matches(password, s.vendors[vendorId].passwordHash) && req.amount >= MinimumWithdrawalAmount
          && req.amount > WalletSeen(s, schema, vendorId).balance ==>
            w.reply == Some(Failure(Validation, InsufficientFund)))
  {
    assert NatToString(MinimumWithdrawalAmount) == "100" by {
      assert NatToString(10) == NatToString(1) + [DigitChar(0)];
    }
  }

  /** Past the password check the wallet exists afterwards; no operation here changes a wallet row that exists. */
  lemma WithdrawKeepsWallets(s: State, schema: Schema, vendorId: VendorId, password: string, req: WithdrawRequest,
                             matches: (string, string) -> bool, nowMs: nat, answer: TransferAnswer)
    ensures var w := WithdrawToBank(s, schema, vendorId, password, req, matches, nowMs, answer);
      && (forall v :: v in s.wallets ==> v in w.state.wallets && w.state.wallets[v] == s.wallets[v])
      && (vendorId in s.vendors && matches(password, s.vendors[vendorId].passwordHash) ==>
            w.state.wallets == EnsureWallet(s.wallets, schema, vendorId))
      && w.state.wallets.Keys <= s.wallets.Keys + {vendorId}
      && w.state.invoices == s.invoices && w.state.clients == s.clients && w.state.vendors == s.vendors
  {
    var w := WithdrawToBank(s, schema, vendorId, password, req, matches, nowMs, answer);
    if vendorId in s.vendors && matches(password, s.vendors[vendorId].passwordHash) {
      var s1 := s.(wallets := EnsureWallet(s.wallets, schema, vendorId));
      assert w.state.(transactions := s1.transactions, activityLog := s1.activityLog) == s1;
    } else {
      assert w.state == s;
    }
  }

  /**
   * An accepted transfer adds exactly one PENDING debit of the requested amount
   * under the new reference and one withdrawal log entry; the balance is not
   * touched until the transfer is confirmed.
   */
  lemma WithdrawRecordsPendingDebit(s: State, schema: Schema, vendorId: VendorId, password: string, req: WithdrawRequest,
                                    matches: (string, string) -> bool, nowMs: nat, answer: TransferAnswer)
    requires WithdrawToBank(s, schema, vendorId, password, req, matches, nowMs, answer).reply == Some(Success(ProcessingTransaction, None))
    ensures var w := WithdrawToBank(s, schema, vendorId, password, req, matches, nowMs, answer);
      && vendorId in s.vendors
      && w.state.transactions == s.transactions + [PendingDebit(vendorId, s.vendors[vendorId], TransactionReference(nowMs), req.amount)]
      && w.state.activityLog == s.activityLog + [LogEntry(WithdrawalAction, ProcessingWithdrawal, vendorId)]
      && vendorId in w.state.wallets
      && w.state.wallets[vendorId] == WalletSeen(s, schema, vendorId)
      && answer.TransferAnswered? && answer.status == "success"
      && answer.transferStatus in {"SUCCESSFUL", "NEW"}
  {
  }

  /**
   * Once the transfer is sent, the gateway's answer decides the reply: a throw,
   * an `error` status or a clashing unique reference give an internal error
   * and write no transaction; `success` with SUCCESSFUL or NEW gives
   * PROCESSING_TRANSACTION; any other answer gives `undefined` and writes no
   * transaction.
   */
  lemma WithdrawAnswerDecidesReply(s: State, schema: Schema, vendorId: VendorId, password: string, req: WithdrawRequest,
                                   matches: (string, string) -> bool, nowMs: nat, answer: TransferAnswer)
    requires MayWithdraw(s, schema, vendorId, password, req, matches)
    ensures var w := WithdrawToBank(s, schema, vendorId, password, req, matches, nowMs, answer);
      var accepted := answer.TransferAnswered? && answer.status == "success" && answer.transferStatus in {"SUCCESSFUL", "NEW"};
      var clash := schema.uniqueReference && FindReference(s.transactions, TransactionReference(nowMs)).Some?;
      && (answer.TransferThrew? || answer.status == "error" || (accepted && clash) ==>
            w.reply == Some(InternalError()) && w.state.transactions == s.transactions && w.state.activityLog == s.activityLog)
      && (w.reply == Some(Success(ProcessingTransaction, None)) <==> accepted && !clash)
      && (w.reply.None? <==> answer.TransferAnswered? && answer.status != "error" && !accepted)
      && (w.reply.None? ==> w.state.transactions == s.transactions && w.state.activityLog == s.activityLog)
  {
  }

  // ---------------------------------------------------------------- processWithdrawals

  /** The transfer object of a `Transfer` webhook event. */
  datatype TransferData = TransferData(reference: string, amount: int, status: string)

  /** Whether a transfer status completes the withdrawal; PENDING counts as failed. */
  predicate TransferSucceeded(status: string) {
    status != "FAILED" && status != "PENDING"
  }

  /**
   * The withdrawal with the transfer's reference is completed (debit the
   * wallet, raise its withdrawals, log MONEY_WITHDRAWN) or failed (log
   * WITHDRAWAL_FAILED). The transaction's current status is not consulted.
   * A missing wallet makes the wallet update throw and the block roll back.
   */
  function ConfirmTransfer(s: State, t: TransferData): (r: Step)
    ensures FindReference(s.transactions, t.reference).None? <==> r.outcome == Returned(Some(Failure(NotFound, TransactionNotFound)))
    ensures r.outcome.Returned? && r.outcome.value == Some(Failure(NotFound, TransactionNotFound)) ==> r.state == s
    ensures r.outcome.Threw? ==> r.state == s
    ensures |r.state.transactions| == |s.transactions|
    ensures r.state.vendors == s.vendors && r.state.invoices == s.invoices && r.state.clients == s.clients
  {
    match FindReference(s.transactions, t.reference)
    case None => Step(s, Returned(Some(Failure(NotFound, TransactionNotFound))))
    case Some(i) =>
      var tx := s.transactions[i];
      if TransferSucceeded(t.status) then
        if tx.vendorId !in s.wallets then Step(s, Threw)
        else
          Step(s.(transactions := s.transactions[i := tx.(kind := Debit, status := Completed, note := Some(WithdrawalNote))],
                  wallets := DebitWallet(s.wallets, tx.vendorId, t.amount),
                  activityLog := s.activityLog + [LogEntry(WithdrawalAction, MoneyWithdrawn, tx.vendorId)]),
               Returned(Some(Success(NgnTransactionSuccessful, None))))
      else
        Step(s.(transactions := s.transactions[i := tx.(kind := Debit, status := Failed, note := Some(WithdrawalNote))],
                activityLog := s.activityLog + [LogEntry(WithdrawalAction, WithdrawalFailed, tx.vendorId)]),
             Returned(Some(Success(WithdrawalFailed, None))))
  }

  /**
   * A completing transfer sets its transaction COMPLETED, takes the payload
   * amount off the balance, adds it to the withdrawals and logs one entry;
   * every other row is left alone.
   */
  lemma ConfirmTransferCompletes(s: State, t: TransferData)
    requires FindReference(s.transactions, t.reference).Some? && TransferSucceeded(t.status)
    requires s.transactions[FindReference(s.transactions, t.reference).value].vendorId in s.wallets
    ensures var i := FindReference(s.transactions, t.reference).value;
      var v := s.transactions[i].vendorId;
      var r := ConfirmTransfer(s, t);
      && r.outcome == Returned(Some(Success(NgnTransactionSuccessful, None)))
      && r.state.transactions[i].status == Completed && r.state.transactions[i].kind == Debit
      && r.state.transactions[i].referenceId == t.reference && r.state.transactions[i].amount == s.transactions[i].amount
      && (forall j :: 0 <= j < |s.transactions| && j != i ==> r.state.transactions[j] == s.transactions[j])
      && r.state.wallets[v].balance == s.wallets[v].balance - t.amount
      && r.state.wallets[v].totalWithdrawal == s.wallets[v].totalWithdrawal + t.amount
      && r.state.wallets[v].totalCredit == s.wallets[v].totalCredit
      && (forall u :: u in s.wallets && u != v ==> r.state.wallets[u] == s.wallets[u])
      && r.state.activityLog == s.activityLog + [LogEntry(WithdrawalAction, MoneyWithdrawn, v)]
  {
  }

  /** FAILED and PENDING both fail the withdrawal and leave every wallet as it was. */
  lemma ConfirmTransferFails(s: State, t: TransferData)
    requires FindReference(s.transactions, t.reference).Some? && t.status in {"FAILED", "PENDING"}
    ensures var i := FindReference(s.transactions, t.reference).value;
      var r := ConfirmTransfer(s, t);
      && r.outcome == Returned(Some(Success(WithdrawalFailed, None)))
      && r.state.transactions[i].status == Failed && r.state.transactions[i].kind == Debit
      && r.state.transactions[i].referenceId == s.transactions[i].referenceId
      && r.state.transactions[i].vendorId == s.transactions[i].vendorId
      && r.state.transactions[i].amount == s.transactions[i].amount
      && (forall j :: 0 <= j < |s.transactions| && j != i ==> r.state.transactions[j] == s.transactions[j])
      && r.state.wallets == s.wallets
      && r.state.activityLog == s.activityLog + [LogEntry(WithdrawalAction, WithdrawalFailed, s.transactions[i].vendorId)]
  {
  }

  /** A replayed completing transfer is applied again: the balance goes down twice. */
  lemma {:induction false} ReplayedTransferDebitsTwice(s: State, t: TransferData)
    requires FindReference(s.transactions, t.reference).Some? && TransferSucceeded(t.status)
    requires s.transactions[FindReference(s.transactions, t.reference).value].vendorId in s.wallets
    ensures var v := s.transactions[FindReference(s.transactions, t.reference).value].vendorId;
      var s2 := ConfirmTransfer(ConfirmTransfer(s, t).state, t).state;
      && v in s2.wallets
      && s2.wallets[v].balance == s.wallets[v].balance - 2 * t.amount
      && s2.wallets[v].totalWithdrawal == s.wallets[v].totalWithdrawal + 2 * t.amount
      && |s2.activityLog| == |s.activityLog| + 2
  {
    var i := FindReference(s.transactions, t.reference).value;
    var tx := s.transactions[i];
    var s1 := ConfirmTransfer(s, t).state;
    ConfirmTransferCompletes(s, t);
    FindReferenceAfterUpdate(s.transactions, i, tx.(kind := Debit, status := Completed, note := Some(WithdrawalNote)), t.reference);
    assert s1.transactions == s.transactions[i := tx.(kind := Debit, status := Completed, note := Some(WithdrawalNote))];
    assert FindReference(s1.transactions, t.reference) == Some(i);
    ConfirmTransferCompletes(s1, t);
  }

  // ---------------------------------------------------------------- processPayments

  /** The fields of a `CARD_TRANSACTION` webhook body that the service reads. */
  datatype CardPayload = CardPayload(id: int, amount: int, txRef: string)

  /** The gateway's verification of a card transaction: a throw, or its status, amount and tx_ref. */
  datatype Verification = VerifyThrew | Verified(status: string, amount: int, txRef: string)

  /** The gateway confirms the payment the webhook claims. */
  predicate Accepted(card: CardPayload, v: Verification) {
    v.Verified? && v.status == "successful" && v.amount == card.amount && v.txRef == card.txRef
  }

  /** The PAYMENT log entry naming the paying client. */
  function PaymentLog(vendorId: VendorId, fullname: string): LogEntry {
    LogEntry(PaymentAction, PaymentReceived(fullname), vendorId)
  }

  /**
   * The block for a transaction that already has the reference
   * (wallet.service.ts:512-580): a missing invoice or a transaction of another
   * vendor returns without writing; otherwise the transaction becomes a
   * COMPLETED credit naming the client, the issuer's wallet is credited, the
   * invoice is PAID and a PAYMENT entry is logged. A missing client or wallet
   * makes the block throw and roll back.
   */
  function CreditExisting(s: State, i: nat, invoiceId: InvoiceId, amount: int): (r: Step)
    requires i < |s.transactions|
    ensures r.outcome.Threw? || r.state == s || r.outcome == Returned(None)
    ensures r.state != s ==> invoiceId in s.invoices && s.invoices[invoiceId].vendorId == s.transactions[i].vendorId
    ensures r.outcome.Threw? ==> r.state == s
    ensures |r.state.transactions| == |s.transactions|
    ensures invoiceId !in s.invoices ==> r == Step(s, Returned(Some(Failure(NotFound, InvoiceNotFound))))
    ensures invoiceId in s.invoices && s.transactions[i].vendorId == s.invoices[invoiceId].vendorId ==>
      (r.outcome.Threw? <==> s.invoices[invoiceId].clientId !in s.clients || s.invoices[invoiceId].vendorId !in s.wallets)
    ensures invoiceId in s.invoices && s.transactions[i].vendorId == s.invoices[invoiceId].vendorId
            && s.invoices[invoiceId].clientId in s.clients && s.invoices[invoiceId].vendorId in s.wallets ==>
      var inv := s.invoices[invoiceId];
      var c := s.clients[inv.clientId].profile;
      && r.outcome == Returned(None)
      && r.state.transactions[i].referenceId == s.transactions[i].referenceId
      && r.state.transactions[i].vendorId == s.transactions[i].vendorId
      && r.state.transactions[i].amount == s.transactions[i].amount
      && r.state.transactions[i].kind == Credit && r.state.transactions[i].status == Completed
      && r.state.transactions[i].transacterName == Some(c.fullname) && r.state.transactions[i].transacterEmail == Some(c.email)
      && (forall j :: 0 <= j < |s.transactions| && j != i ==> r.state.transactions[j] == s.transactions[j])
      && r.state.wallets.Keys == s.wallets.Keys
      && r.state.wallets[inv.vendorId].balance == s.wallets[inv.vendorId].balance + amount
      && r.state.wallets[inv.vendorId].totalCredit == s.wallets[inv.vendorId].totalCredit + amount
      && r.state.wallets[inv.vendorId].totalWithdrawal == s.wallets[inv.vendorId].totalWithdrawal
      && (forall v :: v in s.wallets && v != inv.vendorId ==> r.state.wallets[v] == s.wallets[v])
      && r.state.invoices == s.invoices[invoiceId := inv.(status := Paid)]
      && r.state.activityLog == s.activityLog + [PaymentLog(inv.vendorId, c.fullname)]
      && r.state.vendors == s.vendors && r.state.clients == s.clients
  {
    if invoiceId !in s.invoices then Step(s, Returned(Some(Failure(NotFound, InvoiceNotFound))))
    else
      var inv := s.invoices[invoiceId];
      if s.transactions[i].vendorId != inv.vendorId then Step(s, Returned(None))
      else if inv.clientId !in s.clients || inv.vendorId !in s.wallets then Step(s, Threw)
      else
        var c := s.clients[inv.clientId].profile;
        var tx := s.transactions[i];
        Step(s.(transactions := s.transactions[i := tx.(kind := Credit, status := Completed,
                                                        transacterName := Some(c.fullname), transacterEmail := Some(c.email))],
                wallets := CreditWallet(s.wallets, inv.vendorId, amount),
                invoices := s.invoices[invoiceId := inv.(status := Paid)],
                activityLog := s.activityLog + [PaymentLog(inv.vendorId, c.fullname)]),
             Returned(None))
  }

  /**
   * The credit block (wallet.service.ts:583-655): without the invoice nothing
   * is written; otherwise a COMPLETED credit transaction is added, the
   * issuer's wallet is created if absent and credited, the invoice is PAID and
   * a PAYMENT entry is logged. With a unique reference column, an existing
   * reference makes the insert throw and the block roll back.
   */
  function CreditInvoice(s: State, schema: Schema, invoiceId: InvoiceId, amount: int, ref: string): (r: Step)
    ensures invoiceId !in s.invoices ==> r == Step(s, Returned(Some(Failure(NotFound, InvoiceNotFound))))
    ensures r.outcome.Threw? ==> r.state == s
    ensures r.state != s ==> r.outcome == Returned(None)
    ensures invoiceId in s.invoices ==>
      (r.outcome.Threw? <==> s.invoices[invoiceId].clientId !in s.clients
                             || (schema.uniqueReference && FindReference(s.transactions, ref).Some?))
    ensures invoiceId in s.invoices && s.invoices[invoiceId].clientId in s.clients
            && !(schema.uniqueReference && FindReference(s.transactions, ref).Some?) ==>
      var inv := s.invoices[invoiceId];
      var c := s.clients[inv.clientId].profile;
      && r.outcome == Returned(None)
      && r.state.transactions == s.transactions + [Transaction(ref, inv.vendorId, amount, Credit, Completed, None,
                                                               Some(c.fullname), Some(c.email))]
      && r.state.wallets.Keys == s.wallets.Keys + {inv.vendorId}
      && r.state.wallets[inv.vendorId].balance == WalletSeen(s, schema, inv.vendorId).balance + amount
      && r.state.wallets[inv.vendorId].totalCredit == WalletSeen(s, schema, inv.vendorId).totalCredit + amount
      && r.state.wallets[inv.vendorId].totalWithdrawal == WalletSeen(s, schema, inv.vendorId).totalWithdrawal
      && (forall v :: v in s.wallets && v != inv.vendorId ==> r.state.wallets[v] == s.wallets[v])
      && r.state.invoices == s.invoices[invoiceId := inv.(status := Paid)]
      && r.state.activityLog == s.activityLog + [PaymentLog(inv.vendorId, c.fullname)]
      && r.state.vendors == s.vendors && r.state.clients == s.clients
  {
    if invoiceId !in s.invoices then Step(s, Returned(Some(Failure(NotFound, InvoiceNotFound))))
    else
      var inv := s.invoices[invoiceId];
      if inv.clientId !in s.clients then Step(s, Threw)
      else if schema.uniqueReference && FindReference(s.transactions, ref).Some? then Step(s, Threw)
      else
        var c := s.clients[inv.clientId].profile;
        Step(s.(transactions := s.transactions + [Transaction(ref, inv.vendorId, amount, Credit, Completed, None,
                                                              Some(c.fullname), Some(c.email))],
                wallets := CreditWallet(EnsureWallet(s.wallets, schema, inv.vendorId), inv.vendorId, amount),
                invoices := s.invoices[invoiceId := inv.(status := Paid)],
                activityLog := s.activityLog + [PaymentLog(inv.vendorId, c.fullname)]),
             Returned(None))
  }

  /**
   * `processPayments`: nothing happens unless the gateway confirms status,
   * amount and reference; then the existing-transaction block runs when a
   * transaction has the reference, and the credit block runs after it in any
   * case unless the first one threw.
   */
  function ProcessPayments(s: State, schema: Schema, card: CardPayload, verified: Verification): (r: Step)
    ensures !Accepted(card, verified) ==> r.state == s
    ensures verified.VerifyThrew? ==> r.outcome.Threw?
  {
    match verified
    case VerifyThrew => Step(s, Threw)
    case Verified(status, amount, txRef) =>
      if !(status == "successful" && amount == card.amount && txRef == card.txRef) then Step(s, Returned(None))
      else
        var invoiceId := InvoiceIdOf(card.txRef);
        var first := match FindReference(s.transactions, txRef)
                     case None => Step(s, Returned(None))
                     case Some(i) => CreditExisting(s, i, invoiceId, amount);
        if first.outcome.Threw? then first
        else
          var second := CreditInvoice(first.state, schema, invoiceId, amount, txRef);
          Step(second.state, if second.outcome.Threw? then Threw else Returned(None))
  }

  /**
   * A first payment for an invoice (no transaction carries its reference yet)
   * adds one COMPLETED credit of the verified amount, credits the issuer's
   * wallet once (creating it if absent), marks the invoice PAID and logs one
   * PAYMENT entry.
   */
  lemma FreshPaymentCreditsOnce(s: State, schema: Schema, card: CardPayload, verified: Verification)
    requires Accepted(card, verified)
    requires FindReference(s.transactions, card.txRef).None?
    requires InvoiceIdOf(card.txRef) in s.invoices
    requires s.invoices[InvoiceIdOf(card.txRef)].clientId in s.clients
    ensures var inv := s.invoices[InvoiceIdOf(card.txRef)];
      var c := s.clients[inv.clientId].profile;
      var r := ProcessPayments(s, schema, card, verified);
      && r.outcome == Returned(None)
      && r.state.transactions == s.transactions + [Transaction(card.txRef, inv.vendorId, card.amount, Credit, Completed, None,
                                                               Some(c.fullname), Some(c.email))]
      && inv.vendorId in r.state.wallets
      && r.state.wallets[inv.vendorId].balance == WalletSeen(s, schema, inv.vendorId).balance + card.amount
      && r.state.wallets[inv.vendorId].totalCredit == WalletSeen(s, schema, inv.vendorId).totalCredit + card.amount
      && r.state.invoices == s.invoices[InvoiceIdOf(card.txRef) := inv.(status := Paid)]
      && r.state.activityLog == s.activityLog + [PaymentLog(inv.vendorId, c.fullname)]
      && r.state.wallets.Keys == s.wallets.Keys + {inv.vendorId}
      && r.state.wallets[inv.vendorId].totalWithdrawal == WalletSeen(s, schema, inv.vendorId).totalWithdrawal
      && (forall v :: v in s.wallets && v != inv.vendorId ==> r.state.wallets[v] == s.wallets[v])
      && r.state.vendors == s.vendors && r.state.clients == s.clients
  {
  }

  /**
   * Delivering the same payment webhook twice credits again. With a unique
   * reference column, the second delivery completes the existing transaction
   * and credits once before the insert fails; without one, it credits twice
   * (once per block).
   */
  lemma {:induction false} ReplayedPaymentCreditsAgain(s: State, schema: Schema, card: CardPayload, verified: Verification)
    requires Accepted(card, verified)
    requires FindReference(s.transactions, card.txRef).None?
    requires InvoiceIdOf(card.txRef) in s.invoices
    requires s.invoices[InvoiceIdOf(card.txRef)].clientId in s.clients
    ensures var v := s.invoices[InvoiceIdOf(card.txRef)].vendorId;
      var s1 := ProcessPayments(s, schema, card, verified).state;
      var r2 := ProcessPayments(s1, schema, card, verified);
      && v in s1.wallets && v in r2.state.wallets
      && r2.state.wallets[v].balance == s1.wallets[v].balance + (if schema.uniqueReference then card.amount else 2 * card.amount)
      && r2.state.wallets[v].totalCredit == s1.wallets[v].totalCredit + (if schema.uniqueReference then card.amount else 2 * card.amount)
      && (schema.uniqueReference <==> r2.outcome.Threw?)
  {
    var invoiceId := InvoiceIdOf(card.txRef);
    var inv := s.invoices[invoiceId];
    var c := s.clients[inv.clientId].profile;
    var newTx := Transaction(card.txRef, inv.vendorId, card.amount, Credit, Completed, None, Some(c.fullname), Some(c.email));
    FreshPaymentCreditsOnce(s, schema, card, verified);
    var s1 := ProcessPayments(s, schema, card, verified).state;
    FindReferenceAfterAppend(s.transactions, newTx, card.txRef);
    var i := |s.transactions|;
    assert FindReference(s1.transactions, card.txRef) == Some(i);
    var first := CreditExisting(s1, i, invoiceId, card.amount);
    assert s1.invoices[invoiceId] == inv.(status := Paid);
    var tx1 := s1.transactions[i].(kind := Credit, status := Completed, transacterName := Some(c.fullname), transacterEmail := Some(c.email));
    assert first.state.transactions == s1.transactions[i := tx1];
    FindReferenceAfterUpdate(s1.transactions, i, tx1, card.txRef);
    assert FindReference(first.state.transactions, card.txRef).Some?;
  }

  /**
   * The existing-transaction block writes nothing when that transaction
   * belongs to another vendor than the invoice's issuer.
   */
  lemma CreditExistingSkipsOtherVendor(s: State, i: nat, invoiceId: InvoiceId, amount: int)
    requires i < |s.transactions| && invoiceId in s.invoices
    requires s.transactions[i].vendorId != s.invoices[invoiceId].vendorId
    ensures CreditExisting(s, i, invoiceId, amount) == Step(s, Returned(None))
  {
  }

  /**
   * When the transaction that already carries the reference belongs to
   * another vendor, the first block writes nothing and the credit block still
   * runs: without a unique reference column the invoice's issuer is credited
   * under the same reference, so two rows carry it; with one, the insert
   * throws and nothing is written.
   */
  lemma OtherVendorReferenceStillCredited(s: State, schema: Schema, card: CardPayload, verified: Verification)
    requires Accepted(card, verified)
    requires FindReference(s.transactions, card.txRef).Some?
    requires InvoiceIdOf(card.txRef) in s.invoices
    requires s.invoices[InvoiceIdOf(card.txRef)].clientId in s.clients
    requires s.transactions[FindReference(s.transactions, card.txRef).value].vendorId != s.invoices[InvoiceIdOf(card.txRef)].vendorId
    ensures var inv := s.invoices[InvoiceIdOf(card.txRef)];
      var c := s.clients[inv.clientId].profile;
      var r := ProcessPayments(s, schema, card, verified);
      && (schema.uniqueReference ==> r == Step(s, Threw))
      && (!schema.uniqueReference ==>
            && r.outcome == Returned(None)
            && r.state.transactions == s.transactions + [Transaction(card.txRef, inv.vendorId, card.amount, Credit, Completed,
                                                                     None, Some(c.fullname), Some(c.email))]
            && inv.vendorId in r.state.wallets
            && r.state.wallets[inv.vendorId].balance == WalletSeen(s, schema, inv.vendorId).balance + card.amount)
  {
    CreditExistingSkipsOtherVendor(s, FindReference(s.transactions, card.txRef).value, InvoiceIdOf(card.txRef), card.amount);
  }

  // ---------------------------------------------------------------- flutterwaveWebhook

  /** The parts of a webhook body the service reads: `event.type`, the card fields, `transfer`. */
  datatype WebhookBody = WebhookBody(eventType: Option<string>, card: Option<CardPayload>, transfer: Option<TransferData>)

  /** The signature gate: a non-empty `verif-hash` equal to the configured secret. */
  predicate SignatureValid(signature: Option<string>, secret: Option<string>): (ok: bool)
    ensures ok ==> secret.Some? && secret.value != ""
    ensures secret.None? || secret == Some("") ==> !ok
  {
    signature.Some? && signature.value != "" && secret == signature
  }

  /**
   * A bad signature is refused with no change. A card event runs
   * `processPayments`, a `Transfer` event runs `processWithdrawals` on the
   * body's transfer object, any other event does nothing; once past the gate
   * the webhook returns nothing, whether the work threw or not.
   */
  function Webhook(s: State, schema: Schema, signature: Option<string>, secret: Option<string>,
                   body: WebhookBody, verified: Verification): (a: Answer)
    ensures !SignatureValid(signature, secret) <==> a.reply == Some(Failure(Conflict, SignatureMismatch))
    ensures !SignatureValid(signature, secret) ==> a.state == s
    ensures SignatureValid(signature, secret) ==> a.reply.None?
    ensures body.eventType != Some("CARD_TRANSACTION") && body.eventType != Some("Transfer") ==> a.state == s
  {
    if !SignatureValid(signature, secret) then Answer(s, Some(Failure(Conflict, SignatureMismatch)))
    else if body.eventType == Some("CARD_TRANSACTION") then
      var r := if body.card.None? then Step(s, Threw) else ProcessPayments(s, schema, body.card.value, verified);
      Answer(r.state, None)
    else if body.eventType == Some("Transfer") then
      var r := if body.transfer.None? then Step(s, Threw) else ConfirmTransfer(s, body.transfer.value);
      Answer(r.state, None)
    else Answer(s, None)
  }

  /** Only a card event reaches the payment logic and only a transfer event the withdrawal logic. */
  lemma WebhookDispatch(s: State, schema: Schema, signature: Option<string>, secret: Option<string>,
                        body: WebhookBody, verified: Verification)
    requires SignatureValid(signature, secret)
    ensures body.eventType == Some("CARD_TRANSACTION") && body.card.Some? ==>
      Webhook(s, schema, signature, secret, body, verified).state == ProcessPayments(s, schema, body.card.value, verified).state
    ensures body.eventType == Some("Transfer") && body.transfer.Some? ==>
      Webhook(s, schema, signature, secret, body, verified).state == ConfirmTransfer(s, body.transfer.value).state
    ensures body.eventType == Some("Transfer") && body.transfer.None? ==>
      Webhook(s, schema, signature, secret, body, verified).state == s
    ensures body.eventType == Some("CARD_TRANSACTION") && body.card.None? ==>
      Webhook(s, schema, signature, secret, body, verified).state == s
  {
  }

  // ---------------------------------------------------------------- the balance invariant

  lemma {:induction false} CreditKeepsBalanced(wallets: map<VendorId, Wallet>, v: VendorId, amount: int)
    requires v in wallets
    requires forall u :: u in wallets ==> wallets[u].balance == wallets[u].totalCredit - wallets[u].totalWithdrawal
    ensures var r := CreditWallet(wallets, v, amount);
      forall u :: u in r ==> r[u].balance == r[u].totalCredit - r[u].totalWithdrawal
  {
    var r := CreditWallet(wallets, v, amount);
    forall u | u in r ensures r[u].balance == r[u].totalCredit - r[u].totalWithdrawal {
      assert u in wallets;
    }
  }

  lemma {:induction false} ConfirmTransferKeepsBalanced(s: State, t: TransferData)
    requires Balanced(s)
    ensures Balanced(ConfirmTransfer(s, t).state)
  {
    var r := ConfirmTransfer(s, t).state;
    forall u | u in r.wallets ensures r.wallets[u].balance == r.wallets[u].totalCredit - r.wallets[u].totalWithdrawal {
      assert u in s.wallets;
    }
  }

  lemma {:induction false} ProcessPaymentsKeepsBalanced(s: State, schema: Schema, card: CardPayload, verified: Verification)
    requires Balanced(s) && ZeroDefaults(schema)
    ensures Balanced(ProcessPayments(s, schema, card, verified).state)
  {
    if Accepted(card, verified) {
      var invoiceId := InvoiceIdOf(card.txRef);
      var first := match FindReference(s.transactions, verified.txRef)
                   case None => Step(s, Returned(None))
                   case Some(i) => CreditExisting(s, i, invoiceId, verified.amount);
      if first.state != s {
        CreditKeepsBalanced(s.wallets, s.invoices[invoiceId].vendorId, verified.amount);
      }
      assert Balanced(first.state);
      if !first.outcome.Threw? && invoiceId in first.state.invoices {
        var v := first.state.invoices[invoiceId].vendorId;
        var ws := EnsureWallet(first.state.wallets, schema, v);
        assert forall u :: u in ws ==> ws[u].balance == ws[u].totalCredit - ws[u].totalWithdrawal;
        CreditKeepsBalanced(ws, v, verified.amount);
      }
    }
  }

  /**
   * With new wallets starting at zero, no ledger operation breaks
   * balance = totalCredit - totalWithdrawal.
   */
  lemma {:induction false} WebhookKeepsBalanced(s: State, schema: Schema, signature: Option<string>, secret: Option<string>,
                                                body: WebhookBody, verified: Verification)
    requires Balanced(s) && ZeroDefaults(schema)
    ensures Balanced(Webhook(s, schema, signature, secret, body, verified).state)
  {
    if SignatureValid(signature, secret) {
      if body.eventType == Some("CARD_TRANSACTION") && body.card.Some? {
        ProcessPaymentsKeepsBalanced(s, schema, body.card.value, verified);
      } else if body.eventType == Some("Transfer") && body.transfer.Some? {
        ConfirmTransferKeepsBalanced(s, body.transfer.value);
      }
    }
  }

  lemma {:induction false} WithdrawKeepsBalanced(s: State, schema: Schema, vendorId: VendorId, password: string, req: WithdrawRequest,
                                                 matches: (string, string) -> bool, nowMs: nat, answer: TransferAnswer)
    requires Balanced(s) && ZeroDefaults(schema)
    ensures Balanced(WithdrawToBank(s, schema, vendorId, password, req, matches, nowMs, answer).state)
  {
    WithdrawKeepsWallets(s, schema, vendorId, password, req, matches, nowMs, answer);
    var r := WithdrawToBank(s, schema, vendorId, password, req, matches, nowMs, answer).state;
    forall u | u in r.wallets ensures r.wallets[u].balance == r.wallets[u].totalCredit - r.wallets[u].totalWithdrawal {
      if u !in s.wallets {
        assert r.wallets[u] == schema.walletDefaults;
      }
    }
  }

  lemma {:induction false} CreateUserWalletKeepsBalanced(s: State, schema: Schema, vendorId: VendorId)
    requires Balanced(s) && ZeroDefaults(schema)
    ensures Balanced(CreateUserWallet(s, schema, vendorId).state)
  {
    var r := CreateUserWallet(s, schema, vendorId).state;
    forall u | u in r.wallets ensures r.wallets[u].balance == r.wallets[u].totalCredit - r.wallets[u].totalWithdrawal {
      if u != vendorId {
        assert u in s.wallets;
      }
    }
  }

  /** The zero-defaults assumption is needed: a wallet created with a non-zero credit default is not balanced. */
  lemma BalancedNeedsZeroDefaults(s: State)
    requires s.wallets == map[]
    ensures !Balanced(CreateUserWallet(s, Schema(Wallet(0, 1, 0), false), "v").state)
  {
    var r := CreateUserWallet(s, Schema(Wallet(0, 1, 0), false), "v").state;
    assert "v" in r.wallets && r.wallets["v"] == Wallet(0, 1, 0);
  }

  /**
   * A withdrawal initiated and then confirmed by the gateway with a
   * completing status takes its amount off the balance once.
   */
  lemma {:induction false} WithdrawThenConfirm(s: State, schema: Schema, vendorId: VendorId, password: string, req: WithdrawRequest,
                                               matches: (string, string) -> bool, nowMs: nat, answer: TransferAnswer, status: string)
    requires WithdrawToBank(s, schema, vendorId, password, req, matches, nowMs, answer).reply == Some(Success(ProcessingTransaction, None))
    requires FindReference(s.transactions, TransactionReference(nowMs)).None?
    requires TransferSucceeded(status)
    ensures var s1 := WithdrawToBank(s, schema, vendorId, password, req, matches, nowMs, answer).state;
      var r := ConfirmTransfer(s1, TransferData(TransactionReference(nowMs), req.amount, status));
      && r.outcome == Returned(Some(Success(NgnTransactionSuccessful, None)))
      && vendorId in r.state.wallets
      && r.state.wallets[vendorId].balance == WalletSeen(s, schema, vendorId).balance - req.amount
      && r.state.wallets[vendorId].totalWithdrawal == WalletSeen(s, schema, vendorId).totalWithdrawal + req.amount
      && r.state.transactions[|s.transactions|].status == Completed
  {
    var ref := TransactionReference(nowMs);
    WithdrawRecordsPendingDebit(s, schema, vendorId, password, req, matches, nowMs, answer);
    var s1 := WithdrawToBank(s, schema, vendorId, password, req, matches, nowMs, answer).state;
    var tx := PendingDebit(vendorId, s.vendors[vendorId], ref, req.amount);
    FindReferenceAfterAppend(s.transactions, tx, ref);
    assert FindReference(s1.transactions, ref) == Some(|s.transactions|);
    ConfirmTransferCompletes(s1, TransferData(ref, req.amount, status));
  }

  // ---------------------------------------------------------------- transaction PIN

  /** `vendor.transactionPin` is truthy. */
  predicate HasPin(v: Vendor) {
    v.transactionPin.Some? && v.transactionPin.value != ""
  }

  /**
   * A vendor with a PIN is refused; otherwise the PIN hash is stored. A vendor
   * row that is not there makes the update throw, which is swallowed.
   */
  function SetTransactionPin(s: State, vendorId: VendorId, pinHash: string): (a: Answer)
    ensures vendorId in s.vendors && HasPin(s.vendors[vendorId]) ==> a == Answer(s, Some(Failure(Conflict, UserHasTransactionPin)))
    ensures a.reply == Some(Success(UserTransactionPinSet, None)) <==> vendorId in s.vendors && !HasPin(s.vendors[vendorId])
    ensures a.reply == Some(Success(UserTransactionPinSet, None)) ==>
      && a.state.vendors.Keys == s.vendors.Keys
      && a.state.vendors[vendorId].transactionPin == Some(pinHash)
      && a.state.vendors[vendorId].passwordHash == s.vendors[vendorId].passwordHash
    ensures a.reply == Some(Success(UserTransactionPinSet, None)) ==>
      a.state == s.(vendors := s.vendors[vendorId := s.vendors[vendorId].(transactionPin := Some(pinHash))])
    ensures vendorId !in s.vendors ==> a == Answer(s, None)
    ensures a.state.(vendors := s.vendors) == s
  {
    if vendorId !in s.vendors then Answer(s, None)
    else
      var v := s.vendors[vendorId];
      if HasPin(v) then Answer(s, Some(Failure(Conflict, UserHasTransactionPin)))
      else Answer(s.(vendors := s.vendors[vendorId := v.(transactionPin := Some(pinHash))]), Some(Success(UserTransactionPinSet, None)))
  }

  /** No PIN, a PIN that does not match, or a verified PIN. */
  function VerifyTransactionPin(v: Vendor, pin: string, compare: (string, string) -> bool): (r: Ack)
    ensures r == Success(TransactionPinVerified, None) <==> HasPin(v) && compare(pin, v.transactionPin.value)
    ensures !HasPin(v) <==> r == Failure(Validation, NoTransactionPin)
    ensures HasPin(v) && !compare(pin, v.transactionPin.value) <==> r == Failure(Validation, IncorrectTransactionPin)
  {
    if !HasPin(v) then Failure(Validation, NoTransactionPin)
    else if !compare(pin, v.transactionPin.value) then Failure(Validation, IncorrectTransactionPin)
    else Success(TransactionPinVerified, None)
  }

  /** A PIN is set once: after it is set, setting another is refused and changes nothing. */
  lemma PinIsSetOnce(s: State, vendorId: VendorId, pinHash: string, otherHash: string)
    requires SetTransactionPin(s, vendorId, pinHash).reply == Some(Success(UserTransactionPinSet, None))
    requires pinHash != ""
    ensures var s1 := SetTransactionPin(s, vendorId, pinHash).state;
      SetTransactionPin(s1, vendorId, otherHash) == Answer(s1, Some(Failure(Conflict, UserHasTransactionPin)))
  {
  }

  /** After the PIN is set, a PIN matching the stored hash verifies. */
  lemma PinVerifiesAfterSet(s: State, vendorId: VendorId, pinHash: string, pin: string, compare: (string, string) -> bool)
    requires SetTransactionPin(s, vendorId, pinHash).reply == Some(Success(UserTransactionPinSet, None))
    requires pinHash != "" && compare(pin, pinHash)
    ensures VerifyTransactionPin(SetTransactionPin(s, vendorId, pinHash).state.vendors[vendorId], pin, compare)
         == Success(TransactionPinVerified, None)
  {
  }

  // ---------------------------------------------------------------- history pages

  /** The number of the vendor's transactions (`transaction.count({where: {vendorId}})`). */
  function VendorTransactionCount(txs: seq<Transaction>, vendorId: VendorId): (n: nat)
    ensures n <= |txs|
    ensures n == 0 <==> forall j :: 0 <= j < |txs| ==> txs[j].vendorId != vendorId
  {
    if |txs| == 0 then 0
    else VendorTransactionCount(txs[1..], vendorId) + (if txs[0].vendorId == vendorId then 1 else 0)
  }

  /**
   * `transactionHistory` as written: the rows the query returned are paged
   * with `hasNext` passed as the last-page flag.
   */
  function TransactionHistoryAsWritten<T>(s: State, vendorId: VendorId, pageNumber: Option<int>, pageSize: Option<int>,
                                          rows: seq<T>): (r: Reply<Paginate.PageResult<T>>)
    requires pageSize != Some(0)
    ensures r.Failure? ==> r == Failure(NotFound, NoResource)
    ensures r.Success? ==> r.message == TransactionHistoryFetched && r.data.Some? && !r.data.value.NotFound?
  {
    var total := VendorTransactionCount(s.transactions, vendorId);
    var w := Paginate.QueryWindow(pageNumber, pageSize, total);
    var data := Paginate.Paginate(rows, w.currentPage, w.limit, w.hasNext, total);
    if data.NotFound? then Failure(NotFound, NoResource) else Success(TransactionHistoryFetched, Some(data))
  }

  /**
   * A history page with `!hasNext` as the last-page flag, as `getPaymentHistory`
   * does it; also the corrected `transactionHistory`.
   */
  function HistoryPage<T>(s: State, vendorId: VendorId, pageNumber: Option<int>, pageSize: Option<int>,
                          rows: seq<T>): (r: Reply<Paginate.PageResult<T>>)
    requires pageSize != Some(0)
    ensures r.Failure? ==> r == Failure(NotFound, NoResource)
    ensures r.Success? ==> r.data.Some? && r.data.value.Page? && r.data.value.result == rows
  {
    var total := VendorTransactionCount(s.transactions, vendorId);
    var w := Paginate.QueryWindow(pageNumber, pageSize, total);
    var data := Paginate.Paginate(rows, w.currentPage, w.limit, !w.hasNext, total);
    if data.NotFound? then Failure(NotFound, NoResource) else Success(TransactionHistoryFetched, Some(data))
  }

  /**
   * As written, every page before the last one is refused as not found,
   * e.g. page 1 of 40 transactions at 20 per page.
   */
  lemma AsWrittenRefusesEarlierPages<T>(s: State, vendorId: VendorId, page: int, size: int, rows: seq<T>)
    requires size > 0
    requires 1 <= page < Paginate.CeilDiv(VendorTransactionCount(s.transactions, vendorId), size)
    ensures TransactionHistoryAsWritten(s, vendorId, Some(page), Some(size), rows) == Failure(NotFound, NoResource)
  {
  }

  /** The concrete case: 40 transactions, 20 per page, page 1 is not found. */
  lemma AsWrittenFirstOfTwoPages<T>(s: State, vendorId: VendorId, rows: seq<T>)
    requires VendorTransactionCount(s.transactions, vendorId) == 40
    ensures TransactionHistoryAsWritten(s, vendorId, Some(1), Some(20), rows) == Failure(NotFound, NoResource)
  {
    assert Paginate.CeilDiv(40, 20) == 2;
  }

  /** With `!hasNext`, every page from 1 to the page count is served, and no page beyond it. */
  lemma {:induction false} HistoryServesEveryPage<T>(s: State, vendorId: VendorId, page: int, size: int, rows: seq<T>)
    requires size > 0
    ensures var n := Paginate.CeilDiv(VendorTransactionCount(s.transactions, vendorId), size);
      && (1 <= page <= n ==> HistoryPage(s, vendorId, Some(page), Some(size), rows).Success?)
      && (page > n ==> HistoryPage(s, vendorId, Some(page), Some(size), rows) == Failure(NotFound, NoResource))
  {
    var total := VendorTransactionCount(s.transactions, vendorId);
    var n := Paginate.CeilDiv(total, size);
    if 1 <= page < n {
      Paginate.EveryEarlierPageServed(rows, page, size, total);
    }
  }
}
