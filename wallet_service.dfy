/**
 * `WalletService`'s state-changing operations as methods on the database:
 * each checks and writes the tables step by step, and its contract ties the
 * new tables and the reply to the ledger function of the same name. A block
 * that would throw after writing is modelled by checking the throwing
 * condition before the first write, which is what the rollback amounts to.
 */
module WalletService {
  import opened Wrappers
  import Strings
  import opened Responses
  import opened Store
  import L = WalletLedger
  import ResponseHandler

  method CreateUserWallet(db: Db, vendorId: VendorId) returns (reply: Option<Ack>)
    modifies db
    ensures db.Snapshot() == L.CreateUserWallet(old(db.Snapshot()), db.schema, vendorId).state
    ensures reply == L.CreateUserWallet(old(db.Snapshot()), db.schema, vendorId).reply
  {
    if vendorId in db.wallets {
      return Some(Failure(Conflict, WalletExists));
    }
    var d := db.schema.walletDefaults;
    db.wallets := db.wallets[vendorId := Wallet(0, d.totalCredit, d.totalWithdrawal)];
    return Some(Success(UserWalletCreated, None));
  }

  method WithdrawToBank(db: Db, vendorId: VendorId, password: string, req: L.WithdrawRequest,
                        matches: (string, string) -> bool, nowMs: nat, answer: L.TransferAnswer)
    returns (reply: Option<Ack>, sent: Option<L.TransferRequest>)
    modifies db
    ensures var w := L.WithdrawToBank(old(db.Snapshot()), db.schema, vendorId, password, req, matches, nowMs, answer);
      db.Snapshot() == w.state && reply == w.reply && sent == w.sent
  {
    if vendorId !in db.vendors {
      return Some(InternalError()), None;
    }
    var vendor := db.vendors[vendorId];
    if !matches(password, vendor.passwordHash) {
      return Some(Failure(Validation, IncorrectPassword)), None;
    }
    db.wallets := L.EnsureWallet(db.wallets, db.schema, vendorId);
    var wallet := db.wallets[vendorId];
    if req.amount < L.MinimumWithdrawalAmount {
      return Some(Failure(Validation, MinimumWithdrawal(Strings.NatToString(L.MinimumWithdrawalAmount)))), None;
    }
    if req.amount > wallet.balance {
      return Some(Failure(Validation, InsufficientFund)), None;
    }
    var ref := L.TransactionReference(nowMs);
    sent := Some(L.TransferRequest(req.bankCode, req.accountNumber, req.amount, ref));
    if answer.TransferThrew? || answer.status == "error" {
      return Some(InternalError()), sent;
    }
    if answer.status == "success" && (answer.transferStatus == "SUCCESSFUL" || answer.transferStatus == "NEW") {
      if db.schema.uniqueReference && L.FindReference(db.transactions, ref).Some? {
        return Some(InternalError()), sent;
      }
      db.transactions := db.transactions + [L.PendingDebit(vendorId, vendor, ref, req.amount)];
      db.activityLog := db.activityLog + [LogEntry(WithdrawalAction, ProcessingWithdrawal, vendorId)];
      return Some(Success(ProcessingTransaction, None)), sent;
    }
    reply := None;
  }

  /** `processWithdrawals`. */
  method ConfirmTransfer(db: Db, t: L.TransferData) returns (outcome: L.Outcome)
    modifies db
    ensures db.Snapshot() == L.ConfirmTransfer(old(db.Snapshot()), t).state
    ensures outcome == L.ConfirmTransfer(old(db.Snapshot()), t).outcome
  {
    var found := L.FindReference(db.transactions, t.reference);
    if found.None? {
      return L.Returned(Some(Failure(NotFound, TransactionNotFound)));
    }
    var i := found.value;
    var tx := db.transactions[i];
    if L.TransferSucceeded(t.status) {
      if tx.vendorId !in db.wallets {
        return L.Threw;
      }
      db.transactions := db.transactions[i := tx.(kind := Debit, status := Completed, note := Some(L.WithdrawalNote))];
      db.wallets := L.DebitWallet(db.wallets, tx.vendorId, t.amount);
      db.activityLog := db.activityLog + [LogEntry(WithdrawalAction, MoneyWithdrawn, tx.vendorId)];
      return L.Returned(Some(Success(NgnTransactionSuccessful, None)));
    }
    db.transactions := db.transactions[i := tx.(kind := Debit, status := Failed, note := Some(L.WithdrawalNote))];
    db.activityLog := db.activityLog + [LogEntry(WithdrawalAction, WithdrawalFailed, tx.vendorId)];
    return L.Returned(Some(Success(WithdrawalFailed, None)));
  }

  /** The existing-transaction block of `processPayments`. */
  method CreditExisting(db: Db, i: nat, invoiceId: InvoiceId, amount: int) returns (outcome: L.Outcome)
    requires i < |db.transactions|
    modifies db
    ensures db.Snapshot() == L.CreditExisting(old(db.Snapshot()), i, invoiceId, amount).state
    ensures outcome == L.CreditExisting(old(db.Snapshot()), i, invoiceId, amount).outcome
  {
    if invoiceId !in db.invoices {
      return L.Returned(Some(Failure(NotFound, InvoiceNotFound)));
    }
    var inv := db.invoices[invoiceId];
    if db.transactions[i].vendorId != inv.vendorId {
      return L.Returned(None);
    }
    if inv.clientId !in db.clients || inv.vendorId !in db.wallets {
      return L.Threw;
    }
    var c := db.clients[inv.clientId].profile;
    var tx := db.transactions[i];
    db.transactions := db.transactions[i := tx.(kind := Credit, status := Completed,
                                                transacterName := Some(c.fullname), transacterEmail := Some(c.email))];
    db.wallets := L.CreditWallet(db.wallets, inv.vendorId, amount);
    db.invoices := db.invoices[invoiceId := inv.(status := Paid)];
    db.activityLog := db.activityLog + [L.PaymentLog(inv.vendorId, c.fullname)];
    return L.Returned(None);
  }

  /** The credit block of `processPayments`. */
  method CreditInvoice(db: Db, invoiceId: InvoiceId, amount: int, ref: string) returns (outcome: L.Outcome)
    modifies db
    ensures db.Snapshot() == L.CreditInvoice(old(db.Snapshot()), db.schema, invoiceId, amount, ref).state
    ensures outcome == L.CreditInvoice(old(db.Snapshot()), db.schema, invoiceId, amount, ref).outcome
  {
    if invoiceId !in db.invoices {
      return L.Returned(Some(Failure(NotFound, InvoiceNotFound)));
    }
    var inv := db.invoices[invoiceId];
    if inv.clientId !in db.clients {
      return L.Threw;
    }
    if db.schema.uniqueReference && L.FindReference(db.transactions, ref).Some? {
      return L.Threw;
    }
    var c := db.clients[inv.clientId].profile;
    db.transactions := db.transactions + [Transaction(ref, inv.vendorId, amount, Credit, Completed, None,
                                                      Some(c.fullname), Some(c.email))];
    db.wallets := L.EnsureWallet(db.wallets, db.schema, inv.vendorId);
    db.wallets := L.CreditWallet(db.wallets, inv.vendorId, amount);
    db.invoices := db.invoices[invoiceId := inv.(status := Paid)];
    db.activityLog := db.activityLog + [L.PaymentLog(inv.vendorId, c.fullname)];
    return L.Returned(None);
  }

  method ProcessPayments(db: Db, card: L.CardPayload, verified: L.Verification) returns (outcome: L.Outcome)
    modifies db
    ensures db.Snapshot() == L.ProcessPayments(old(db.Snapshot()), db.schema, card, verified).state
    ensures outcome == L.ProcessPayments(old(db.Snapshot()), db.schema, card, verified).outcome
  {
    if verified.VerifyThrew? {
      return L.Threw;
    }
    if !(verified.status == "successful" && verified.amount == card.amount && verified.txRef == card.txRef) {
      return L.Returned(None);
    }
    var invoiceId := L.InvoiceIdOf(card.txRef);
    var found := L.FindReference(db.transactions, verified.txRef);
    if found.Some? {
      outcome := CreditExisting(db, found.value, invoiceId, verified.amount);
      if outcome.Threw? {
        return;
      }
    }
    outcome := CreditInvoice(db, invoiceId, verified.amount, verified.txRef);
    if !outcome.Threw? {
      outcome := L.Returned(None);
    }
  }

  method Webhook(db: Db, signature: Option<string>, secret: Option<string>, body: L.WebhookBody, verified: L.Verification)
    returns (reply: Option<Ack>)
    modifies db
    ensures db.Snapshot() == L.Webhook(old(db.Snapshot()), db.schema, signature, secret, body, verified).state
    ensures reply == L.Webhook(old(db.Snapshot()), db.schema, signature, secret, body, verified).reply
  {
    if !L.SignatureValid(signature, secret) {
      return Some(Failure(Conflict, SignatureMismatch));
    }
    if body.eventType == Some("CARD_TRANSACTION") {
      if body.card.Some? {
        var _ := ProcessPayments(db, body.card.value, verified);
      }
    } else if body.eventType == Some("Transfer") {
      if body.transfer.Some? {
        var _ := ConfirmTransfer(db, body.transfer.value);
      }
    }
    reply := None;
  }

  method SetTransactionPin(db: Db, vendorId: VendorId, pinHash: string) returns (reply: Option<Ack>)
    modifies db
    ensures db.Snapshot() == L.SetTransactionPin(old(db.Snapshot()), vendorId, pinHash).state
    ensures reply == L.SetTransactionPin(old(db.Snapshot()), vendorId, pinHash).reply
  {
    if vendorId !in db.vendors {
      return None;
    }
    var v := db.vendors[vendorId];
    if L.HasPin(v) {
      return Some(Failure(Conflict, UserHasTransactionPin));
    }
    db.vendors := db.vendors[vendorId := v.(transactionPin := Some(pinHash))];
    return Some(Success(UserTransactionPinSet, None));
  }

  /**
   * The webhook's reply once the signature is accepted is `undefined`, so the
   * response handler answers every accepted webhook with 500; only a refused
   * signature gets the conflict reply.
   */
  lemma AcceptedWebhookAnsweredWith500(s: State, schema: Schema, signature: Option<string>, secret: Option<string>,
                                       body: L.WebhookBody, verified: L.Verification, codes: Codes)
    ensures var a := L.Webhook(s, schema, signature, secret, body, verified);
      var h := ResponseHandler.Handle(ResponseHandler.Resolve(a.reply, codes));
      && (L.SignatureValid(signature, secret) ==> h == ResponseHandler.HttpReply(500, ResponseHandler.ServerErrorBody(ResponseHandler.ServerErrorText)))
      && (!L.SignatureValid(signature, secret) ==> h.body.Envelope? && h.body.message == SignatureMismatch && !h.body.success)
  {
  }
}
