# Invoicing and wallet back end, modelled in Dafny

This project models the core of a Fastify + Prisma invoicing service. Vendors
issue invoices to their clients. Clients pay by card through the payment
gateway, and the gateway reports each payment with a signed webhook. Vendors
hold a wallet that card payments credit and bank withdrawals debit.

It covers these parts of the system:

- **the wallet ledger** (`WalletLedger`, `WalletService`):
  - wallet creation;
  - the transaction PIN;
  - withdrawals to a bank account;
  - the webhook, which dispatches either to the payment logic (it credits the
    wallet and marks the invoice paid) or to the transfer confirmation (it
    completes or fails the pending withdrawal);
  - the transaction history pages;
- **the invoice table** (`InvoiceService`):
  - invoice numbers;
  - create, update, send, mark paid and delete;
  - the status statistics;
  - the invoice search;
- **the client table** (`ClientService`):
  - create, update and soft delete;
  - the invoice counts of one client;
  - the client list with its item totals;
- **the shared utilities**:
  - `paginate` (`Paginate`);
  - the authentication middleware (`AuthMiddleware`);
  - `handleDBError` (`ErrorHandler`);
  - the response handler, which turns a service's reply object into the HTTP
    answer (`ResponseHandler`).

## How the model is built

The database is the class `Store.Db`, with one field per table.
`Db.Snapshot()` gives the whole database as a `Store.State` value.

**Wallet ledger.** Every ledger operation is a function from a `State` to the
next state and the reply (`WalletLedger`). The service methods in
`WalletService` change the `Db` fields step by step. Each method's `ensures`
ties the new tables and the reply to the ledger function of the same name. The
properties are lemmas about those functions.

**Invoice and client tables.** Operations that change the tables are methods
on `Db`. Their contracts state the whole new state and the reply for each
branch. Queries and counts are pure functions.

**Replies.** A service's reply object is a `Responses.Reply`. `None` stands
for `undefined`: a `catch` block that falls off its end, or a normal path that
returns nothing. `ResponseHandler` turns `undefined` into a 500 answer.

**Transactions.** A throwing `prisma.$transaction` block rolls back. Its ledger
function returns the state it was given together with `Threw`.

**Things outside the model become parameters:**

- the gateway's answers (`TransferAnswer`, `Verification`);
- bcrypt comparison (`matches`, `compare`);
- JWT verification (`verify`);
- the clock (`nowMs`);
- the configured webhook secret;
- the ids the database chooses for new rows;
- the rows returned by `findMany`.

Two facts about the database schema are not visible in the modelled files,
so they are the parameter `Schema`:

- the column defaults of a new wallet row;
- whether `reference_id` is unique.

A third schema fact is fixed rather than a parameter: `invoiceNo` is taken as
not unique. The model always inserts a new invoice, even when another row
carries the same number, for example two vendors with the same three-letter
prefix creating invoices in the same second. With a unique column that insert
would fail with P2002, and the caught error would make the reply `undefined`.

**Where the documentation and the code disagree, the model follows the code:**

- `withdrawToBank` does not check the transaction PIN (src/Services/Wallet/wallet.service.ts:314-411). It checks only the password.
- A replayed webhook is not idempotent.
  - A completing transfer debits again (`WalletLedger.ReplayedTransferDebitsTwice`).
  - A card payment credits again (`WalletLedger.ReplayedPaymentCreditsAgain`).
- Error objects built in a `catch` block are mostly discarded (the `new InternalServerError()` is not returned), so most caught errors give `undefined`, and so a 500 answer. Two `catch` blocks do return their error: `withdrawToBank` (src/Services/Wallet/wallet.service.ts:405-409) and `authenticate` (src/middleware/auth.middleware.ts:41-44) both reply InternalServerError.

## Model

| member | source | states |
|---|---|---|
| WalletLedger.TransactionReference | src/Services/Wallet/wallet.service.ts:51-55 | The reference is `FLW-TRE-` followed by decimal digits that read back as the clock value. |
| WalletLedger.ReferencesDistinct | src/Services/Wallet/wallet.service.ts:51-55 | References made at different milliseconds differ. |
| WalletLedger.InvoiceIdOf | src/Services/Wallet/wallet.service.ts:498 | The invoice id is the tx_ref with at most one `FLW-TRE-` removed; a tx_ref that starts with the prefix gives what follows it. |
| WalletLedger.InvoiceIdOfPrefixed | src/Services/Wallet/wallet.service.ts:498 | Removing the first `FLW-TRE-` from the prefix plus an invoice id gives back that invoice id. |
| WalletLedger.FindReference | src/Services/Wallet/wallet.service.ts:415-425 | The lookup by reference returns the first row carrying the reference, or none when no row carries it. |
| WalletLedger.FindReferenceAfterUpdate | src/Services/Wallet/wallet.service.ts:428-482 | Updating a transaction in place, with its reference kept, changes no lookup by reference. |
| WalletLedger.FindReferenceAfterAppend | src/Services/Wallet/wallet.service.ts:376-404 | After a row is appended, an earlier match still wins; otherwise the new row is found exactly when it carries the reference. |
| WalletLedger.CreditWallet | src/Services/Wallet/wallet.service.ts:548-556 | Crediting adds the amount to the balance and to totalCredit, keeps totalWithdrawal, and leaves every other wallet alone. |
| WalletLedger.DebitWallet | src/Services/Wallet/wallet.service.ts:442-450 | Debiting takes the amount off the balance, adds it to totalWithdrawal, keeps totalCredit, and leaves every other wallet alone. |
| WalletLedger.EnsureWallet | src/Services/Wallet/wallet.service.ts:328-339 | A missing wallet row is created with the column defaults; an existing one is kept. |
| WalletLedger.CreateUserWallet | src/Services/Wallet/wallet.service.ts:57-84 | A vendor with a wallet gets WALLET_EXISTS and nothing changes. Otherwise one wallet with balance 0 is added, and no other table or wallet changes. |
| WalletService.CreateUserWallet | src/Services/Wallet/wallet.service.ts:57-84 | The database afterwards, and the reply, are those of the ledger function. |
| WalletLedger.WithdrawToBank | src/Services/Wallet/wallet.service.ts:314-411 | `undefined` is given only after the transfer is sent, for an answer that is neither `error` nor an accepted success; PROCESSING_TRANSACTION also needs the transfer sent; at most one transaction is written. |
| WalletLedger.WithdrawChecksPrecedeTransfer | src/Services/Wallet/wallet.service.ts:318-374 | The transfer is sent exactly when the vendor exists, the password matches and 100 ≤ amount ≤ balance; it carries the new reference. Each failed check gives its own reply, with MINIMUM_WITHDRAWAL naming 100, and writes no transaction. |
| WalletLedger.WithdrawKeepsWallets | src/Services/Wallet/wallet.service.ts:328-339 | No existing wallet changes. Past the password check, the vendor's wallet exists afterwards. Invoices, clients and vendors are untouched. |
| WalletLedger.WithdrawRecordsPendingDebit | src/Services/Wallet/wallet.service.ts:372-404 | An accepted transfer (success with SUCCESSFUL or NEW) appends exactly one PENDING debit and one log entry, and leaves the balance unchanged. |
| WalletLedger.WithdrawAnswerDecidesReply | src/Services/Wallet/wallet.service.ts:372-409 | Once the checks pass: a throw, an `error` status or a duplicate unique reference gives InternalServerError and writes no transaction; PROCESSING_TRANSACTION is given exactly for success with SUCCESSFUL or NEW and no duplicate; `undefined` exactly for any other answer, with no transaction written. |
| WalletService.WithdrawToBank | src/Services/Wallet/wallet.service.ts:314-411 | The database, the reply and the transfer sent are those of the ledger function. |
| WalletLedger.ConfirmTransfer | src/Services/Wallet/wallet.service.ts:413-483 | An unknown reference gives TRANSACTION_NOT_FOUND with no change, and a throw changes nothing. The number of transactions is kept, and vendors, invoices and clients are untouched. |
| WalletLedger.ConfirmTransferCompletes | src/Services/Wallet/wallet.service.ts:428-459 | A completing status makes the transaction a COMPLETED debit, debits that vendor's wallet by the payload amount and logs MONEY_WITHDRAWN. No other row changes. |
| WalletLedger.ConfirmTransferFails | src/Services/Wallet/wallet.service.ts:460-482 | FAILED or PENDING makes the transaction a FAILED debit with its reference, vendor and amount kept, and logs WITHDRAWAL_FAILED. No other transaction and no wallet changes. |
| WalletLedger.ReplayedTransferDebitsTwice | src/Services/Wallet/wallet.service.ts:413-483 | Confirming the same completing transfer twice debits the balance twice and logs twice. |
| WalletService.ConfirmTransfer | src/Services/Wallet/wallet.service.ts:413-483 | The database and the outcome are those of the ledger function. |
| WalletLedger.CreditExisting | src/Services/Wallet/wallet.service.ts:512-580 | A missing invoice gives INVOICE_NOT_FOUND and a transaction of another vendor writes nothing. For the issuer's own transaction the block throws, and rolls back, exactly when the client or the wallet is missing. Otherwise that transaction becomes a COMPLETED credit naming the client, the issuer's balance and totalCredit rise by the amount, the invoice alone becomes PAID, one PAYMENT entry is logged, and no other transaction, wallet, vendor or client changes. |
| WalletLedger.CreditExistingSkipsOtherVendor | src/Services/Wallet/wallet.service.ts:532-533 | When the transaction's vendor is not the invoice's issuer, the block returns and writes nothing. |
| WalletService.CreditExisting | src/Services/Wallet/wallet.service.ts:512-580 | The database and the outcome are those of the ledger function. |
| WalletLedger.CreditInvoice | src/Services/Wallet/wallet.service.ts:583-655 | A missing invoice gives INVOICE_NOT_FOUND with no change. The block throws, and rolls back, exactly when the client is missing or the reference is a duplicate under a unique column. Otherwise one COMPLETED credit naming the client is appended, the issuer's wallet (created with the defaults if absent) gains the amount in balance and totalCredit, the invoice alone becomes PAID, one PAYMENT entry is logged, and no other wallet, vendor or client changes. |
| WalletService.CreditInvoice | src/Services/Wallet/wallet.service.ts:583-655 | The database and the outcome are those of the ledger function. |
| WalletLedger.ProcessPayments | src/Services/Wallet/wallet.service.ts:485-657 | Without a gateway confirmation of status `successful`, the same amount and the same tx_ref, nothing changes. A verification that throws makes the call throw. |
| WalletLedger.FreshPaymentCreditsOnce | src/Services/Wallet/wallet.service.ts:583-655 | A first payment adds one COMPLETED credit naming the client and credits the issuer's wallet once, creating it if it is absent. It marks that invoice alone PAID and logs one PAYMENT entry. No other wallet, invoice, vendor or client changes, and the issuer's totalWithdrawal is kept. |
| WalletLedger.OtherVendorReferenceStillCredited | src/Services/Wallet/wallet.service.ts:530-533 | When the transaction carrying the reference belongs to another vendor, the credit block still runs: without a unique reference the issuer is credited and a second row with that reference is appended; with one, the call throws and nothing changes. |
| WalletLedger.ReplayedPaymentCreditsAgain | src/Services/Wallet/wallet.service.ts:485-657 | A second delivery credits again. With a unique reference it credits the amount once and throws; without one it credits twice the amount. |
| WalletService.ProcessPayments | src/Services/Wallet/wallet.service.ts:485-657 | The database and the outcome are those of the ledger function. |
| WalletLedger.Webhook | src/Services/Wallet/wallet.service.ts:197-233 | A refused signature gives SIGNATURE_MISMATCH with no change, and this is the only way to get that reply. Past the gate the reply is `undefined`. Other event types change nothing. |
| WalletLedger.WebhookDispatch | src/Services/Wallet/wallet.service.ts:217-226 | A card event runs exactly the payment logic, and a Transfer event exactly the transfer confirmation. A Transfer event without a transfer object, or a card event without card fields, changes nothing. |
| WalletLedger.SignatureValid | src/Services/Wallet/wallet.service.ts:204-211 | A signature is accepted only when the secret is configured and non-empty; with no secret every webhook is refused. |
| WalletService.Webhook | src/Services/Wallet/wallet.service.ts:197-233 | The database and the reply are those of the ledger function. |
| WalletService.AcceptedWebhookAnsweredWith500 | src/Services/Wallet/wallet.service.ts:205-233 | Every webhook that passes the signature check is answered 500 with the fixed error body. A refused one gets a failure envelope with SIGNATURE_MISMATCH. |
| WalletLedger.CreditKeepsBalanced | src/Services/Wallet/wallet.service.ts:548-556 | Crediting keeps balance = totalCredit − totalWithdrawal for every wallet. |
| WalletLedger.ConfirmTransferKeepsBalanced | src/Services/Wallet/wallet.service.ts:428-482 | Confirming a transfer keeps every wallet balanced. |
| WalletLedger.ProcessPaymentsKeepsBalanced | src/Services/Wallet/wallet.service.ts:485-657 | When new wallets start at zero, payments keep every wallet balanced. |
| WalletLedger.WebhookKeepsBalanced | src/Services/Wallet/wallet.service.ts:197-233 | When new wallets start at zero, the webhook keeps every wallet balanced. |
| WalletLedger.WithdrawKeepsBalanced | src/Services/Wallet/wallet.service.ts:314-411 | When new wallets start at zero, a withdrawal keeps every wallet balanced. |
| WalletLedger.CreateUserWalletKeepsBalanced | src/Services/Wallet/wallet.service.ts:57-84 | When new wallets start at zero, wallet creation keeps every wallet balanced. |
| WalletLedger.BalancedNeedsZeroDefaults | src/Services/Wallet/wallet.service.ts:72-77 | With a non-zero totalCredit default, a created wallet is not balanced, so the zero-default assumption is needed. |
| WalletLedger.WithdrawThenConfirm | src/Services/Wallet/wallet.service.ts:314-483 | An accepted withdrawal followed by its completing confirmation debits the amount once and completes the new transaction. |
| WalletLedger.SetTransactionPin | src/Services/Wallet/wallet.service.ts:136-165 | A vendor with a PIN gets USER_HAS_TRANSACTION_PIN with no change. The PIN is set exactly when the vendor exists without one. On success the new state is the old one with only that vendor's PIN replaced. A missing vendor gives `undefined` with no change. |
| WalletService.SetTransactionPin | src/Services/Wallet/wallet.service.ts:136-165 | The database and the reply are those of the ledger function. |
| WalletLedger.VerifyTransactionPin | src/Services/Wallet/wallet.service.ts:167-193 | The PIN is verified exactly when one is set and it matches. NO_TRANSACTION_PIN is given exactly when none is set, and INCORRECT_TRANSACTION_PIN exactly when one is set and does not match. |
| WalletLedger.PinIsSetOnce | src/Services/Wallet/wallet.service.ts:136-165 | Once a PIN is set, a second attempt is refused and changes nothing. |
| WalletLedger.PinVerifiesAfterSet | src/Services/Wallet/wallet.service.ts:136-193 | After a PIN is set, a PIN matching its hash verifies. |
| WalletLedger.VendorTransactionCount | src/Services/Wallet/wallet.service.ts:94-98 | The count is at most the number of transactions, and it is 0 exactly when the vendor has no transaction. |
| WalletLedger.TransactionHistoryAsWritten | src/Services/Wallet/wallet.service.ts:86-134 | Any refusal is NO_RESOURCE; a success is TRANSACTION_HISTORY_FETCHED carrying a served page. |
| WalletLedger.AsWrittenRefusesEarlierPages | src/Services/Wallet/wallet.service.ts:86-134 | As written, every page before the last one is refused with NO_RESOURCE. |
| WalletLedger.AsWrittenFirstOfTwoPages | src/Services/Wallet/wallet.service.ts:121 | As written, page 1 of 40 transactions at 20 per page is refused. |
| WalletLedger.HistoryPage | src/Services/Wallet/wallet.service.ts:659-716 | A failure is NO_RESOURCE; a success carries exactly the fetched rows. |
| WalletLedger.HistoryServesEveryPage | src/Services/Wallet/wallet.service.ts:697-703 | With `!hasNext`, every page from 1 to the page count is served, and every page beyond it is refused. |
| Paginate.CeilDiv | src/utils/paginate.ts:25 | The quotient rounded up: b(q−1) < a ≤ bq for b > 0, and the mirror image for b < 0. |
| Paginate.Paginate | src/utils/paginate.ts:4-85 | A negative page gives NO_NEGATIVE_PAGE_VALUE, and any other refusal is NO_RESOURCE. A page keeps the data, its length, the total and the page count. A page has next or previous links exactly when it has no last link. |
| Paginate.ServedExactly | src/utils/paginate.ts:28-80 | A page is served exactly when it is non-negative and either it is the page count (last-page flag) or it is page 1, ends before the total, or starts past 0. |
| Paginate.EveryEarlierPageServed | src/utils/paginate.ts:28-65 | With a positive limit, every page from 1 on is served when it is not flagged as the last. |
| Paginate.FirstPageLinksNext | src/utils/paginate.ts:30-41 | Page 1, not last, links page 2 and has a range of one page. |
| Paginate.MiddlePageLinksNext | src/utils/paginate.ts:42-53 | A page ending before the total gives the whole record: the next link is page + 1, there is no previous or last link, the current page is the page asked for and the range is page × limit. |
| Paginate.TrailingPageLinksPrevious | src/utils/paginate.ts:54-65 | A page past the total with a positive start gives the whole record: the previous link is page − 1, there is no next or last link, the current page is the page asked for and the range is page × limit. |
| Paginate.LastPageLinksItself | src/utils/paginate.ts:66-77 | The last page reports the page count as its current page, links itself as last, and has the total as its range. |
| Paginate.LastPageElsewhereNotFound | src/utils/paginate.ts:66-79 | The last-page flag at any page other than the page count is refused. |
| Paginate.EmptyLastPageNotFound | src/utils/paginate.ts:66-79 | For an empty table, page 1 flagged as last is refused with NO_RESOURCE. |
| Paginate.PageCountIsLeast | src/utils/paginate.ts:25 | With a positive limit, the page count is the least count of pages that holds the total. |
| Paginate.QueryWindow | src/Services/Wallet/wallet.service.ts:92-104 | It applies the defaults 1 and 20 and computes skip = limit·(page−1) and the page count. It has a next page iff page < count, and a previous page iff page > 1 and count > 1. |
| Paginate.HasNextMeansMoreRows | src/Services/Wallet/wallet.service.ts:100-104 | With a positive page size, there is a next page exactly when rows lie past the current page. |
| InvoiceService.NamePrefix | src/Services/Invoice/invoice.service.ts:28 | The prefix is the first min(3, length) characters, upper-cased. |
| InvoiceService.GenerateInvoiceNumber | src/Services/Invoice/invoice.service.ts:26-37 | It is `INV-`, then the prefix, then `-`, then the seconds in decimal, at those positions. |
| InvoiceService.InvoiceNumberParts | src/Services/Invoice/invoice.service.ts:26-37 | For a prefix without `-`, splitting on `-` gives exactly INV, the prefix and the seconds, and the seconds read back as ⌊nowMs/1000⌋. |
| Store.FindClientByEmail | src/Services/Invoice/invoice.service.ts:59-66 | It finds a client of the vendor with that email (live only, when asked), or none exactly when no client matches. Without an email, any client of the vendor matches. |
| InvoiceService.TagItems | src/Services/Invoice/invoice.service.ts:83-91 | Every created item carries the new invoice's id and the client's id, and keeps the submitted fields, one for one. |
| InvoiceService.CreateInvoice | src/Services/Invoice/invoice.service.ts:51-103 | Without a live client of the vendor with that email, the reply is CLIENT_NOT_FOUND and nothing changes. A body without `clientEmail` gets CLIENT_NOT_FOUND exactly when the vendor has no live client, and otherwise the invoice goes to one of its live clients. Otherwise a SENT invoice is added, due 7 days after creation and numbered from the vendor's name. Its items are tagged; a missing item list keeps the invoice and gives `undefined`. |
| InvoiceService.ApplyPatch | src/Services/Invoice/invoice.service.ts:243-252 | A field is replaced only when it is given; every other field is kept. |
| InvoiceService.PatchIdempotent | src/Services/Invoice/invoice.service.ts:243-252 | Applying an update twice equals applying it once, and the empty update is the identity. |
| InvoiceService.UpdateInvoice | src/Services/Invoice/invoice.service.ts:225-263 | Without the vendor's live invoice, the reply is INVOICE_NOT_FOUND and nothing changes. Otherwise only that invoice is patched. |
| InvoiceService.DeleteInvoice | src/Services/Invoice/invoice.service.ts:312-341 | Without the vendor's live invoice, the reply is INVOICE_NOT_FOUND and nothing changes. Otherwise exactly that row is removed. |
| InvoiceService.SendInvoice | src/Services/Invoice/invoice.service.ts:343-375 | Without the vendor's live invoice, the reply is INVOICE_NOT_FOUND and nothing changes. Otherwise only its status changes, to SENT. |
| InvoiceService.MarkInvoiceAsPaid | src/Services/Invoice/invoice.service.ts:377-408 | Any invoice of the vendor, soft-deleted ones included, has its status set to PAID. Any other invoice is INVOICE_NOT_FOUND. |
| InvoiceService.WithStatus | src/Services/Invoice/invoice.service.ts:269-291 | It holds exactly the ids of the invoices with that status. |
| InvoiceService.GetInvoiceStatistics | src/Services/Invoice/invoice.service.ts:265-310 | The reply is INVOICE_STATISTICS with, for DRAFT, SENT, PAID and OVERDUE, the number of invoices in the table with that status; the four add up to the table's size. |
| InvoiceService.StatisticsCoverAll | src/Services/Invoice/invoice.service.ts:265-310 | The four status counts add up to the number of invoices in the table. |
| InvoiceService.StatisticsCountEveryVendor | src/Services/Invoice/invoice.service.ts:269-291 | A new invoice of any vendor raises its status's count by one, because there is no vendor filter. |
| InvoiceService.SearchCount | src/Services/Invoice/invoice.service.ts:496-517 | The number of matching invoices is at most the number of invoices. |
| InvoiceService.EmptySearchMatchesAll | src/Services/Invoice/invoice.service.ts:496-517 | An empty search string counts every live invoice of the vendor, as a missing one does. |
| InvoiceService.SearchIgnoresCase | src/Services/Invoice/invoice.service.ts:496-571 | Upper-casing the search string does not change what matches. |
| InvoiceService.FindInvoice | src/Services/Invoice/invoice.service.ts:485-592 | A missing or empty search succeeds with an empty page over all the vendor's live invoices. Otherwise the request is served exactly when paginate serves its page over the match count with `!hasNext` as the last-page flag; a success carries the fetched rows over that count, and a failure is NO_RESOURCE_FOUND. |
| InvoiceService.MatchedSearchFirstPageServed | src/Services/Invoice/invoice.service.ts:530-581 | A search with at least one match is served on the default first page. |
| InvoiceService.EmptySearchWrapsNotFound | src/Services/Invoice/invoice.service.ts:522-529 | With no invoices, an empty search succeeds and carries the paginate refusal as its data. |
| ClientService.CreateClient | src/Services/Client/client.service.ts:22-52 | An email used by any client of the vendor, deleted ones included, gives CLIENT_EXISTS with no change. Otherwise exactly one live client of the vendor is added. A body without `email` gets CLIENT_EXISTS exactly when the vendor has any client, and otherwise `undefined` with no change. |
| ClientService.ApplyProfilePatch | src/Services/Client/client.service.ts:201-208 | A given field replaces the stored one, and a missing field keeps it. |
| ClientService.ProfilePatchIdempotent | src/Services/Client/client.service.ts:201-208 | Applying an update twice equals applying it once, and the empty update is the identity. |
| ClientService.UpdateClient | src/Services/Client/client.service.ts:186-215 | Without the vendor's live client, the reply is CLIENT_NOT_FOUND and nothing changes. Otherwise only that client's profile changes. |
| ClientService.DeleteClient | src/Services/Client/client.service.ts:217-245 | Without the vendor's live client, the reply is CLIENT_NOT_FOUND and nothing changes. Otherwise only its isDeleted becomes true. |
| ClientService.DeleteClientTwice | src/Services/Client/client.service.ts:223-238 | The first delete succeeds and the second gives CLIENT_NOT_FOUND; the row stays, marked deleted. |
| ClientService.SoftDeleteKeepsCount | src/Services/Client/client.service.ts:126-128 | A soft-deleted client still counts toward the vendor's client total. |
| ClientService.ClientInvoices | src/Services/Client/client.service.ts:73-82 | The client's invoices are exactly those carrying its id. |
| ClientService.CountNamedIsStatusCount | src/Services/Client/client.service.ts:87-95 | Counting by a status's stored name counts exactly the invoices with that status. |
| ClientService.GetClient | src/Services/Client/client.service.ts:54-113 | Without a client of the vendor, deleted ones included, the reply is CLIENT_NOT_FOUND. Otherwise CLIENT_FETCHED with its profile, its invoices and their number. |
| ClientService.GetClientCountsStatuses | src/Services/Client/client.service.ts:84-95 | The paid and overdue counts are the numbers of the client's invoices with status PAID and OVERDUE, as written and corrected; corrected, pending is the number with status SENT. |
| ClientService.PendingAlwaysZero | src/Services/Client/client.service.ts:90-92 | As written, the pending count is always 0. |
| ClientService.SentInvoiceNotPending | src/Services/Client/client.service.ts:90-92 | A client with a SENT invoice shows 0 pending as written, and more than 0 with the correction. |
| ClientService.GetClientCorrected | src/Services/Client/client.service.ts:54-113 | It gives the same not-found condition and reply as getClient. |
| ClientService.CorrectedCountsPartition | src/Services/Client/client.service.ts:86-95 | With pending read as SENT, paid + pending + overdue + drafts equals the issued count. |
| ClientService.CountsBounded | src/Services/Client/client.service.ts:86-95 | Paid + pending + overdue never exceeds the issued count. |
| ClientService.CountItems | src/Services/Client/client.service.ts:158-163 | The fold never goes below its start value, and over invoices without items it is the start value. |
| ClientService.CountItemsCountsAll | src/Services/Client/client.service.ts:158-163 | The reduce counts every item of every invoice exactly once. |
| ClientService.Summarize | src/Services/Client/client.service.ts:156-170 | A row keeps the id and profile, drops the invoices, and carries the invoice count and the total item count. |
| ClientService.GetAllClients | src/Services/Client/client.service.ts:115-184 | The request is served exactly when paginate serves its page over the count of all the vendor's clients with `!hasNext` as the last-page flag. A success is CLIENT_FETCHED, one summary per fetched row, over that count; a failure is NO_RESOURCE_FOUND. |
| ClientService.FirstPageServed | src/Services/Client/client.service.ts:115-184 | A vendor with any client is always served the default first page. |
| AuthMiddleware.BearerToken | src/middleware/auth.middleware.ts:22-25 | A token exists exactly when part 0 of the split on spaces is `Bearer` and part 1 is non-empty; the token is part 1. |
| AuthMiddleware.Decide | src/middleware/auth.middleware.ts:14-46 | A missing or empty header gives REQUIRED_AUTHORIZATION, and this is the only source of that reply. A malformed header is thrown as INVALID_AUTHORIZATION. A vendor is authenticated exactly when the token verifies to the id of an existing vendor. A token whose verification throws gives InternalServerError, and a verified id with no vendor gives INVALID_USER, whatever the well-formed header. |
| AuthMiddleware.Request.Authenticate | src/middleware/auth.middleware.ts:14-46 | The outcome is the decision above; `user` is set to the vendor only on success. |
| AuthMiddleware.BearerAccepted | src/middleware/auth.middleware.ts:22-27 | `Bearer <token>` with a space-free token yields that token. |
| AuthMiddleware.TrailingPartsIgnored | src/middleware/auth.middleware.ts:22-27 | Text after a further space is ignored. |
| AuthMiddleware.DoubleSpaceRefused | src/middleware/auth.middleware.ts:22-25 | Two spaces after `Bearer` are refused. |
| AuthMiddleware.BareBearerRefused | src/middleware/auth.middleware.ts:22-25 | `Bearer` alone is refused. |
| AuthMiddleware.SchemeIsCaseSensitive | src/middleware/auth.middleware.ts:23 | `bearer` in lower case is refused. |
| AuthMiddleware.MissingHeaderIgnoresVerifier | src/middleware/auth.middleware.ts:17-20 | A missing header is refused without consulting the verifier. |
| AuthMiddleware.UnknownVendorRefused | src/middleware/auth.middleware.ts:30-36 | A valid token naming no vendor gives INVALID_USER. |
| ErrorHandler.HandleDBError | src/utils/errorHandler.ts:7-17 | P2002 gives RECORD_ALREADY_EXIST and P2025 gives RECORD_DOES_NOT_EXIST, each exactly. Every other error gives nothing. |
| ErrorHandler.HandledErrorsAreFailures | src/utils/errorHandler.ts:7-17 | Any reply given is an error, and a non-Prisma error gives none. |
| ResponseHandler.Handle | src/utils/responsehandler.ts:10-27 | A throw or an `undefined` result is answered with exactly 500 and the fixed error body. |
| ResponseHandler.FieldsCopied | src/utils/responsehandler.ts:13-20 | Code, message and data reach the body unchanged, and `success` is true unless it is false. |
| ResponseHandler.StatusDefaultsTo200 | src/utils/responsehandler.ts:20 | The status is the object's own, or 200 when it is missing or 0. |
| ResponseHandler.ReplyObjectAnswered | src/utils/responsehandler.ts:10-27 | A success gives success true, its data and the standard status. An error gives success false, its class's code and status. |
| ResponseHandler.Resolve | src/utils/responsehandler.ts:13 | Awaiting a service always resolves, to `undefined` exactly when the service returned nothing. |
| ResponseHandler.UndefinedIsServerError | src/utils/responsehandler.ts:13-24 | The answer is 500 exactly when the service returned nothing or its reply's class has status 500. |
| ResponseHandler.HandleHtml | src/utils/responsehandler.ts:28-45 | A resolved value is sent with 200, a throw gives 404 with the not-found page, and both are HTML. |
| ResponseHandler.HtmlSendsErrorObjectsWith200 | src/utils/responsehandler.ts:28-37 | An error reply object returned to the HTML handler still goes out with 200. |
| Responses.AsApiResponse | src/utils/response/successResponse.ts:4-16 | A success has no `success` field, code `Success` and its data. An error has `success: false` and no data. Both keep the message. |
| Store.StatusName | src/Services/Client/client.service.ts:87-95 | A stored status is one of DRAFT, SENT, PAID and OVERDUE. |
| Strings.Split | src/middleware/auth.middleware.ts:22 | `split(' ')` gives at least one part, and no part contains the separator. |
| Strings.SplitJoin | src/middleware/auth.middleware.ts:22 | Splitting parts joined by the separator gives back the parts. |
| Strings.DigitsValueOfNatToString | src/Services/Wallet/wallet.service.ts:53-54 | The decimal string of a number reads back as that number. |
| Strings.ReplaceFirstStripsPrefix | src/Services/Wallet/wallet.service.ts:498 | `replace` of a leading pattern with the empty string removes exactly it. |
| Strings.ReplaceFirstKeepsLaterOccurrence | src/Services/Wallet/wallet.service.ts:498 | `replace` removes only the first occurrence. |
| Strings.CaseDoesNotMatter | src/Services/Invoice/invoice.service.ts:501-510 | An insensitive `contains` does not depend on the case of either string. |

## Left out

- I/O, timing and concurrency are outside the model:
  - The mailer, and `generateAndSendInvoice` with `getInvoiceData`, are not modelled. Sending is not awaited, and only the invoice tables are modelled.
  - Logging (`request.log`, `console.log`) is left out, and so is the log entries' `createdAt`.
  - Concurrent requests are not modelled: every operation runs alone against the database.
- The internals of external services are left out. Each becomes a parameter:
  - the gateway (its HTTP calls, `verifyPaymentTransaction`, `getBanks`, `verifyBankAccount`);
  - bcrypt (`compare`, `hashSync`);
  - JWT verification;
  - Prisma itself.
- The row order and the `skip`/`take` of `findMany` are not modelled. The rows a query returns are a parameter; only the `count` calls are computed from the tables.
- The numbers are simplified:
  - `parseInt` of the page query is not modelled. The page number and page size arrive parsed, and a missing one is `None`.
  - Page size 0 (division by zero, giving `Infinity`/`NaN`) is excluded by `requires pageSize != Some(0)`. NaN pages and fractional page sizes are not modelled.
  - Amounts are integers; JavaScript number rounding is not modelled.
- Time is simplified:
  - The due date is creation time + 7 × 86 400 000 ms. `setDate(+7)` in local time, daylight-saving shifts included, is not modelled.
  - The millisecond gap between the two `new Date()` calls in `createInvoice` is not modelled.
- Strings are simplified:
  - Case folding is ASCII only. Unicode case mapping is not modelled.
  - Prisma's `mode: 'insensitive'` is modelled as a substring test on lower-cased strings.
- The content of request bodies is not modelled:
  - The spreads `...client`, `...item` and `...clientData` can carry any field of the body. The model takes only the declared fields, so mass assignment of other columns is not modelled.
  - A body field that is `null` rather than missing is not modelled, except for the invoice description.
- Foreign keys on invoice delete are left out. What the database does to the invoice's items and transactions, through cascades or a foreign-key error, is not part of this model.
- Lookups are simplified:
  - A transfer payload without a reference makes Prisma drop the filter. That is not modelled: the reference is always a string. A missing client email, which Prisma drops the same way, is modelled (`Store.EmailMatch` with `None`).
  - `findFirst` on a table keyed by id picks some matching row. The model picks any match, and a test by reference takes the first by position.
- ClientService.CreateClient: a body without `email` that finds no client is taken to fail, because the `email` column is taken as required. The schema is not part of this model; with an optional column the source would create a client without an email, which the model does not express.
- Some inputs are assumed present or well-formed:
  - A vendor without a business name, which makes `substring` throw, is not modelled.
  - A missing PIN in `setTransactionPin`, which makes `hashSync` throw, is taken as the PIN hash parameter.
- WalletLedger.VerifyTransactionPin: a missing PIN in `verifyTransactionPin`, which makes `compareSync` throw and the reply `undefined`, is not modelled; the PIN is always a string passed to `compare`.
- The invoice's relation to its vendor is assumed to exist.
- Not in the modelled core:
  - `getInvoice`, `getAllInvoices`, `getInvoiceData`, `sendReminderForOverdueInvoices` and `payForInvoice`;
  - the vendor and auth services;
  - the controllers and routes. The wallet routes being unregistered in index.routes.ts is not modelled.
- The column defaults of a new wallet and the uniqueness of `reference_id` are parameters (`Store.Schema`), because the schema is not part of this model.
- WalletLedger.WebhookKeepsBalanced, ProcessPaymentsKeepsBalanced, WithdrawKeepsBalanced and CreateUserWalletKeepsBalanced hold only when the wallet defaults are zero (`ZeroDefaults`), because the schema is not part of this model.
- WalletLedger.ProcessPayments: its contract covers only the gate. What each block does is stated by CreditExisting, CreditInvoice, FreshPaymentCreditsOnce, OtherVendorReferenceStillCredited and ReplayedPaymentCreditsAgain.
- The invoice status enum is taken to be exactly DRAFT, SENT, PAID and OVERDUE (`Store.InvoiceStatus`), the values the code uses. The schema is not part of this model, so the second finding rests on that reading.
- ClientService.GetClient: the invoices in the reply are whole rows, not only the six selected columns (id, issuedAt, dueDate, totalAmount, status, invoiceNo).
- ClientService.ApplyProfilePatch: its ensures names only fullname and email. The other four fields follow the same rule, and ProfilePatchIdempotent covers them all.

## Findings

| source | as written | input that shows it | evidently intended | confidence | as-written member | corrected member |
|---|---|---|---|---|---|---|
| src/Services/Wallet/wallet.service.ts:121 | `transactionHistory` passes `hasNext` as paginate's last-page flag | 40 transactions, page 1, page size 20: hasNext is true, so paginate takes page 1 as the last page and refuses it with NO_RESOURCE | pass `!hasNext`, as `getPaymentHistory` does at lines 697-703, so that every page from 1 to the page count is served | not executed | WalletLedger.AsWrittenFirstOfTwoPages | WalletLedger.HistoryServesEveryPage |
| src/Services/Client/client.service.ts:90-92 | `totalPendingInvoices` counts invoices whose status is `UNPAID`, a value the status enum does not have | a client with one SENT invoice: totalPendingInvoices is 0 | count SENT invoices, which the invoice statistics report as pending (src/Services/Invoice/invoice.service.ts:276-278) | not executed | ClientService.PendingAlwaysZero | ClientService.CorrectedCountsPartition |
