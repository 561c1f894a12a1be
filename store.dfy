/**
 * The database tables the services read and write, as Prisma rows, and the
 * database itself as a class whose fields are the tables.
 *
 * Row ids: transactions and log entries are appended, so their id is their
 * position; vendors, wallets (one per vendor, keyed by vendorId), invoices and
 * clients are keyed maps. Amounts are integers in minor units; times are
 * milliseconds since the epoch.
 */
module Store {
  import opened Wrappers
  import opened Responses

  type VendorId = string
  type ClientId = string
  type InvoiceId = string

  datatype TxKind = Credit | Debit
  datatype TxStatus = Pending | Completed | Failed
  datatype InvoiceStatus = Draft | Sent | Paid | Overdue

  /** The enum value as stored; a status string compares against these names. */
  function StatusName(st: InvoiceStatus): (name: string)
    ensures name in {"DRAFT", "SENT", "PAID", "OVERDUE"}
  {
    match st
    case Draft => "DRAFT"
    case Sent => "SENT"
    case Paid => "PAID"
    case Overdue => "OVERDUE"
  }

  datatype Wallet = Wallet(balance: int, totalCredit: int, totalWithdrawal: int)

  datatype Transaction = Transaction(
    referenceId: string,
    vendorId: VendorId,
    amount: int,
    kind: TxKind,
    status: TxStatus,
    note: Option<string>,
    transacterName: Option<string>,
    transacterEmail: Option<string>)

  datatype Invoice = Invoice(
    invoiceNo: string,
    description: Option<string>,
    totalAmount: int,
    dueDate: int,
    createdAt: int,
    status: InvoiceStatus,
    vendorId: VendorId,
    clientId: ClientId,
    isDeleted: bool)

  datatype InvoiceItem = InvoiceItem(invoiceId: InvoiceId, clientId: ClientId, item: string, quantity: int, unitPrice: int)

  /** The client fields a vendor supplies. */
  datatype Profile = Profile(
    fullname: string,
    email: string,
    phone: string,
    companyName: string,
    billingAddress: string,
    clientType: string)

  datatype Client = Client(vendorId: VendorId, profile: Profile, isDeleted: bool)

  datatype Vendor = Vendor(email: string, businessName: string, passwordHash: string, transactionPin: Option<string>)

  datatype LogAction = WithdrawalAction | PaymentAction

  datatype LogEntry = LogEntry(action: LogAction, message: Message, vendorId: VendorId)

  /** The whole database as a value. */
  datatype State = State(
    vendors: map<VendorId, Vendor>,
    wallets: map<VendorId, Wallet>,
    transactions: seq<Transaction>,
    invoices: map<InvoiceId, Invoice>,
    invoiceItems: seq<InvoiceItem>,
    clients: map<ClientId, Client>,
    activityLog: seq<LogEntry>)

  /**
   * Facts about the database schema that the services depend on but that are
   * not part of this model: the column defaults of a new wallet row, and
   * whether `reference_id` carries a unique constraint.
   */
  datatype Schema = Schema(walletDefaults: Wallet, uniqueReference: bool)

  /**
   * The `client.findFirst` filter on an email: a client of the vendor with
   * that email, and when `liveOnly` holds one that is not soft-deleted. A
   * request body without the email leaves `email: undefined`, which Prisma
   * drops from the filter, so `None` matches every client of the vendor.
   */
  predicate EmailMatch(clients: map<ClientId, Client>, vendorId: VendorId, email: Option<string>, liveOnly: bool, c: ClientId) {
    c in clients && clients[c].vendorId == vendorId && (email.Some? ==> clients[c].profile.email == email.value)
    && (liveOnly ==> !clients[c].isDeleted)
  }

  /** `findFirst({where: {id, vendorId, isDeleted: false}})` finds the client. */
  predicate LiveClient(clients: map<ClientId, Client>, vendorId: VendorId, id: ClientId) {
    id in clients && clients[id].vendorId == vendorId && !clients[id].isDeleted
  }

  /** `client.findFirst` by vendor and email: some matching client, or none when no client matches. */
  method FindClientByEmail(clients: map<ClientId, Client>, vendorId: VendorId, email: Option<string>, liveOnly: bool)
    returns (found: Option<ClientId>)
    ensures found.Some? ==> EmailMatch(clients, vendorId, email, liveOnly, found.value)
    ensures found.None? ==> forall c :: !EmailMatch(clients, vendorId, email, liveOnly, c)
  {
    var unseen := clients.Keys;
    while unseen != {}
      invariant unseen <= clients.Keys
      invariant forall c :: EmailMatch(clients, vendorId, email, liveOnly, c) ==> c in unseen
      decreases unseen
    {
      var c :| c in unseen;
      if clients[c].vendorId == vendorId && (email.Some? ==> clients[c].profile.email == email.value) && (liveOnly ==> !clients[c].isDeleted) {
        return Some(c);
      }
      unseen := unseen - {c};
    }
    return None;
  }

  /** The database the services run against, one field per table. */
  class Db {
    const schema: Schema
    var vendors: map<VendorId, Vendor>
    var wallets: map<VendorId, Wallet>
    var transactions: seq<Transaction>
    var invoices: map<InvoiceId, Invoice>
    var invoiceItems: seq<InvoiceItem>
    var clients: map<ClientId, Client>
    var activityLog: seq<LogEntry>

    constructor (schema: Schema, s: State)
      ensures this.schema == schema && Snapshot() == s
    {
      this.schema := schema;
      vendors := s.vendors;
      wallets := s.wallets;
      transactions := s.transactions;
      invoices := s.invoices;
      invoiceItems := s.invoiceItems;
      clients := s.clients;
      activityLog := s.activityLog;
    }

    /** The tables as one value. */
    ghost function Snapshot(): State
      reads this
    {
      State(vendors, wallets, transactions, invoices, invoiceItems, clients, activityLog)
    }
  }
}
