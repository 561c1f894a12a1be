/**
 * `ClientService`: a vendor's clients (create, update, soft delete), the
 * invoice counts of one client, and the client list with its item totals.
 */
module ClientService {
  import opened Wrappers
  import opened Responses
  import opened Store
  import Paginate
  import InvoiceService

  // ---------------------------------------------------------------- the client table

  /** The email filter of `createClient`: the body's email, or none when the body has no `email`. */
  function BodyEmail(profile: Profile, withEmail: bool): Option<string> {
    if withEmail then Some(profile.email) else None
  }

  /**
   * An email already used by one of the vendor's clients, soft-deleted ones
   * included, is a conflict; otherwise one client is added for the vendor. A
   * body without `email` (`withEmail` false) drops the email from the filter,
   * so any client of the vendor is a conflict, and with none the create
   * without the required email column fails. The new row's id is chosen by
   * the database; `id` stands for it, and one already taken makes the insert
   * fail.
   */
  method CreateClient(db: Db, vendorId: VendorId, profile: Profile, withEmail: bool, id: ClientId)
    returns (reply: Option<Ack>)
    modifies db
    ensures (exists c :: EmailMatch(old(db.clients), vendorId, BodyEmail(profile, withEmail), false, c)) ==>
      reply == Some(Failure(Conflict, ClientExists)) && db.Snapshot() == old(db.Snapshot())
    ensures !(exists c :: EmailMatch(old(db.clients), vendorId, BodyEmail(profile, withEmail), false, c))
            && (id in old(db.clients) || !withEmail) ==>
      reply.None? && db.Snapshot() == old(db.Snapshot())
    ensures !(exists c :: EmailMatch(old(db.clients), vendorId, BodyEmail(profile, withEmail), false, c))
            && id !in old(db.clients) && withEmail ==>
      && reply == Some(Success(ClientCreated, None))
      && db.Snapshot() == old(db.Snapshot()).(clients := old(db.clients)[id := Client(vendorId, profile, false)])
    ensures !withEmail ==>
      (reply == Some(Failure(Conflict, ClientExists)) <==> exists c :: c in old(db.clients) && old(db.clients)[c].vendorId == vendorId)
  {
    var existing := FindClientByEmail(db.clients, vendorId, BodyEmail(profile, withEmail), false);
    if existing.Some? {
      return Some(Failure(Conflict, ClientExists));
    }
    assert forall c :: c in db.clients && db.clients[c].vendorId == vendorId ==>
      EmailMatch(db.clients, vendorId, BodyEmail(profile, withEmail), false, c) || withEmail;
    if id in db.clients || !withEmail {
      return None;
    }
    db.clients := db.clients[id := Client(vendorId, profile, false)];
    return Some(Success(ClientCreated, None));
  }

  /** The fields of an update request; a missing field is left as it is. */
  datatype ProfilePatch = ProfilePatch(
    fullname: Option<string>,
    email: Option<string>,
    phone: Option<string>,
    companyName: Option<string>,
    billingAddress: Option<string>,
    clientType: Option<string>)

  /** The spread of the request body into the update. */
  function ApplyProfilePatch(p: Profile, patch: ProfilePatch): (r: Profile)
    ensures patch.fullname.Some? ==> r.fullname == patch.fullname.value
    ensures patch.fullname.None? ==> r.fullname == p.fullname
    ensures patch.email.Some? ==> r.email == patch.email.value
    ensures patch.email.None? ==> r.email == p.email
  {
    Profile(patch.fullname.GetOr(p.fullname), patch.email.GetOr(p.email), patch.phone.GetOr(p.phone),
            patch.companyName.GetOr(p.companyName), patch.billingAddress.GetOr(p.billingAddress),
            patch.clientType.GetOr(p.clientType))
  }

  /** Updating twice with the same fields is updating once; an empty update changes nothing. */
  lemma ProfilePatchIdempotent(p: Profile, patch: ProfilePatch)
    ensures ApplyProfilePatch(ApplyProfilePatch(p, patch), patch) == ApplyProfilePatch(p, patch)
    ensures ApplyProfilePatch(p, ProfilePatch(None, None, None, None, None, None)) == p
  {
  }

  /** Only the vendor's live client can be updated; the update changes only its profile. */
  method UpdateClient(db: Db, vendorId: VendorId, id: ClientId, patch: ProfilePatch) returns (reply: Ack)
    modifies db
    ensures !LiveClient(old(db.clients), vendorId, id) ==>
      reply == Failure(NotFound, ClientNotFound) && db.Snapshot() == old(db.Snapshot())
    ensures LiveClient(old(db.clients), vendorId, id) ==>
      && reply == Success(ClientUpdated, None)
      && db.Snapshot() == old(db.Snapshot()).(clients := old(db.clients)[id :=
           old(db.clients)[id].(profile := ApplyProfilePatch(old(db.clients)[id].profile, patch))])
  {
    if !LiveClient(db.clients, vendorId, id) {
      return Failure(NotFound, ClientNotFound);
    }
    var c := db.clients[id];
    db.clients := db.clients[id := c.(profile := ApplyProfilePatch(c.profile, patch))];
    return Success(ClientUpdated, None);
  }

  /** Only the vendor's live client can be deleted, and deleting only marks it deleted. */
  method DeleteClient(db: Db, vendorId: VendorId, id: ClientId) returns (reply: Ack)
    modifies db
    ensures !LiveClient(old(db.clients), vendorId, id) ==>
      reply == Failure(NotFound, ClientNotFound) && db.Snapshot() == old(db.Snapshot())
    ensures LiveClient(old(db.clients), vendorId, id) ==>
      && reply == Success(ClientDeleted, None)
      && db.Snapshot() == old(db.Snapshot()).(clients := old(db.clients)[id := old(db.clients)[id].(isDeleted := true)])
  {
    if !LiveClient(db.clients, vendorId, id) {
      return Failure(NotFound, ClientNotFound);
    }
    db.clients := db.clients[id := db.clients[id].(isDeleted := true)];
    return Success(ClientDeleted, None);
  }

  /** A client deleted once cannot be deleted again, and its row is still there. */
  method DeleteClientTwice(db: Db, vendorId: VendorId, id: ClientId) returns (first: Ack, second: Ack)
    requires LiveClient(db.clients, vendorId, id)
    modifies db
    ensures first == Success(ClientDeleted, None) && second == Failure(NotFound, ClientNotFound)
    ensures id in db.clients && db.clients[id] == old(db.clients)[id].(isDeleted := true)
  {
    first := DeleteClient(db, vendorId, id);
    second := DeleteClient(db, vendorId, id);
  }

  /** Soft deletion keeps the client in the vendor's client count. */
  lemma {:induction false} SoftDeleteKeepsCount(clients: map<ClientId, Client>, vendorId: VendorId, id: ClientId)
    requires id in clients
    ensures VendorClientCount(clients[id := clients[id].(isDeleted := true)], vendorId) == VendorClientCount(clients, vendorId)
  {
    assert VendorClients(clients[id := clients[id].(isDeleted := true)], vendorId) == VendorClients(clients, vendorId);
  }

  // ---------------------------------------------------------------- one client

  /** The invoices related to a client: every invoice carrying its id, deleted ones included. */
  function ClientInvoices(invoices: map<InvoiceId, Invoice>, clientId: ClientId): (m: map<InvoiceId, Invoice>)
    ensures forall i :: i in m <==> i in invoices && invoices[i].clientId == clientId
    ensures forall i :: i in m ==> m[i] == invoices[i]
  {
    map i | i in invoices && invoices[i].clientId == clientId :: invoices[i]
  }

  /** The number of invoices whose status, as stored, is the given string. */
  function CountNamed(invoices: map<InvoiceId, Invoice>, name: string): nat {
    |set i | i in invoices && StatusName(invoices[i].status) == name|
  }

  /** Counting a status by its stored name counts the invoices with that status. */
  lemma {:induction false} CountNamedIsStatusCount(invoices: map<InvoiceId, Invoice>, st: InvoiceStatus)
    ensures CountNamed(invoices, StatusName(st)) == |InvoiceService.WithStatus(invoices, st)|
  {
    forall i | i in invoices
      ensures StatusName(invoices[i].status) == StatusName(st) <==> invoices[i].status == st
    {
      if StatusName(invoices[i].status) == StatusName(st) {
        match invoices[i].status
        case Draft => assert StatusName(st)[0] == 'D';
        case Sent => assert StatusName(st)[0] == 'S';
        case Paid => assert StatusName(st)[0] == 'P';
        case Overdue => assert StatusName(st)[0] == 'O';
      }
    }
    assert (set i | i in invoices && StatusName(invoices[i].status) == StatusName(st))
        == InvoiceService.WithStatus(invoices, st);
  }

  datatype ClientDetails = ClientDetails(
    id: ClientId,
    profile: Profile,
    invoices: map<InvoiceId, Invoice>,
    totalIssuedInvoices: nat,
    totalPaidInvoices: nat,
    totalPendingInvoices: nat,
    totalOverdueInvoices: nat)

  /** The client's profile and counts; `pendingName` is the stored status string counted as pending. */
  function Details(s: State, clientId: ClientId, pendingName: string): ClientDetails
    requires clientId in s.clients
  {
    var inv := ClientInvoices(s.invoices, clientId);
    ClientDetails(clientId, s.clients[clientId].profile, inv, |inv|, CountNamed(inv, "PAID"),
                  CountNamed(inv, pendingName), CountNamed(inv, "OVERDUE"))
  }

  /**
   * `getClient`: any client of the vendor, soft-deleted ones included, with
   * its invoice counts; pending invoices are those stored as `UNPAID`.
   */
  function GetClient(s: State, vendorId: VendorId, clientId: ClientId): (r: Reply<ClientDetails>)
    ensures r.Failure? <==> !(clientId in s.clients && s.clients[clientId].vendorId == vendorId)
    ensures r.Failure? ==> r == Failure(NotFound, ClientNotFound)
    ensures r.Success? ==>
      && r.message == ClientFetched && r.data.Some? && r.data.value.id == clientId
      && r.data.value.profile == s.clients[clientId].profile
      && r.data.value.invoices == ClientInvoices(s.invoices, clientId)
      && r.data.value.totalIssuedInvoices == |ClientInvoices(s.invoices, clientId)|
  {
    if clientId in s.clients && s.clients[clientId].vendorId == vendorId
    then Success(ClientFetched, Some(Details(s, clientId, "UNPAID")))
    else Failure(NotFound, ClientNotFound)
  }

  /**
   * The paid and overdue counts are the numbers of the client's invoices with
   * status PAID and OVERDUE, as written and corrected; corrected, the pending
   * count is the number with status SENT.
   */
  lemma {:induction false} GetClientCountsStatuses(s: State, vendorId: VendorId, clientId: ClientId)
    requires GetClient(s, vendorId, clientId).Success?
    ensures var inv := ClientInvoices(s.invoices, clientId);
      var d := GetClient(s, vendorId, clientId).data.value;
      var e := GetClientCorrected(s, vendorId, clientId).data.value;
      && d.totalPaidInvoices == e.totalPaidInvoices == |InvoiceService.WithStatus(inv, Paid)|
      && d.totalOverdueInvoices == e.totalOverdueInvoices == |InvoiceService.WithStatus(inv, Overdue)|
      && e.totalPendingInvoices == |InvoiceService.WithStatus(inv, Sent)|
  {
    var inv := ClientInvoices(s.invoices, clientId);
    CountNamedIsStatusCount(inv, Paid);
    CountNamedIsStatusCount(inv, Overdue);
    CountNamedIsStatusCount(inv, Sent);
  }

  /** As written, no invoice is ever counted as pending: no status is stored as `UNPAID`. */
  lemma {:induction false} PendingAlwaysZero(s: State, vendorId: VendorId, clientId: ClientId)
    requires GetClient(s, vendorId, clientId).Success?
    ensures GetClient(s, vendorId, clientId).data.value.totalPendingInvoices == 0
  {
    var inv := ClientInvoices(s.invoices, clientId);
    forall i | i in inv ensures StatusName(inv[i].status) != "UNPAID" {
      assert StatusName(inv[i].status)[0] != 'U';
    }
    assert (set i | i in inv && StatusName(inv[i].status) == "UNPAID") == {};
  }

  /** A SENT invoice of the client goes uncounted as pending by the code as written. */
  lemma SentInvoiceNotPending(s: State, vendorId: VendorId, clientId: ClientId, i: InvoiceId)
    requires clientId in s.clients && s.clients[clientId].vendorId == vendorId
    requires i in s.invoices && s.invoices[i].clientId == clientId && s.invoices[i].status == Sent
    ensures GetClient(s, vendorId, clientId).data.value.totalPendingInvoices == 0
    ensures GetClientCorrected(s, vendorId, clientId).data.value.totalPendingInvoices > 0
  {
    PendingAlwaysZero(s, vendorId, clientId);
    var inv := ClientInvoices(s.invoices, clientId);
    CountNamedIsStatusCount(inv, Sent);
    assert i in InvoiceService.WithStatus(inv, Sent);
  }

  /** `getClient` with pending invoices read as the SENT status, which the statistics call pending. */
  function GetClientCorrected(s: State, vendorId: VendorId, clientId: ClientId): (r: Reply<ClientDetails>)
    ensures r.Failure? <==> !(clientId in s.clients && s.clients[clientId].vendorId == vendorId)
    ensures r.Failure? ==> r == Failure(NotFound, ClientNotFound)
    ensures r.Success? ==> r.data.Some? && r.data.value.id == clientId
  {
    if clientId in s.clients && s.clients[clientId].vendorId == vendorId
    then Success(ClientFetched, Some(Details(s, clientId, StatusName(Sent))))
    else Failure(NotFound, ClientNotFound)
  }

  /**
   * With pending read as SENT, the paid, pending and overdue counts together
   * with the drafts are exactly the issued invoices, so the three never exceed
   * the issued count.
   */
  lemma {:induction false} CorrectedCountsPartition(s: State, vendorId: VendorId, clientId: ClientId)
    requires GetClientCorrected(s, vendorId, clientId).Success?
    ensures var d := GetClientCorrected(s, vendorId, clientId).data.value;
      && d.totalPaidInvoices + d.totalPendingInvoices + d.totalOverdueInvoices
         + |InvoiceService.WithStatus(ClientInvoices(s.invoices, clientId), Draft)| == d.totalIssuedInvoices
      && d.totalPaidInvoices + d.totalPendingInvoices + d.totalOverdueInvoices <= d.totalIssuedInvoices
  {
    var inv := ClientInvoices(s.invoices, clientId);
    CountNamedIsStatusCount(inv, Paid);
    CountNamedIsStatusCount(inv, Sent);
    CountNamedIsStatusCount(inv, Overdue);
    InvoiceService.StatisticsCoverAll(inv);
  }

  /** As written, too, the paid, pending and overdue counts never exceed the issued count. */
  lemma {:induction false} CountsBounded(s: State, vendorId: VendorId, clientId: ClientId)
    requires GetClient(s, vendorId, clientId).Success?
    ensures var d := GetClient(s, vendorId, clientId).data.value;
      d.totalPaidInvoices + d.totalPendingInvoices + d.totalOverdueInvoices <= d.totalIssuedInvoices
  {
    PendingAlwaysZero(s, vendorId, clientId);
    CorrectedCountsPartition(s, vendorId, clientId);
  }

  // ---------------------------------------------------------------- the client list

  /** The vendor's clients, soft-deleted ones included, as `client.count` sees them. */
  function VendorClients(clients: map<ClientId, Client>, vendorId: VendorId): set<ClientId> {
    set c | c in clients && clients[c].vendorId == vendorId
  }

  function VendorClientCount(clients: map<ClientId, Client>, vendorId: VendorId): nat {
    |VendorClients(clients, vendorId)|
  }

  /** A row of `client.findMany`: the client with the item lists of its invoices. */
  datatype ClientRow = ClientRow(id: ClientId, profile: Profile, invoices: seq<seq<InvoiceItem>>)

  /** A row of the answer: the client without its invoices, with two totals. */
  datatype ClientSummary = ClientSummary(id: ClientId, profile: Profile, totalIssuedInvoices: nat, totalPurchasedItems: nat)

  /** `reduce((acc, curr) => acc + curr.invoiceItems.length, acc)`, left to right. */
  function CountItems(acc: nat, invoices: seq<seq<InvoiceItem>>): (n: nat)
    ensures n >= acc
    ensures (forall k :: 0 <= k < |invoices| ==> invoices[k] == []) ==> n == acc
    decreases |invoices|
  {
    if invoices == [] then acc else CountItems(acc + |invoices[0]|, invoices[1..])
  }

  /** All the items of all the invoices, in order. */
  function Flatten(invoices: seq<seq<InvoiceItem>>): seq<InvoiceItem>
    decreases |invoices|
  {
    if invoices == [] then [] else invoices[0] + Flatten(invoices[1..])
  }

  /** The reduce counts every item of every invoice once. */
  lemma {:induction false} CountItemsCountsAll(acc: nat, invoices: seq<seq<InvoiceItem>>)
    ensures CountItems(acc, invoices) == acc + |Flatten(invoices)|
    decreases |invoices|
  {
    if invoices != [] {
      CountItemsCountsAll(acc + |invoices[0]|, invoices[1..]);
    }
  }

  function Summarize(row: ClientRow): (r: ClientSummary)
    ensures r.id == row.id && r.profile == row.profile
    ensures r.totalIssuedInvoices == |row.invoices| && r.totalPurchasedItems == |Flatten(row.invoices)|
  {
    CountItemsCountsAll(0, row.invoices);
    ClientSummary(row.id, row.profile, |row.invoices|, CountItems(0, row.invoices))
  }

  /**
   * `getAllClients`: the rows the query returned, summarized and paged
   * against the count of all the vendor's clients, soft-deleted ones included.
   */
  function GetAllClients(s: State, vendorId: VendorId, pageNumber: Option<int>, pageSize: Option<int>,
                         rows: seq<ClientRow>): (r: Reply<Paginate.PageResult<ClientSummary>>)
    requires pageSize != Some(0)
    ensures r.Failure? ==> r == Failure(NotFound, NoResourceFound)
    ensures r.Success? ==>
      && r.message == ClientFetched && r.data.Some? && r.data.value.Page?
      && r.data.value.totalCount == VendorClientCount(s.clients, vendorId)
      && |r.data.value.result| == |rows|
      && forall k :: 0 <= k < |rows| ==> r.data.value.result[k] == Summarize(rows[k])
    ensures var total := VendorClientCount(s.clients, vendorId);
      var w := Paginate.QueryWindow(pageNumber, pageSize, total);
      r.Success? <==> Paginate.Served(w.currentPage, w.limit, !w.hasNext, total)
  {
    var total := VendorClientCount(s.clients, vendorId);
    var w := Paginate.QueryWindow(pageNumber, pageSize, total);
    var data := seq(|rows|, k requires 0 <= k < |rows| => Summarize(rows[k]));
    Paginate.ServedExactly(data, w.currentPage, w.limit, !w.hasNext, total);
    var result := Paginate.Paginate(data, w.currentPage, w.limit, !w.hasNext, total);
    if result.NotFound? then Failure(NotFound, NoResourceFound) else Success(ClientFetched, Some(result))
  }

  /** The first page of a vendor's clients is served whenever the vendor has any client. */
  lemma FirstPageServed(s: State, vendorId: VendorId, rows: seq<ClientRow>)
    requires VendorClientCount(s.clients, vendorId) > 0
    ensures GetAllClients(s, vendorId, None, None, rows).Success?
  {
    var total := VendorClientCount(s.clients, vendorId);
    Paginate.PageCountIsLeast(total, 20);
  }
}
