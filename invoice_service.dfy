/**
 * `InvoiceService`: invoice numbers, the vendor-scoped invoice table
 * (create, update, send, mark paid, delete), the status statistics and the
 * invoice search. The mailer is not part of this model.
 */
module InvoiceService {
  import opened Wrappers
  import opened Strings
  import opened Responses
  import opened Store
  import Paginate

  /** One day in milliseconds. */
  const DayMs := 86400000

  // ---------------------------------------------------------------- invoice numbers

  function Min(a: nat, b: nat): nat {
    if a <= b then a else b
  }

  /** The first three characters of the business name (fewer if it is shorter), upper-cased. */
  function NamePrefix(businessName: string): (p: string)
    ensures |p| == Min(3, |businessName|)
    ensures forall i :: 0 <= i < |p| ==> p[i] == UpperChar(businessName[i])
  {
    Upper(businessName[..Min(3, |businessName|)])
  }

  /** `INV-<prefix>-<seconds>`, the seconds being the clock in milliseconds divided by 1000, rounded down. */
  function GenerateInvoiceNumber(businessName: string, nowMs: nat): (no: string)
    ensures |no| == 5 + Min(3, |businessName|) + |NatToString(nowMs / 1000)|
    ensures no[..4] == "INV-" && no[4..4 + Min(3, |businessName|)] == NamePrefix(businessName)
    ensures no[4 + Min(3, |businessName|)] == '-' && no[5 + Min(3, |businessName|)..] == NatToString(nowMs / 1000)
  {
    "INV-" + NamePrefix(businessName) + "-" + NatToString(nowMs / 1000)
  }

  /**
   * For a business name without `-` in its first three characters, the number
   * splits on `-` into `INV`, the prefix and the seconds, and the seconds read
   * back as the creation time in whole seconds.
   */
  lemma {:induction false} InvoiceNumberParts(businessName: string, nowMs: nat)
    requires '-' !in businessName[..Min(3, |businessName|)]
    ensures var parts := Split(GenerateInvoiceNumber(businessName, nowMs), '-');
      && parts == ["INV", NamePrefix(businessName), NatToString(nowMs / 1000)]
      && AllDigits(parts[2]) && DigitsValue(parts[2]) == nowMs / 1000
  {
    var prefix := NamePrefix(businessName);
    var secs := NatToString(nowMs / 1000);
    UpperKeepsAbsentChar(businessName[..Min(3, |businessName|)], '-');
    assert '-' !in secs by {
      forall i | 0 <= i < |secs| ensures secs[i] != '-' {
        assert IsDigit(secs[i]);
      }
    }
    var parts := ["INV", prefix, secs];
    assert parts[1..][1..] == [secs];
    assert Join(parts[1..], '-') == prefix + "-" + secs;
    assert Join(parts, '-') == "INV-" + prefix + "-" + secs;
    SplitJoin(parts, '-');
    DigitsValueOfNatToString(nowMs / 1000);
  }

  // ---------------------------------------------------------------- the invoice table

  /** `findFirst({where: {id, vendorId, isDeleted: false}})` finds the invoice. */
  predicate LiveFor(invoices: map<InvoiceId, Invoice>, vendorId: VendorId, id: InvoiceId) {
    id in invoices && invoices[id].vendorId == vendorId && !invoices[id].isDeleted
  }

  datatype ItemInput = ItemInput(item: string, quantity: int, unitPrice: int)

  /** The body of a create request; the item list may be missing. */
  datatype InvoiceInput = InvoiceInput(description: Option<string>, totalAmount: int, items: Option<seq<ItemInput>>)

  /** The submitted items, each tagged with the new invoice's and the client's id. */
  function TagItems(items: seq<ItemInput>, invoiceId: InvoiceId, clientId: ClientId): (r: seq<InvoiceItem>)
    ensures |r| == |items|
    ensures forall i :: 0 <= i < |r| ==> r[i].invoiceId == invoiceId && r[i].clientId == clientId
    ensures forall i :: 0 <= i < |r| ==> r[i].item == items[i].item && r[i].quantity == items[i].quantity
                                          && r[i].unitPrice == items[i].unitPrice
  {
    seq(|items|, i requires 0 <= i < |items| => InvoiceItem(invoiceId, clientId, items[i].item, items[i].quantity, items[i].unitPrice))
  }

  /**
   * `createInvoice` for the authenticated vendor. The client must be one of
   * the vendor's live clients with the given email. The invoice is created
   * SENT, due seven days after its creation; then its items are inserted (a
   * missing item list throws after the invoice exists, and the caught error
   * makes the reply `undefined`). Without `clientEmail` in the body the
   * invoice goes to some live client of the vendor, whichever it is. The new row's id is chosen by the database;
   * `id` stands for it, and one already taken makes the insert fail.
   */
  method CreateInvoice(db: Db, vendorId: VendorId, vendor: Vendor, clientEmail: Option<string>, input: InvoiceInput,
                       nowMs: nat, id: InvoiceId)
    returns (reply: Option<Reply<Invoice>>)
    modifies db
    ensures !(exists c :: EmailMatch(old(db.clients), vendorId, clientEmail, true, c)) ==>
      reply == Some(Failure(NotFound, ClientNotFound)) && db.Snapshot() == old(db.Snapshot())
    ensures (exists c :: EmailMatch(old(db.clients), vendorId, clientEmail, true, c)) && id in old(db.invoices) ==>
      reply.None? && db.Snapshot() == old(db.Snapshot())
    ensures (exists c :: EmailMatch(old(db.clients), vendorId, clientEmail, true, c)) && id !in old(db.invoices) ==>
      && id in db.invoices
      && var inv := db.invoices[id];
      && db.invoices == old(db.invoices)[id := inv]
      && inv.status == Sent && inv.createdAt == nowMs && inv.dueDate == nowMs + 7 * DayMs
      && inv.vendorId == vendorId && !inv.isDeleted
      && inv.invoiceNo == GenerateInvoiceNumber(vendor.businessName, nowMs)
      && inv.description == input.description && inv.totalAmount == input.totalAmount
      && EmailMatch(old(db.clients), vendorId, clientEmail, true, inv.clientId)
      && (input.items.None? ==> reply.None? && db.invoiceItems == old(db.invoiceItems))
      && (input.items.Some? ==>
            reply == Some(Success(InvoiceCreated, Some(inv)))
            && db.invoiceItems == old(db.invoiceItems) + TagItems(input.items.value, id, inv.clientId))
    ensures clientEmail.None? ==>
      (reply == Some(Failure(NotFound, ClientNotFound)) <==> !(exists c :: LiveClient(old(db.clients), vendorId, c)))
    ensures db.clients == old(db.clients) && db.wallets == old(db.wallets) && db.transactions == old(db.transactions)
    ensures db.vendors == old(db.vendors) && db.activityLog == old(db.activityLog)
  {
    var invoiceNo := GenerateInvoiceNumber(vendor.businessName, nowMs);
    var client := FindClientByEmail(db.clients, vendorId, clientEmail, true);
    if client.None? {
      assert clientEmail.None? ==> forall c :: LiveClient(db.clients, vendorId, c) ==> EmailMatch(db.clients, vendorId, None, true, c);
      return Some(Failure(NotFound, ClientNotFound));
    }
    var clientId := client.value;
    assert LiveClient(db.clients, vendorId, clientId);
    if id in db.invoices {
      return None;
    }
    var invoice := Invoice(invoiceNo, input.description, input.totalAmount, nowMs + 7 * DayMs, nowMs, Sent,
                           vendorId, clientId, false);
    db.invoices := db.invoices[id := invoice];
    if input.items.None? {
      return None;
    }
    db.invoiceItems := db.invoiceItems + TagItems(input.items.value, id, clientId);
    return Some(Success(InvoiceCreated, Some(invoice)));
  }

  /** The fields of an update request; a missing (or, for the description, null) field is left as it is. */
  datatype InvoicePatch = InvoicePatch(description: Option<string>, totalAmount: Option<int>, status: Option<InvoiceStatus>)

  /** Prisma's update with `undefined` fields ignored. */
  function ApplyPatch(inv: Invoice, p: InvoicePatch): (r: Invoice)
    ensures r.description == (if p.description.Some? then p.description else inv.description)
    ensures r.totalAmount == p.totalAmount.GetOr(inv.totalAmount)
    ensures r.status == p.status.GetOr(inv.status)
    ensures r.(description := inv.description, totalAmount := inv.totalAmount, status := inv.status) == inv
  {
    inv.(description := if p.description.Some? then p.description else inv.description,
         totalAmount := p.totalAmount.GetOr(inv.totalAmount),
         status := p.status.GetOr(inv.status))
  }

  /** Applying the same update twice is applying it once; an empty update changes nothing. */
  lemma PatchIdempotent(inv: Invoice, p: InvoicePatch)
    ensures ApplyPatch(ApplyPatch(inv, p), p) == ApplyPatch(inv, p)
    ensures ApplyPatch(inv, InvoicePatch(None, None, None)) == inv
  {
  }

  /** Only the vendor's live invoice can be updated. */
  method UpdateInvoice(db: Db, vendorId: VendorId, id: InvoiceId, patch: InvoicePatch) returns (reply: Reply<Invoice>)
    modifies db
    ensures !LiveFor(old(db.invoices), vendorId, id) ==>
      reply == Failure(NotFound, InvoiceNotFound) && db.Snapshot() == old(db.Snapshot())
    ensures LiveFor(old(db.invoices), vendorId, id) ==>
      && reply == Success(InvoiceUpdated, Some(ApplyPatch(old(db.invoices)[id], patch)))
      && db.Snapshot() == old(db.Snapshot()).(invoices := old(db.invoices)[id := ApplyPatch(old(db.invoices)[id], patch)])
  {
    if !LiveFor(db.invoices, vendorId, id) {
      return Failure(NotFound, InvoiceNotFound);
    }
    var updated := ApplyPatch(db.invoices[id], patch);
    db.invoices := db.invoices[id := updated];
    return Success(InvoiceUpdated, Some(updated));
  }

  /** Only the vendor's live invoice can be deleted, and deleting removes the row. */
  method DeleteInvoice(db: Db, vendorId: VendorId, id: InvoiceId) returns (reply: Ack)
    modifies db
    ensures !LiveFor(old(db.invoices), vendorId, id) ==>
      reply == Failure(NotFound, InvoiceNotFound) && db.Snapshot() == old(db.Snapshot())
    ensures LiveFor(old(db.invoices), vendorId, id) ==>
      && reply == Success(InvoiceDeleted, None)
      && id !in db.invoices && db.invoices.Keys == old(db.invoices.Keys) - {id}
      && (forall k :: k in db.invoices ==> db.invoices[k] == old(db.invoices)[k])
      && db.Snapshot().(invoices := old(db.invoices)) == old(db.Snapshot())
  {
    if !LiveFor(db.invoices, vendorId, id) {
      return Failure(NotFound, InvoiceNotFound);
    }
    db.invoices := db.invoices - {id};
    return Success(InvoiceDeleted, None);
  }

  /** Only the vendor's live invoice can be sent; sending changes only its status, to SENT. */
  method SendInvoice(db: Db, vendorId: VendorId, id: InvoiceId) returns (reply: Ack)
    modifies db
    ensures !LiveFor(old(db.invoices), vendorId, id) ==>
      reply == Failure(NotFound, InvoiceNotFound) && db.Snapshot() == old(db.Snapshot())
    ensures LiveFor(old(db.invoices), vendorId, id) ==>
      && reply == Success(InvoiceSent, None)
      && db.Snapshot() == old(db.Snapshot()).(invoices := old(db.invoices)[id := old(db.invoices)[id].(status := Sent)])
  {
    if !LiveFor(db.invoices, vendorId, id) {
      return Failure(NotFound, InvoiceNotFound);
    }
    db.invoices := db.invoices[id := db.invoices[id].(status := Sent)];
    return Success(InvoiceSent, None);
  }

  /** Marking paid needs only an invoice of the vendor: a soft-deleted one is marked too. */
  method MarkInvoiceAsPaid(db: Db, vendorId: VendorId, id: InvoiceId) returns (reply: Ack)
    modifies db
    ensures !(id in old(db.invoices) && old(db.invoices)[id].vendorId == vendorId) ==>
      reply == Failure(NotFound, InvoiceNotFound) && db.Snapshot() == old(db.Snapshot())
    ensures id in old(db.invoices) && old(db.invoices)[id].vendorId == vendorId ==>
      && reply == Success(InvoiceMarkedAsPaid, None)
      && db.Snapshot() == old(db.Snapshot()).(invoices := old(db.invoices)[id := old(db.invoices)[id].(status := Paid)])
  {
    if !(id in db.invoices && db.invoices[id].vendorId == vendorId) {
      return Failure(NotFound, InvoiceNotFound);
    }
    db.invoices := db.invoices[id := db.invoices[id].(status := Paid)];
    return Success(InvoiceMarkedAsPaid, None);
  }

  // ---------------------------------------------------------------- statistics

  datatype InvoiceCounts = InvoiceCounts(draftInvoices: nat, pendingInvoices: nat, paidInvoices: nat, overDueInvoices: nat)

  /** The ids of the invoices with a status. */
  function WithStatus(invoices: map<InvoiceId, Invoice>, st: InvoiceStatus): (ids: set<InvoiceId>)
    ensures forall id :: id in ids <==> id in invoices && invoices[id].status == st
  {
    set id | id in invoices && invoices[id].status == st
  }

  /** The four status counts, over every invoice of every vendor, deleted ones included. */
  function StatusCounts(invoices: map<InvoiceId, Invoice>): InvoiceCounts {
    InvoiceCounts(|WithStatus(invoices, Draft)|, |WithStatus(invoices, Sent)|,
                      |WithStatus(invoices, Paid)|, |WithStatus(invoices, Overdue)|)
  }

  /** Every invoice is counted exactly once: the four counts add up to the size of the table. */
  lemma {:induction false} StatisticsCoverAll(invoices: map<InvoiceId, Invoice>)
    ensures var st := StatusCounts(invoices);
      st.draftInvoices + st.pendingInvoices + st.paidInvoices + st.overDueInvoices == |invoices|
  {
    var a, b, c, d := WithStatus(invoices, Draft), WithStatus(invoices, Sent), WithStatus(invoices, Paid), WithStatus(invoices, Overdue);
    assert a * b == {} && (a + b) * c == {} && (a + b + c) * d == {};
    assert a + b + c + d == invoices.Keys by {
      forall id | id in invoices.Keys ensures id in a + b + c + d {
        match invoices[id].status
        case Draft => assert id in a;
        case Sent => assert id in b;
        case Paid => assert id in c;
        case Overdue => assert id in d;
      }
    }
    assert |a + b| == |a| + |b|;
    assert |a + b + c| == |a + b| + |c|;
    assert |a + b + c + d| == |a + b + c| + |d|;
  }

  /** The statistics see another vendor's invoice: inserting any new invoice raises its status's count. */
  lemma {:induction false} StatisticsCountEveryVendor(invoices: map<InvoiceId, Invoice>, id: InvoiceId, inv: Invoice)
    requires id !in invoices
    ensures |WithStatus(invoices[id := inv], inv.status)| == |WithStatus(invoices, inv.status)| + 1
  {
    assert WithStatus(invoices[id := inv], inv.status) == WithStatus(invoices, inv.status) + {id};
  }

  /**
   * `getInvoiceStatistics`: the INVOICE_STATISTICS reply carrying, for each of
   * the four statuses, the number of invoices in the table with it; together
   * they count the whole table.
   */
  function GetInvoiceStatistics(invoices: map<InvoiceId, Invoice>): (r: Reply<InvoiceCounts>)
    ensures r.Success? && r.message == InvoiceStatistics && r.data.Some?
    ensures r.data.value.draftInvoices == |WithStatus(invoices, Draft)|
    ensures r.data.value.pendingInvoices == |WithStatus(invoices, Sent)|
    ensures r.data.value.paidInvoices == |WithStatus(invoices, Paid)|
    ensures r.data.value.overDueInvoices == |WithStatus(invoices, Overdue)|
    ensures r.data.value.draftInvoices + r.data.value.pendingInvoices + r.data.value.paidInvoices
            + r.data.value.overDueInvoices == |invoices|
  {
    StatisticsCoverAll(invoices);
    Success(InvoiceStatistics, Some(StatusCounts(invoices)))
  }

  // ---------------------------------------------------------------- search

  /**
   * The search filter: the vendor's live invoices whose client's full name or
   * whose number contains the search string, ignoring case. A missing search
   * string drops the two `contains` conditions.
   */
  predicate Selected(s: State, vendorId: VendorId, search: Option<string>, id: InvoiceId) {
    && LiveFor(s.invoices, vendorId, id)
    && (search.None?
        || (s.invoices[id].clientId in s.clients
            && ContainsInsensitive(s.clients[s.invoices[id].clientId].profile.fullname, search.value))
        || ContainsInsensitive(s.invoices[id].invoiceNo, search.value))
  }

  /** `invoice.count` with the search filter. */
  function SearchCount(s: State, vendorId: VendorId, search: Option<string>): (n: nat)
    ensures n <= |s.invoices|
  {
    var ids := set id | id in s.invoices && Selected(s, vendorId, search, id);
    assert ids <= s.invoices.Keys;
    SubsetCardinality(ids, s.invoices.Keys);
    |ids|
  }

  lemma SubsetCardinality<X>(a: set<X>, b: set<X>)
    requires a <= b
    ensures |a| <= |b|
  {
    assert b == a + (b - a);
  }

  /** An empty search string matches every live invoice of the vendor, as a missing one does. */
  lemma EmptySearchMatchesAll(s: State, vendorId: VendorId)
    ensures SearchCount(s, vendorId, Some("")) == SearchCount(s, vendorId, None)
  {
    forall id | id in s.invoices && LiveFor(s.invoices, vendorId, id) ensures Selected(s, vendorId, Some(""), id) {
      EmptyIsContained(s.invoices[id].invoiceNo);
    }
    assert (set id | id in s.invoices && Selected(s, vendorId, Some(""), id))
        == (set id | id in s.invoices && Selected(s, vendorId, None, id));
  }

  /** The search ignores the case of the search string. */
  lemma SearchIgnoresCase(s: State, vendorId: VendorId, q: string)
    ensures SearchCount(s, vendorId, Some(Upper(q))) == SearchCount(s, vendorId, Some(q))
  {
    forall id | id in s.invoices ensures Selected(s, vendorId, Some(Upper(q)), id) == Selected(s, vendorId, Some(q), id) {
      CaseDoesNotMatter(s.invoices[id].invoiceNo, q);
      if s.invoices[id].clientId in s.clients {
        CaseDoesNotMatter(s.clients[s.invoices[id].clientId].profile.fullname, q);
      }
    }
    assert (set id | id in s.invoices && Selected(s, vendorId, Some(Upper(q)), id))
        == (set id | id in s.invoices && Selected(s, vendorId, Some(q), id));
  }

  /**
   * `findInvoice`. A missing or empty search string answers with the page
   * record of an empty list over the count of all the vendor's live invoices,
   * as a success even when that record is the not-found error. Otherwise the
   * rows the query returned are paged against the count of matches.
   */
  function FindInvoice<T>(s: State, vendorId: VendorId, search: Option<string>, pageNumber: Option<int>,
                          pageSize: Option<int>, rows: seq<T>): (r: Reply<Paginate.PageResult<T>>)
    requires pageSize != Some(0)
    ensures search.None? || search == Some("") ==>
      && r.Success? && r.data.Some?
      && (r.data.value.Page? ==> r.data.value.result == [] && r.data.value.totalCount == SearchCount(s, vendorId, None))
    ensures search.Some? && search != Some("") && r.Success? ==>
      r.data.Some? && r.data.value.Page? && r.data.value.result == rows
      && r.data.value.totalCount == SearchCount(s, vendorId, search)
    ensures r.Failure? ==> r == Failure(NotFound, NoResourceFound)
    ensures search.Some? && search != Some("") ==>
      var total := SearchCount(s, vendorId, search);
      var w := Paginate.QueryWindow(pageNumber, pageSize, total);
      (r.Success? <==> Paginate.Served(w.currentPage, w.limit, !w.hasNext, total))
  {
    var total := SearchCount(s, vendorId, search);
    var w := Paginate.QueryWindow(pageNumber, pageSize, total);
    var emptyValue := Paginate.Paginate([], w.currentPage, w.limit, !w.hasNext, total);
    if search.None? || search == Some("") then
      EmptySearchMatchesAll(s, vendorId);
      Success(InvoiceSearchResult, Some(emptyValue))
    else
      Paginate.ServedExactly(rows, w.currentPage, w.limit, !w.hasNext, total);
      var result := Paginate.Paginate(rows, w.currentPage, w.limit, !w.hasNext, total);
      if result.NotFound? then Failure(NotFound, NoResourceFound) else Success(InvoiceSearchResult, Some(result))
  }

  /** A search that matches at least one invoice is served on the default first page. */
  lemma MatchedSearchFirstPageServed<T>(s: State, vendorId: VendorId, q: string, rows: seq<T>)
    requires q != "" && SearchCount(s, vendorId, Some(q)) > 0
    ensures FindInvoice(s, vendorId, Some(q), None, None, rows).Success?
  {
    Paginate.PageCountIsLeast(SearchCount(s, vendorId, Some(q)), 20);
  }

  /** An empty search on a vendor without invoices answers success carrying the not-found record. */
  lemma EmptySearchWrapsNotFound<T>(s: State, vendorId: VendorId, rows: seq<T>)
    requires SearchCount(s, vendorId, None) == 0
    ensures FindInvoice(s, vendorId, None, None, None, rows)
         == Success(InvoiceSearchResult, Some(Paginate.PageResult.NotFound(NoResource)))
  {
    assert Paginate.CeilDiv(0, 20) == 0;
  }
}
