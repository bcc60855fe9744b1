/** Vodafone Ireland: the joining date sizes the bill-list request, the
    list is mapped to descriptors, and a pool of twenty workers downloads
    them; any non-ok status is written to the ledger with a replay
    command, an exception only to the console. */
module Vodafone {
  import opened Values
  import opened Calendar
  import opened Engine
  import opened Pool

  /** The worker count `downloadBills` uses when none is given. */
  const DefaultConcurrency: nat := 20

  /** One item of the bills response: its invoice number and its due date,
      already read as a calendar day. */
  datatype Invoice = Invoice(invoiceNumber: string, dueDate: CalendarDay)

  // ---------------------------------------------------------------------
  // Discovery.

  /** `getJoiningDate`: the first subscription's effective date. `None`
      stands for every falsy result (a non-ok status, an exception, an
      empty list, a missing date), on which the script exits. */
  function JoiningDate(o: Fetch<seq<Slot<CalendarDay>>>): (r: Option<CalendarDay>)
    ensures r.Some? <==> o.Ok() && |o.body| > 0 && o.body[0].Present?
    ensures r.Some? ==> r.value == o.body[0].value
  {
    if o.Ok() && |o.body| > 0 then
      match o.body[0]
      case Present(d) => Some(d)
      case _ => None
    else
      None
  }

  /** `getMonths`: twelve per year plus the month difference plus two. It
      is exactly two when the joining month is the current month. */
  function GetMonths(joined: CalendarDay, today: CalendarDay): (n: int)
    ensures n == 2 <==> joined.year == today.year && joined.month == today.month
  {
    var yearsAmount := today.year - joined.year;
    var monthsAmount := (today.month - 1) - (joined.month - 1);
    yearsAmount * 12 + monthsAmount + 2
  }

  /** The first day of the month `k` months before `d`'s month. */
  function MonthsEarlier(d: Date, k: nat): (r: Date)
    requires 1 <= d.month <= 12
    ensures 1 <= r.month <= 12
    ensures 12 * r.year + r.month + k == 12 * d.year + d.month
    decreases k
  {
    if k == 0 then Date(d.year, d.month, 1) else PreviousMonth(MonthsEarlier(d, k - 1))
  }

  /** The announced count `getMonths(...) - 2` is the number of month steps
      back from the current month to the joining month. */
  lemma AnnouncedCountIsMonthsElapsed(joined: CalendarDay, today: CalendarDay)
    requires 12 * joined.year + joined.month <= 12 * today.year + today.month
    ensures GetMonths(joined, today) - 2 >= 0
    ensures var r := MonthsEarlier(today, GetMonths(joined, today) - 2);
            r.year == joined.year && r.month == joined.month
  {
    var k := GetMonths(joined, today) - 2;
    var r := MonthsEarlier(today, k);
    assert 12 * r.year + r.month == 12 * joined.year + joined.month;
  }

  /** `getListOfBills`: one descriptor per response item, in response
      order, with the due date printed as `${year}-${MM}-${DD}`. `None`
      stands for the `false` returned on a non-ok status or an exception. */
  function ListOfBills(o: Fetch<seq<Invoice>>): (r: Option<seq<Descriptor>>)
    ensures r.Some? <==> o.Ok()
    ensures r.Some? ==> |r.value| == |o.body|
    ensures r.Some? ==> forall i :: 0 <= i < |o.body| ==> r.value[i].id == o.body[i].invoiceNumber
  {
    if o.Ok() then
      Some(seq(|o.body|, i requires 0 <= i < |o.body| =>
        Descriptor(o.body[i].invoiceNumber, DashedDate(o.body[i].dueDate))))
    else
      None
  }

  /** Each listed date reads back as the item's due date (four-digit years). */
  lemma ListedDatesReadBack(o: Fetch<seq<Invoice>>, i: int)
    requires o.Ok() && 0 <= i < |o.body|
    requires 1000 <= o.body[i].dueDate.year <= 9999
    ensures ParseIsoDate(ListOfBills(o).value[i].date) == Some(o.body[i].dueDate)
  {
    var d := o.body[i].dueDate;
    DashedIsIso(d);
    TimeRangeYears(d);
    IsoRoundTrip(d);
  }

  /** The provider name Vodafone's ledger entries start with. */
  const Provider := "Vodafone"

  // ---------------------------------------------------------------------
  // The script.

  /** The whole script: two arguments download one bill with one worker and
      exit; otherwise the joining date, the announced count, the list and
      the pool of twenty. A `false` list makes `downloadBills` throw. */
  function Main(argv: seq<string>, today: CalendarDay, joining: Fetch<seq<Slot<CalendarDay>>>,
                listing: Fetch<seq<Invoice>>, backend: Descriptor -> Fetch<()>): Run
  {
    var script := ScriptOf(argv);
    match SingleItem(argv)
    case Some(d) => Run(DownloadBills(Provider, script, [d], 1, backend), Finished)
    case None =>
      var start := [Request(Account)];
      match JoiningDate(joining)
      case None => Run(start, Exited)
      case Some(joined) => Listing(script, GetMonths(joined, today) - 2, listing, backend)
  }

  /** The part of a full run after the joining date arrived: the
      announcement, the list request and the pool. */
  function Listing(script: string, count: int, listing: Fetch<seq<Invoice>>,
                   backend: Descriptor -> Fetch<()>): Run
  {
    var announced := [Request(Account), Announce(count), Request(BillList)];
    match ListOfBills(listing)
    case None => Run(announced, Crashed)
    case Some(bills) => Run(announced + DownloadBills(Provider, script, bills, DefaultConcurrency, backend), Finished)
  }

  /** With two arguments the script downloads exactly that one bill and
      nothing else: no joining date, no list, no announcement. */
  lemma SingleBillMode(argv: seq<string>, today: CalendarDay, joining: Fetch<seq<Slot<CalendarDay>>>,
                       listing: Fetch<seq<Invoice>>, backend: Descriptor -> Fetch<()>)
    requires |argv| >= 4 && argv[2] != "" && argv[3] != ""
    ensures var r := Main(argv, today, joining, listing, backend);
            var d := Descriptor(argv[2], argv[3]);
            && Requests(r.effects) == [Document(argv[2])]
            && Files(r.effects) == (if backend(d).Ok() then [PdfName(argv[3])] else [])
            && Ledger(r.effects) == (if backend(d).NotOk() then [FailureEntry(Provider, ScriptOf(argv), d)] else [])
            && (forall i :: 0 <= i < |r.effects| ==> !r.effects[i].Announce?)
            && r.ending == Finished
  {
    SingleBillDownload(Provider, ScriptOf(argv), Descriptor(argv[2], argv[3]), backend);
  }

  /** Once the joining date has arrived, the rest of a full run is the
      listing stage, announcing the month count. */
  lemma FullRunIsListing(argv: seq<string>, today: CalendarDay, joining: Fetch<seq<Slot<CalendarDay>>>,
                         listing: Fetch<seq<Invoice>>, backend: Descriptor -> Fetch<()>)
    requires SingleItem(argv).None? && JoiningDate(joining).Some?
    ensures Main(argv, today, joining, listing, backend)
            == Listing(ScriptOf(argv), GetMonths(JoiningDate(joining).value, today) - 2, listing, backend)
  {
  }

  /** The three effects before the pool. */
  lemma ListingPrefix(count: int)
    ensures var p := [Request(Account), Announce(count), Request(BillList)];
            && Requests(p) == [Account, BillList]
            && Files(p) == [] && Ledger(p) == []
            && KeepsLedger(p)
  {
    var a, b, c := Request(Account), Announce(count), Request(BillList);
    ProjectionsOne(a);
    ProjectionsOne(b);
    ProjectionsOne(c);
    ProjectionsAppend([b], [c]);
    ProjectionsAppend([a], [b] + [c]);
    assert [a, b, c] == [a] + ([b] + [c]);
  }

  /** The listing stage requests the account, then the list, then every
      listed bill once, in list order; it saves the successful bills, logs
      the failed ones, and never deletes the ledger. A failed list crashes
      the run before any bill is requested. */
  lemma ListingDownloads(script: string, count: int, listing: Fetch<seq<Invoice>>,
                         backend: Descriptor -> Fetch<()>)
    ensures var r := Listing(script, count, listing, backend);
            !listing.Ok() ==> r.ending == Crashed && Requests(r.effects) == [Account, BillList]
    ensures listing.Ok() ==>
            var r := Listing(script, count, listing, backend);
            var bills := ListOfBills(listing).value;
            && Requests(r.effects) == [Account, BillList] + Select(bills, (_: Descriptor) => true, (d: Descriptor) => Document(d.id))
            && Files(r.effects) == Select(bills, (d: Descriptor) => backend(d).Ok(), (d: Descriptor) => PdfName(d.date))
            && Ledger(r.effects) == Select(bills, (d: Descriptor) => backend(d).NotOk(),
                                           (d: Descriptor) => FailureEntry(Provider, script, d))
            && KeepsLedger(r.effects)
            && r.ending == Finished
  {
    ListingPrefix(count);
    if listing.Ok() {
      var bills := ListOfBills(listing).value;
      var prefix := [Request(Account), Announce(count), Request(BillList)];
      var t := DownloadBills(Provider, script, bills, DefaultConcurrency, backend);
      assert Listing(script, count, listing, backend).effects == prefix + t;
      DownloadBillsCoverage(Provider, script, bills, DefaultConcurrency, backend);
      ProjectionsAppend(prefix, t);
      KeepsLedgerAppend(prefix, t);
    }
  }
}
