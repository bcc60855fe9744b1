/** Virgin Media Ireland: the bill history is read in two-year windows from
    January of the configured start year to the current year; the bills
    found are downloaded in batches of three. The ledger is deleted at
    start-up, so after a run it holds that run's entries only. */
module Virgin {
  import opened Values
  import opened Text
  import opened Calendar
  import opened Engine
  import opened Scheduling

  /** The batch size `downloadBills` uses when none is given. */
  const DefaultBatch: nat := 3

  /** One item of `customerBills`: `billNo` and `billDate` (an ISO timestamp). */
  datatype BillItem = BillItem(billNo: string, billDate: string)

  /** The body of a bill-history response. */
  datatype HistoryPage = HistoryPage(statusDescription: string, customerBills: seq<BillItem>)

  // ---------------------------------------------------------------------
  // Two-year windows.

  /** `for (start = startYear; start <= endYear; start += 2)`. */
  function Windows(startYear: int, endYear: int): (r: seq<int>)
    ensures forall i :: 0 <= i < |r| ==> r[i] == startYear + 2 * i && r[i] <= endYear
    ensures startYear + 2 * |r| > endYear
    decreases if startYear > endYear then 0 else endYear - startYear + 1
  {
    if startYear > endYear then [] else [startYear] + Windows(startYear + 2, endYear)
  }

  /** There are `(endYear - startYear) div 2 + 1` windows when the start
      year is not after the current one, and none otherwise. */
  lemma WindowCount(startYear: int, endYear: int)
    ensures |Windows(startYear, endYear)| == if startYear <= endYear then (endYear - startYear) / 2 + 1 else 0
  {
    var r := Windows(startYear, endYear);
    if startYear <= endYear {
      var q := (endYear - startYear) / 2;
      assert endYear - startYear == 2 * q + (endYear - startYear) % 2;
      assert |r| > 0;
      assert r[|r| - 1] == startYear + 2 * (|r| - 1) <= endYear;
    }
  }

  /** From 2022 to 2024 there are exactly two windows. */
  lemma WindowsExample()
    ensures Windows(2022, 2024) == [2022, 2024]
  {
    assert Windows(2026, 2024) == [];
    assert Windows(2024, 2024) == [2024];
  }

  /** The index of the window holding year `y`. */
  function WindowOf(startYear: int, y: int): int
  {
    (y - startYear) / 2
  }

  /** Every year from the start year to the current year falls in exactly
      one window: the one `WindowOf` names. */
  lemma WindowsCoverYears(startYear: int, endYear: int, y: int)
    requires startYear <= y <= endYear
    ensures var r := Windows(startYear, endYear);
            var i := WindowOf(startYear, y);
            0 <= i < |r| && r[i] <= y <= r[i] + 1
    ensures var r := Windows(startYear, endYear);
            forall j :: 0 <= j < |r| && r[j] <= y <= r[j] + 1 ==> j == WindowOf(startYear, y)
  {
    var r := Windows(startYear, endYear);
    var i := WindowOf(startYear, y);
    assert y - startYear == 2 * i + (y - startYear) % 2;
  }

  /** The `startDate` parameter of a window. */
  function StartParam(start: int): string
  {
    IntToString(start) + "-01-01T00:00:00Z"
  }

  /** The `endDate` parameter of a window. */
  function EndParam(start: int): string
  {
    IntToString(start + 1) + "-12-31T23:59:59Z"
  }

  /** The first and last day of a window. */
  function FirstDay(start: int): CalendarDay { Date(start, 1, 1) }

  function LastDay(start: int): CalendarDay { Date(start + 1, 12, 31) }

  /** A window spans exactly two calendar years, the most the endpoint
      accepts, and the next window starts on the day after it ends. */
  lemma WindowSpan(start: int)
    ensures DayNumber(LastDay(start)) - DayNumber(FirstDay(start)) + 1 == DaysInYear(start) + DaysInYear(start + 1)
    ensures DayNumber(LastDay(start)) + 1 == DayNumber(FirstDay(start + 2))
  {
    YearStartNext(start);
    YearStartNext(start + 1);
    DaysBeforeDecember(start + 1);
  }

  lemma PadOne()
    ensures Pad2(1) == "01"
  {
    assert NatToString(1) == "1";
  }

  lemma PadTwelve()
    ensures Pad2(12) == "12"
  {
    assert NatToString(12) == NatToString(1) + [DigitChar(2)];
  }

  lemma PadThirtyOne()
    ensures Pad2(31) == "31"
  {
    assert NatToString(31) == NatToString(3) + [DigitChar(1)];
  }

  /** The window's `startDate` and `endDate` parameters are its first and
      last day in the template form, at the first and the last second of
      the day. */
  lemma WindowParams(start: int)
    ensures StartParam(start) == DashedDate(FirstDay(start)) + "T00:00:00Z"
    ensures EndParam(start) == DashedDate(LastDay(start)) + "T23:59:59Z"
  {
    PadOne();
    PadTwelve();
    PadThirtyOne();
    var y, z := IntToString(start), IntToString(start + 1);
    assert DashedDate(FirstDay(start)) == y + "-" + "01" + "-" + "01";
    assert DashedDate(LastDay(start)) == z + "-" + "12" + "-" + "31";
    assert y + "-" + "01" + "-" + "01" + "T00:00:00Z" == y + "-01-01T00:00:00Z";
    assert z + "-" + "12" + "-" + "31" + "T23:59:59Z" == z + "-12-31T23:59:59Z";
  }

  /** For four-digit years the date part of each parameter reads back as
      the window's first and last day. */
  lemma WindowParamsReadBack(start: int)
    requires 1000 <= start <= 9998
    ensures ParseIsoDate(StartParam(start)[..10]) == Some(FirstDay(start))
    ensures ParseIsoDate(EndParam(start)[..10]) == Some(LastDay(start))
  {
    var first, last := FirstDay(start), LastDay(start);
    WindowParams(start);
    DashedIsIso(first);
    DashedIsIso(last);
    NatToStringLength(start, 3);
    NatToStringLength(start + 1, 3);
    ParamDatePart(DashedDate(first), "T00:00:00Z");
    ParamDatePart(DashedDate(last), "T23:59:59Z");
    TimeRangeYears(first);
    TimeRangeYears(last);
    IsoRoundTrip(first);
    IsoRoundTrip(last);
  }

  lemma ParamDatePart(date: string, time: string)
    requires |date| == 10
    ensures (date + time)[..10] == date
  {
  }

  // ---------------------------------------------------------------------
  // Discovery.

  /** The ledger entry for a window whose response is not a success. */
  function NoBillsEntry(start: int): string
  {
    "No bills found for " + IntToString(start) + " - " + IntToString(start + 1) + ".\n\n"
  }

  function Listed(b: BillItem): Descriptor
  {
    Descriptor(b.billNo, CutAt(b.billDate, 'T'))
  }

  function ListedAll(items: seq<BillItem>): (r: seq<Descriptor>)
    ensures |r| == |items|
  {
    seq(|items|, i requires 0 <= i < |items| => Listed(items[i]))
  }

  /** Each listed bill keeps its number, and its date is the bill date up
      to the first 'T': a prefix of it with no 'T' left in it, ending at the
      end of the bill date or just before its first 'T'. */
  lemma ListedAllAt(items: seq<BillItem>, i: nat)
    requires i < |items|
    ensures ListedAll(items)[i].id == items[i].billNo
    ensures ListedAll(items)[i].date <= items[i].billDate
    ensures 'T' !in ListedAll(items)[i].date
    ensures |ListedAll(items)[i].date| < |items[i].billDate|
            ==> items[i].billDate[|ListedAll(items)[i].date|] == 'T'
  {
    CutAtPrefix(items[i].billDate, 'T');
  }


  /** A window's response ends discovery: a 401, or any exception. */
  predicate Aborts(o: Fetch<HistoryPage>)
  {
    o.Thrown? || o.Status(401)
  }

  /** A window answered, but not with a success description. */
  predicate NoBills(o: Fetch<HistoryPage>)
  {
    o.Ok() && o.body.statusDescription != "SUCCESS"
  }

  /** The bills a window adds to `billsArray`. */
  function WindowBills(o: Fetch<HistoryPage>): (r: seq<Descriptor>)
    ensures |r| == if o.Ok() && !NoBills(o) then |o.body.customerBills| else 0
  {
    if o.Ok() && !NoBills(o) then ListedAll(o.body.customerBills) else []
  }

  /** The effects of one window that does not abort: its request and, when
      it found no bills, the ledger entry saying so. */
  function WindowEffects(start: int, o: Fetch<HistoryPage>): (t: seq<Effect>)
    ensures |t| >= 1
  {
    [Request(BillWindow(start))] + if NoBills(o) then [AppendLedger(NoBillsEntry(start))] else []
  }

  /** A window that does not abort is requested once, logs at most its
      "No bills found" entry, writes no file and keeps the ledger. */
  lemma WindowEffectsProjections(start: int, o: Fetch<HistoryPage>)
    ensures var t := WindowEffects(start, o);
            && Requests(t) == [BillWindow(start)]
            && Ledger(t) == (if NoBills(o) then [NoBillsEntry(start)] else [])
            && Files(t) == []
            && KeepsLedger(t)
  {
    var request := [Request(BillWindow(start))];
    var note := if NoBills(o) then [AppendLedger(NoBillsEntry(start))] else [];
    ProjectionsOne(Request(BillWindow(start)));
    ProjectionsOne(AppendLedger(NoBillsEntry(start)));
    ProjectionsAppend(request, note);
  }

  /** What discovery leaves behind: its effects, the bills collected in
      `billsArray`, and whether a window cut it short. */
  datatype History = History(effects: seq<Effect>, bills: seq<Descriptor>, cut: bool)

  /** `getBillsHistory`: one request per window, in order. A non-ok status
      other than 401 skips the window; a response that is not a success
      logs "No bills found" and skips it; a success appends its bills with
      the date cut at 'T'. A 401 or an exception returns at once, and the
      bills already collected stay in `billsArray`. */
  function GetBillsHistory(windows: seq<int>, pages: int -> Fetch<HistoryPage>): (h: History)
    ensures Files(h.effects) == []
    ensures KeepsLedger(h.effects)
    decreases |windows|
  {
    if |windows| == 0 then History([], [], false)
    else
      var start := windows[0];
      var o := pages(start);
      if Aborts(o) then
        ProjectionsOne(Request(BillWindow(start)));
        History([Request(BillWindow(start))], [], true)
      else
        var rest := GetBillsHistory(windows[1..], pages);
        WindowEffectsProjections(start, o);
        KeepsLedgerAppend(WindowEffects(start, o), rest.effects);
        ProjectionsAppend(WindowEffects(start, o), rest.effects);
        History(WindowEffects(start, o) + rest.effects, WindowBills(o) + rest.bills, rest.cut)
  }

  /** The bills every window would add if none aborted. */
  function FlatBills(windows: seq<int>, pages: int -> Fetch<HistoryPage>): seq<Descriptor>
    decreases |windows|
  {
    if |windows| == 0 then [] else WindowBills(pages(windows[0])) + FlatBills(windows[1..], pages)
  }

  /** The index of the first window that aborts, or the number of windows. */
  function FirstAbort(windows: seq<int>, pages: int -> Fetch<HistoryPage>): (k: nat)
    ensures k <= |windows|
    ensures forall i :: 0 <= i < k ==> !Aborts(pages(windows[i]))
    ensures k < |windows| ==> Aborts(pages(windows[k]))
    decreases |windows|
  {
    if |windows| == 0 then 0
    else if Aborts(pages(windows[0])) then 0
    else 1 + FirstAbort(windows[1..], pages)
  }

  /** Discovery is cut short exactly when some window aborts, and it keeps
      the bills the windows before the first such window found. */
  lemma {:induction false} HistoryKeepsEarlierBills(windows: seq<int>, pages: int -> Fetch<HistoryPage>)
    ensures var k := FirstAbort(windows, pages);
            var before := GetBillsHistory(windows[..k], pages);
            && !before.cut
            && GetBillsHistory(windows, pages).bills == before.bills
            && (GetBillsHistory(windows, pages).cut <==> k < |windows|)
    decreases |windows|
  {
    var k := FirstAbort(windows, pages);
    if |windows| > 0 {
      var start := windows[0];
      if Aborts(pages(start)) {
        assert windows[..k] == [];
      } else {
        HistoryKeepsEarlierBills(windows[1..], pages);
        var rest := windows[1..];
        assert windows[..k][0] == start;
        assert windows[..k][1..] == rest[..k - 1];
      }
    }
  }

  /** Discovery is cut short exactly when some window aborts. */
  lemma HistoryCutIffAbort(windows: seq<int>, pages: int -> Fetch<HistoryPage>)
    ensures GetBillsHistory(windows, pages).cut <==> exists i :: 0 <= i < |windows| && Aborts(pages(windows[i]))
  {
    HistoryKeepsEarlierBills(windows, pages);
    var k := FirstAbort(windows, pages);
    if k < |windows| {
      assert Aborts(pages(windows[k]));
    }
  }

  /** Discovery's effects are those of the windows before the first that
      aborts, followed by that window's request: no later window is ever
      requested. */
  lemma {:induction false} HistoryStopsAtAbort(windows: seq<int>, pages: int -> Fetch<HistoryPage>)
    ensures var k := FirstAbort(windows, pages);
            GetBillsHistory(windows, pages).effects
            == GetBillsHistory(windows[..k], pages).effects
               + (if k < |windows| then [Request(BillWindow(windows[k]))] else [])
    decreases |windows|
  {
    var k := FirstAbort(windows, pages);
    if |windows| > 0 {
      var start := windows[0];
      if Aborts(pages(start)) {
        assert windows[..k] == [];
      } else {
        var rest := windows[1..];
        HistoryStopsAtAbort(rest, pages);
        assert k == 1 + FirstAbort(rest, pages);
        var pre := windows[..k];
        assert pre[0] == start && pre[1..] == rest[..k - 1];
        var w := WindowEffects(start, pages(start));
        var mid := GetBillsHistory(rest[..k - 1], pages).effects;
        var tail := if k < |windows| then [Request(BillWindow(windows[k]))] else [];
        assert k < |windows| ==> windows[k] == rest[k - 1];
        assert GetBillsHistory(windows, pages).effects == w + GetBillsHistory(rest, pages).effects;
        assert GetBillsHistory(pre, pages).effects == w + mid;
        AppendAssociates(w, mid, tail);
      }
    }
  }

  /** With no aborting window every window is requested once, in order;
      every window without bills leaves one entry, in order; and every bill
      found is kept, in window order. */
  lemma {:induction false} HistoryComplete(windows: seq<int>, pages: int -> Fetch<HistoryPage>)
    requires forall i :: 0 <= i < |windows| ==> !Aborts(pages(windows[i]))
    ensures var h := GetBillsHistory(windows, pages);
            && !h.cut
            && h.bills == FlatBills(windows, pages)
            && Requests(h.effects) == Select(windows, (_: int) => true, (s: int) => BillWindow(s))
            && Ledger(h.effects) == Select(windows, (s: int) => NoBills(pages(s)), (s: int) => NoBillsEntry(s))
    decreases |windows|
  {
    if |windows| > 0 {
      var start := windows[0];
      var rest := windows[1..];
      assert forall i :: 0 <= i < |rest| ==> rest[i] == windows[i + 1];
      HistoryComplete(rest, pages);
      WindowEffectsProjections(start, pages(start));
      ProjectionsAppend(WindowEffects(start, pages(start)), GetBillsHistory(rest, pages).effects);
    }
  }

  /** A "No bills found" entry offers nothing to replay. */
  lemma NoBillsEntryNoReplay(start: int)
    ensures ReplayOf(NoBillsEntry(start)) == None
  {
    var head := "No bills found for " + IntToString(start) + " - " + IntToString(start + 1) + ".";
    assert NoBillsEntry(start) == head + "\n\n";
    assert '\n' !in "No bills found for " && '\n' !in " - " && '\n' !in ".";
    YearTextOneLine(start);
    YearTextOneLine(start + 1);
    NoReplay(head);
  }

  lemma YearTextOneLine(y: int)
    ensures '\n' !in IntToString(y)
  {
    var s := IntToString(y);
    if y >= 0 {
      assert AllDigits(s);
    } else {
      assert s == "-" + NatToString(-y);
      assert AllDigits(NatToString(-y));
    }
  }

  // ---------------------------------------------------------------------
  // Downloading.

  /** The ledger entry for a 404. */
  function NotFoundEntry(d: Descriptor): string
  {
    "Bill " + d.id + " (" + d.date + ") not found. " + "Not possible to download.\n\n"
  }

  /** The first line of the ledger entry for a 403, stamped with the time
      the task started. */
  function ForbiddenHead(stamp: string, d: Descriptor): string
  {
    stamp + " - Failed to download bill " + d.id + " (" + d.date + "). "
    + "Run the command below " + "to download it manually: "
  }

  function ForbiddenEntry(stamp: string, script: string, d: Descriptor): string
  {
    ReplayEntry(ForbiddenHead(stamp, d), script, d)
  }

  /** The ledger entry for an exception; it ends with a single newline. */
  function ErrorEntry(d: Descriptor, message: string): string
  {
    "Error downloading bill " + d.id + ": " + message + "\n"
  }

  /** The ledger entry one task leaves: one for an exception, a 404 or a
      403, and none otherwise. */
  function TaskEntry(stamp: string, script: string, d: Descriptor, o: Fetch<()>): (r: Option<string>)
    ensures r.Some? <==> o.Thrown? || o.Status(404) || o.Status(403)
  {
    match o
    case Thrown(message) => Some(ErrorEntry(d, message))
    case Response(_, _) =>
      if o.Status(404) then Some(NotFoundEntry(d))
      else if o.Status(403) then Some(ForbiddenEntry(stamp, script, d))
      else None
  }

  /** The text of an entry; empty when there is none. */
  function EntryText(e: Option<string>): string
  {
    match e
    case Some(text) => text
    case None => ""
  }

  /** One task of a batch: a request; a success writes `<billDate>.pdf`;
      a 404, a 403 or an exception each append their own entry; a 401 and
      every other non-ok status leave nothing. */
  function DownloadTask(stamp: string, script: string, d: Descriptor, o: Fetch<()>): (t: seq<Effect>)
    ensures Requests(t) == [Document(d.id)]
    ensures Files(t) == if o.Ok() then [PdfName(d.date)] else []
    ensures Ledger(t) == if TaskEntry(stamp, script, d, o).Some? then [TaskEntry(stamp, script, d, o).value] else []
    ensures KeepsLedger(t)
    ensures forall i :: 0 <= i < |t| ==> !t[i].Announce?
  {
    var entry := TaskEntry(stamp, script, d, o);
    var request := [Request(Document(d.id))];
    var outcome := if o.Ok() then [WriteFile(PdfName(d.date))]
                   else if entry.Some? then [AppendLedger(entry.value)]
                   else [];
    ProjectionsAppend(request, outcome);
    request + outcome
  }

  /** Only the 403 entry can be replayed, and it replays exactly its bill. */
  lemma ForbiddenEntryReplays(stamp: string, script: string, d: Descriptor)
    requires '\n' !in stamp && '"' !in script && '\n' !in script && Word(d.id) && Word(d.date)
    ensures ReplayOf(ForbiddenEntry(stamp, script, d)) == Some(d)
  {
    assert '\n' !in " - Failed to download bill " && '\n' !in " (" && '\n' !in "). ";
    assert '\n' !in "Run the command below " && '\n' !in "to download it manually: ";
    ReplayRoundTrip(ForbiddenHead(stamp, d), script, d);
  }

  /** The 404 entry offers nothing to replay. */
  lemma NotFoundEntryNoReplay(d: Descriptor)
    requires '\n' !in d.id && '\n' !in d.date
    ensures ReplayOf(NotFoundEntry(d)) == None
  {
    var head := "Bill " + d.id + " (" + d.date + ") not found. " + "Not possible to download.";
    assert NotFoundEntry(d) == head + "\n\n";
    assert '\n' !in "Bill " && '\n' !in " (" && '\n' !in ") not found. " && '\n' !in "Not possible to download.";
    NoReplay(head);
  }

  /** `downloadBills(billsArray, concurrency)`: the batches in order, each
      batch's tasks in order. */
  function DownloadBills(script: string, bills: seq<Descriptor>, concurrency: nat,
                         backend: Descriptor -> Fetch<()>, clock: Descriptor -> string): seq<Effect>
    requires concurrency > 0
  {
    BatchEffects(Batches(bills, concurrency), Task(script, backend, clock))
  }

  /** The task for each bill, stamped by the clock. */
  function Task(script: string, backend: Descriptor -> Fetch<()>, clock: Descriptor -> string): Descriptor -> seq<Effect>
  {
    (d: Descriptor) => DownloadTask(clock(d), script, d, backend(d))
  }

  function BatchEffects(batches: seq<seq<Descriptor>>, task: Descriptor -> seq<Effect>): seq<Effect>
    decreases |batches|
  {
    if |batches| == 0 then [] else FlatMap(batches[0], task) + BatchEffects(batches[1..], task)
  }

  /** Running the batches one after the other is running every task in
      list order: batching neither drops, repeats nor reorders a bill. */
  lemma {:induction false} BatchEffectsFlatten(batches: seq<seq<Descriptor>>, task: Descriptor -> seq<Effect>)
    ensures BatchEffects(batches, task) == FlatMap(Flatten(batches), task)
    decreases |batches|
  {
    if |batches| > 0 {
      BatchEffectsFlatten(batches[1..], task);
      FlatMapAppend(batches[0], Flatten(batches[1..]), task);
    }
  }

  /** Every bill is requested once, in list order, whatever the batch size;
      the files are those of the successful bills and the ledger entries
      those of the tasks that leave one, both in order; nothing deletes the
      ledger. */
  lemma DownloadBillsCoverage(script: string, bills: seq<Descriptor>, concurrency: nat,
                              backend: Descriptor -> Fetch<()>, clock: Descriptor -> string)
    requires concurrency > 0
    ensures var t := DownloadBills(script, bills, concurrency, backend, clock);
            && Requests(t) == Select(bills, (_: Descriptor) => true, (d: Descriptor) => Document(d.id))
            && Files(t) == Select(bills, (d: Descriptor) => backend(d).Ok(), (d: Descriptor) => PdfName(d.date))
            && Ledger(t) == Select(bills, (d: Descriptor) => TaskEntry(clock(d), script, d, backend(d)).Some?,
                                   (d: Descriptor) => EntryText(TaskEntry(clock(d), script, d, backend(d))))
            && KeepsLedger(t)
  {
    var task := Task(script, backend, clock);
    BatchesFlatten(bills, concurrency);
    BatchEffectsFlatten(Batches(bills, concurrency), task);
    FlatMapProjections(bills, task, (d: Descriptor) => backend(d).Ok(), (d: Descriptor) => PdfName(d.date),
                       (d: Descriptor) => TaskEntry(clock(d), script, d, backend(d)).Some?,
                       (d: Descriptor) => EntryText(TaskEntry(clock(d), script, d, backend(d))),
                       (d: Descriptor) => Document(d.id));
    FlatMapKeepsLedger(bills, task);
  }

  // ---------------------------------------------------------------------
  // The script.

  /** The whole script. The ledger is deleted first, in both modes; two
      arguments then download one bill in a batch of one; otherwise the
      history is read and its bills downloaded in batches of three. */
  function Main(argv: seq<string>, startYear: int, endYear: int, pages: int -> Fetch<HistoryPage>,
                backend: Descriptor -> Fetch<()>, clock: Descriptor -> string): Run
  {
    var script := ScriptOf(argv);
    match SingleItem(argv)
    case Some(d) => Run([DeleteLedger] + DownloadBills(script, [d], 1, backend, clock), Finished)
    case None =>
      Run([DeleteLedger] + FullRun(script, GetBillsHistory(Windows(startYear, endYear), pages), backend, clock),
          Finished)
  }

  /** A full run after the reset: discovery, the announced count, and the
      batches of three. */
  function FullRun(script: string, h: History, backend: Descriptor -> Fetch<()>,
                   clock: Descriptor -> string): seq<Effect>
  {
    h.effects + [Announce(|h.bills|)] + DownloadBills(script, h.bills, DefaultBatch, backend, clock)
  }

  /** A full run announces exactly the bills discovery kept, requests each
      of them once after the windows, in discovery order, saves the
      successful ones, logs after discovery's entries one entry per task
      that leaves one, and never deletes the ledger. */
  lemma FullRunDownloads(script: string, h: History, backend: Descriptor -> Fetch<()>,
                         clock: Descriptor -> string)
    requires Files(h.effects) == [] && KeepsLedger(h.effects)
    ensures var t := FullRun(script, h, backend, clock);
            && t[..|h.effects|] == h.effects
            && t[|h.effects|] == Announce(|h.bills|)
            && Requests(t) == Requests(h.effects)
                              + Select(h.bills, (_: Descriptor) => true, (d: Descriptor) => Document(d.id))
            && Files(t) == Select(h.bills, (d: Descriptor) => backend(d).Ok(), (d: Descriptor) => PdfName(d.date))
            && Ledger(t) == Ledger(h.effects)
                            + Select(h.bills, (d: Descriptor) => TaskEntry(clock(d), script, d, backend(d)).Some?,
                                     (d: Descriptor) => EntryText(TaskEntry(clock(d), script, d, backend(d))))
            && KeepsLedger(t)
  {
    var p := h.effects + [Announce(|h.bills|)];
    var t := DownloadBills(script, h.bills, DefaultBatch, backend, clock);
    DownloadBillsCoverage(script, h.bills, DefaultBatch, backend, clock);
    Announced(h.effects, |h.bills|);
    ProjectionsAppend(p, t);
    KeepsLedgerAppend(p, t);
  }

  /** The announcement adds nothing to the projections. */
  lemma Announced(t: seq<Effect>, count: int)
    requires KeepsLedger(t)
    ensures var p := t + [Announce(count)];
            && Requests(p) == Requests(t) && Files(p) == Files(t) && Ledger(p) == Ledger(t)
            && KeepsLedger(p)
  {
    ProjectionsOne(Announce(count));
    ProjectionsAppend(t, [Announce(count)]);
    KeepsLedgerAppend(t, [Announce(count)]);
  }

  /** After any run the ledger holds that run's entries and nothing from
      before. */
  lemma LedgerHoldsThisRunOnly(argv: seq<string>, startYear: int, endYear: int, pages: int -> Fetch<HistoryPage>,
                               backend: Descriptor -> Fetch<()>, clock: Descriptor -> string, prior: seq<string>)
    ensures var r := Main(argv, startYear, endYear, pages, backend, clock);
            ApplyLedger(prior, r.effects) == Ledger(r.effects)
  {
    var script := ScriptOf(argv);
    var r := Main(argv, startYear, endYear, pages, backend, clock);
    match SingleItem(argv)
    case Some(d) =>
      DownloadBillsCoverage(script, [d], 1, backend, clock);
      assert r.effects[1..] == DownloadBills(script, [d], 1, backend, clock);
      ResetLedger(prior, r.effects);
    case None =>
      var h := GetBillsHistory(Windows(startYear, endYear), pages);
      FullRunDownloads(script, h, backend, clock);
      assert r.effects[1..] == FullRun(script, h, backend, clock);
      ResetLedger(prior, r.effects);
  }

  /** With two arguments the script resets the ledger and downloads exactly
      that one bill: no window is requested and nothing is announced. */
  lemma SingleBillMode(argv: seq<string>, startYear: int, endYear: int, pages: int -> Fetch<HistoryPage>,
                       backend: Descriptor -> Fetch<()>, clock: Descriptor -> string)
    requires |argv| >= 4 && argv[2] != "" && argv[3] != ""
    ensures var r := Main(argv, startYear, endYear, pages, backend, clock);
            var d := Descriptor(argv[2], argv[3]);
            && r.effects[0] == DeleteLedger
            && Requests(r.effects) == [Document(argv[2])]
            && Files(r.effects) == (if backend(d).Ok() then [PdfName(argv[3])] else [])
            && Ledger(r.effects) == (if TaskEntry(clock(d), ScriptOf(argv), d, backend(d)).Some?
                                     then [TaskEntry(clock(d), ScriptOf(argv), d, backend(d)).value] else [])
            && (forall i :: 0 <= i < |r.effects| ==> !r.effects[i].Announce?)
            && r.ending == Finished
  {
    var r := Main(argv, startYear, endYear, pages, backend, clock);
    var d := Descriptor(argv[2], argv[3]);
    var t := DownloadTask(clock(d), ScriptOf(argv), d, backend(d));
    assert SingleItem(argv) == Some(d);
    OneBillBatch(ScriptOf(argv), d, backend, clock);
    assert r.effects == [DeleteLedger] + t;
    ProjectionsOne(DeleteLedger);
    ProjectionsAppend([DeleteLedger], t);
    ResetAnnouncesNothing(t);
  }

  /** Deleting the ledger before a trace that announces nothing announces
      nothing either. */
  lemma ResetAnnouncesNothing(t: seq<Effect>)
    requires forall i :: 0 <= i < |t| ==> !t[i].Announce?
    ensures var e := [DeleteLedger] + t;
            forall i :: 0 <= i < |e| ==> !e[i].Announce?
  {
    var e := [DeleteLedger] + t;
    forall i | 0 < i < |e|
      ensures !e[i].Announce?
    {
      assert e[i] == t[i - 1];
    }
  }

  /** A single bill in a batch of one is just its task. */
  lemma OneBillBatch(script: string, d: Descriptor, backend: Descriptor -> Fetch<()>, clock: Descriptor -> string)
    ensures DownloadBills(script, [d], 1, backend, clock) == DownloadTask(clock(d), script, d, backend(d))
  {
    var task := Task(script, backend, clock);
    BatchesFlatten([d], 1);
    BatchEffectsFlatten(Batches([d], 1), task);
    assert FlatMap([d], task) == task(d) + FlatMap([d][1..], task);
    assert [d][1..] == [];
  }
}
