/** Three Ireland: the bills endpoint returns only the latest bills, newest
    first; the script extends that list down to bill number 1 by stepping
    one calendar month back per bill, then hands everything to the shared
    pool of five workers. */
module Three {
  import opened Values
  import opened Text
  import opened Calendar
  import opened Engine
  import opened Pool

  /** The worker count `downloadBills` uses when none is given. */
  const DefaultConcurrency: nat := 5

  /** The provider name Three's ledger entries start with. */
  const Provider := "Three"

  /** One item of the bills response: `data.billNumber` and
      `data.billCloseDate` (an ISO timestamp). */
  datatype BillRecord = BillRecord(billNumber: int, billCloseDate: string)

  /** The descriptor of a listed bill: its number and the close date up to
      the first 'T'. */
  function Listed(b: BillRecord): Descriptor
  {
    Descriptor(IntToString(b.billNumber), CutAt(b.billCloseDate, 'T'))
  }

  /** A listed date is the close date cut before its time part: a prefix
      with no 'T' in it, ending at the end of the close date or just before
      its first 'T'. */
  lemma ListedDate(b: BillRecord)
    ensures 'T' !in Listed(b).date && Listed(b).date <= b.billCloseDate
    ensures |Listed(b).date| < |b.billCloseDate| ==> b.billCloseDate[|Listed(b).date|] == 'T'
  {
    CutAtPrefix(b.billCloseDate, 'T');
  }

  // ---------------------------------------------------------------------
  // Extending the history.

  /** The days reached by `n` successive one-month steps back from
      `anchor`: each is `setMonth(getMonth() - 1)` of the one before. */
  function MonthsBack(anchor: CalendarDay, n: nat): (r: seq<CalendarDay>)
    ensures |r| == n
    ensures n > 0 ==> r[0] == StepBackMonth(anchor)
    decreases n
  {
    if n == 0 then [] else [StepBackMonth(anchor)] + MonthsBack(StepBackMonth(anchor), n - 1)
  }

  /** Every day after the first is one month step back from the day
      before it. */
  lemma {:induction false} MonthsBackStep(anchor: CalendarDay, n: nat, k: nat)
    requires 0 < k < n
    ensures MonthsBack(anchor, n)[k] == StepBackMonth(MonthsBack(anchor, n)[k - 1])
    decreases n
  {
    var p := StepBackMonth(anchor);
    var rest := MonthsBack(p, n - 1);
    assert MonthsBack(anchor, n) == [p] + rest;
    if k > 1 {
      MonthsBackStep(p, n - 1, k - 1);
    }
  }

  /** Every step goes strictly back in time, so the extended dates are
      strictly decreasing and all before the anchor. */
  lemma {:induction false} MonthsBackDescending(anchor: CalendarDay, n: nat)
    ensures forall j, k :: 0 <= j < k < n ==> Before(MonthsBack(anchor, n)[k], MonthsBack(anchor, n)[j])
    ensures forall k :: 0 <= k < n ==> Before(MonthsBack(anchor, n)[k], anchor)
    decreases n
  {
    if n > 0 {
      var p := StepBackMonth(anchor);
      var r := MonthsBack(anchor, n);
      var rest := MonthsBack(p, n - 1);
      MonthsBackDescending(p, n - 1);
      assert r == [p] + rest;
      forall k | 0 < k < n
        ensures Before(r[k], anchor)
      {
        assert r[k] == rest[k - 1];
        BeforeTransitive(r[k], p, anchor);
      }
      forall j, k | 0 <= j < k < n
        ensures Before(r[k], r[j])
      {
        assert r[k] == rest[k - 1];
        if j > 0 {
          assert r[j] == rest[j - 1];
          assert 0 <= j - 1 < k - 1 < n - 1;
          assert Before(rest[k - 1], rest[j - 1]);
        } else {
          assert r[0] == p;
          assert Before(rest[k - 1], p);
        }
      }
    }
  }

  /** Each step back loses at most one year. */
  lemma {:induction false} MonthsBackYears(anchor: CalendarDay, n: nat)
    ensures forall k :: 0 <= k < n ==> anchor.year - k - 1 <= MonthsBack(anchor, n)[k].year <= anchor.year
    decreases n
  {
    if n > 0 {
      var p := StepBackMonth(anchor);
      var r := MonthsBack(anchor, n);
      MonthsBackYears(p, n - 1);
      assert r == [p] + MonthsBack(p, n - 1);
      assert anchor.year - 1 <= p.year <= anchor.year;
    }
  }

  /** A bill the loop invents: its number and the day it is dated. */
  datatype Invented = Invented(number: int, day: CalendarDay)

  /** The descriptor the loop pushes for an invented bill: the number as
      text and the date part of `toISOString`. */
  function Describe(b: Invented): Descriptor
  {
    Descriptor(IntToString(b.number), IsoDate(b.day))
  }

  /** The descriptors of a run of invented bills, in order. */
  function Described(s: seq<Invented>): (r: seq<Descriptor>)
    ensures |r| == |s|
  {
    seq(|s|, k requires 0 <= k < |s| => Describe(s[k]))
  }

  /** Describing a run taken one bill longer appends that bill's
      descriptor. */
  lemma DescribedTakeOneMore(s: seq<Invented>, k: nat)
    requires k < |s|
    ensures Described(s[..k + 1]) == Described(s[..k]) + [Describe(s[k])]
  {
    TakeOneMore(s, k);
    var a, b := Described(s[..k + 1]), Described(s[..k]) + [Describe(s[k])];
    assert |a| == |b|;
    forall i | 0 <= i < |a|
      ensures a[i] == b[i]
    {
      if i < k {
        assert s[..k + 1][i] == s[..k][i];
      }
    }
  }

  /** The extension stays within the days a Date can hold: its earliest
      day, `n` month steps back from the anchor, is one of them. */
  predicate BackfillInRange(anchor: CalendarDay, n: nat)
  {
    n == 0 || InTimeRange(MonthsBack(anchor, n)[n - 1])
  }

  /** When the anchor and the earliest stepped day are in range, so is
      every stepped day between them. */
  lemma BackfillInRangeAll(anchor: CalendarDay, n: nat, k: nat)
    requires InTimeRange(anchor) && BackfillInRange(anchor, n) && k < n
    ensures InTimeRange(MonthsBack(anchor, n)[k])
  {
    var r := MonthsBack(anchor, n);
    MonthsBackDescending(anchor, n);
    DayNumberOrder(r[k], anchor);
    if k < n - 1 {
      DayNumberOrder(r[n - 1], r[k]);
    }
    TimeRangeDays(r[k]);
    TimeRangeDays(r[n - 1]);
    TimeRangeDays(anchor);
  }

  /** The bills the loop invents below the oldest listed one: numbers
      `n`, `n - 1`, …, 1, each dated one month before the previous bill. */
  function Backfill(n: nat, anchor: CalendarDay): (r: seq<Invented>)
    ensures |r| == n
    decreases n
  {
    if n == 0 then []
    else
      var p := StepBackMonth(anchor);
      [Invented(n, p)] + Backfill(n - 1, p)
  }

  /** The `k`-th invented bill is number `n - k` and is dated on the
      `k`-th day of the month steps. */
  lemma {:induction false} BackfillElement(n: nat, anchor: CalendarDay, k: nat)
    requires k < n
    ensures Backfill(n, anchor)[k] == Invented(n - k, MonthsBack(anchor, n)[k])
    decreases n
  {
    var p := StepBackMonth(anchor);
    assert Backfill(n, anchor) == [Invented(n, p)] + Backfill(n - 1, p);
    assert MonthsBack(anchor, n) == [p] + MonthsBack(p, n - 1);
    if k > 0 {
      BackfillElement(n - 1, p, k - 1);
    }
  }

  /** Each invented date reads back as the day the month steps reached,
      whenever that day is one a Date can hold. */
  lemma BackfillDatesReadBack(n: nat, anchor: CalendarDay, k: int)
    requires 0 <= k < n
    requires InTimeRange(MonthsBack(anchor, n)[k])
    ensures ParseIsoDate(Described(Backfill(n, anchor))[k].date) == Some(MonthsBack(anchor, n)[k])
  {
    BackfillElement(n, anchor, k);
    IsoRoundTrip(MonthsBack(anchor, n)[k]);
  }

  /** Different bill numbers print differently. */
  lemma IdsDiffer(a: nat, b: nat)
    requires a != b
    ensures IntToString(a) != IntToString(b)
  {
    ParseNatToString(a);
    ParseNatToString(b);
  }

  /** The invented bill numbers fall by one from `n` down to 1, so no two
      invented bills share a number. */
  lemma BackfillIdsDistinct(n: nat, anchor: CalendarDay)
    ensures var r := Described(Backfill(n, anchor));
            forall j, k :: 0 <= j < k < n ==> r[j].id != r[k].id
  {
    var b := Backfill(n, anchor);
    var r := Described(b);
    forall j, k | 0 <= j < k < n
      ensures r[j].id != r[k].id
    {
      assert r[j] == Describe(b[j]) && r[k] == Describe(b[k]);
      BackfillElement(n, anchor, j);
      BackfillElement(n, anchor, k);
      IdsDiffer(n - j, n - k);
    }
  }

  // ---------------------------------------------------------------------
  // Discovery.

  /** `getListOfBills`. A non-ok status yields `undefined`. There is no
      `try` around the request: a thrown request, an empty list (whose
      last element is `undefined`, so reading its `billNumber` throws) or,
      when bills must be invented, a last date that does not parse or a
      month step that leaves the days a Date can hold (`toISOString` of
      an invalid date) escapes to the top level. Otherwise the listed bills come first, unchanged
      and in response order, followed by the invented bills
      `oldest - 1`, …, 1. */
  function ListOfBills(o: Fetch<seq<BillRecord>>): (r: Discovery<Descriptor>)
    ensures r.Undefined? <==> o.NotOk()
    ensures r != False
  {
    match o
    case Thrown(_) => Escaped
    case Response(_, body) =>
      if o.NotOk() then Discovery.Undefined
      else if |body| == 0 then Escaped
      else
        var oldest := Oldest(o).billNumber;
        if oldest - 1 > 0 then
          match AnchorOf(o)
          case None => Escaped
          case Some(anchor) =>
            if BackfillInRange(anchor, oldest - 1) then Found(ListedPart(o) + Described(Backfill(oldest - 1, anchor)))
            else Escaped
        else
          Found(ListedPart(o))
  }

  /** The listed bills, in response order. */
  function ListedPart(o: Fetch<seq<BillRecord>>): (r: seq<Descriptor>)
    requires o.Response?
    ensures |r| == |o.body|
  {
    seq(|o.body|, i requires 0 <= i < |o.body| => Listed(o.body[i]))
  }

  /** The listed bill that decides how far the history is extended. */
  function Oldest(o: Fetch<seq<BillRecord>>): (b: BillRecord)
    requires o.Response? && |o.body| > 0
  {
    o.body[|o.body| - 1]
  }

  /** The day the history is extended from, when bills must be invented
      and the last listed date reads. */
  function AnchorOf(o: Fetch<seq<BillRecord>>): Option<CalendarDay>
    requires o.Response? && |o.body| > 0
  {
    ParseIsoDate(Listed(Oldest(o)).date)
  }

  /** Discovery escapes exactly on a thrown request, an empty list, or an
      unreadable last date when bills must be invented. */
  lemma ListOfBillsEscapes(o: Fetch<seq<BillRecord>>)
    ensures ListOfBills(o).Escaped? <==>
              || o.Thrown?
              || (o.Ok() && |o.body| == 0)
              || (o.Ok() && |o.body| > 0 && Oldest(o).billNumber > 1 && AnchorOf(o).None?)
              || (o.Ok() && |o.body| > 0 && Oldest(o).billNumber > 1 && AnchorOf(o).Some?
                  && !BackfillInRange(AnchorOf(o).value, Oldest(o).billNumber - 1))
  {
  }

  /** A found list with bills to invent is the listed bills followed by
      the invented ones. */
  lemma FoundShape(o: Fetch<seq<BillRecord>>)
    requires ListOfBills(o).Found?
    ensures o.Ok() && |o.body| > 0
    ensures Oldest(o).billNumber > 1 ==>
              && AnchorOf(o).Some?
              && BackfillInRange(AnchorOf(o).value, Oldest(o).billNumber - 1)
              && ListOfBills(o).items
                 == ListedPart(o) + Described(Backfill(Oldest(o).billNumber - 1, AnchorOf(o).value))
    ensures Oldest(o).billNumber <= 1 ==> ListOfBills(o).items == ListedPart(o)
  {
  }

  /** Behind any prefix, the `j`-th invented bill is number `n - j`. */
  lemma InventedIds(listed: seq<Descriptor>, n: nat, anchor: CalendarDay)
    ensures var items := listed + Described(Backfill(n, anchor));
            forall k :: |listed| <= k < |items| ==> items[k].id == IntToString(n - (k - |listed|))
  {
    var b := Backfill(n, anchor);
    var items := listed + Described(b);
    forall k | |listed| <= k < |items|
      ensures items[k].id == IntToString(n - (k - |listed|))
    {
      var j := k - |listed|;
      assert items[k] == Described(b)[j] == Describe(b[j]);
      BackfillElement(n, anchor, j);
    }
  }

  /** The extension continues the last listed bill: behind the listed
      bills, the `j`-th invented bill is number `n - j`, dated on the `j`-th
      day of the month steps, which lies before the anchor and before the
      day of the invented bill in front of it. */
  lemma ExtensionGoesBack(listed: seq<Descriptor>, n: nat, anchor: CalendarDay)
    ensures var items := listed + Described(Backfill(n, anchor));
            forall j :: 0 <= j < n ==>
              var day := MonthsBack(anchor, n)[j];
              && items[|listed| + j] == Describe(Invented(n - j, day))
              && Before(day, anchor)
              && (j > 0 ==> Before(day, MonthsBack(anchor, n)[j - 1]))
  {
    var b := Backfill(n, anchor);
    var items := listed + Described(b);
    MonthsBackDescending(anchor, n);
    forall j | 0 <= j < n
      ensures items[|listed| + j] == Describe(Invented(n - j, MonthsBack(anchor, n)[j]))
    {
      assert items[|listed| + j] == Described(b)[j] == Describe(b[j]);
      BackfillElement(n, anchor, j);
    }
  }

  /** A found list starts with the listed bills, unchanged and in response
      order, and continues with the invented bills numbered
      `oldest - 1` down to 1; nothing is invented when the oldest listed
      bill is number 1 (or lower). */
  lemma ListOfBillsFound(o: Fetch<seq<BillRecord>>)
    requires ListOfBills(o).Found?
    ensures o.Ok() && |o.body| > 0
    ensures var items := ListOfBills(o).items;
            var oldest := Oldest(o).billNumber;
            var extra := if oldest > 1 then oldest - 1 else 0;
            && |items| == |o.body| + extra
            && (forall i :: 0 <= i < |o.body| ==> items[i] == Listed(o.body[i]))
            && (forall k :: |o.body| <= k < |items| ==> items[k].id == IntToString(extra - (k - |o.body|)))
  {
    FoundShape(o);
    var items := ListOfBills(o).items;
    var listed := ListedPart(o);
    var oldest := Oldest(o).billNumber;
    if oldest > 1 {
      var invented := Described(Backfill(oldest - 1, AnchorOf(o).value));
      assert items == listed + invented;
      InventedIds(listed, oldest - 1, AnchorOf(o).value);
      forall i | 0 <= i < |o.body|
        ensures items[i] == Listed(o.body[i])
      {
        assert items[i] == listed[i];
      }
    } else {
      assert items == listed;
    }
  }

  lemma LastOfPrefix<T>(a: seq<T>, b: seq<T>, k: nat)
    requires 0 < k <= |b|
    ensures (a + b[..k])[|a + b[..k]| - 1] == b[k - 1]
  {
  }

  lemma TakeOneMore<T>(s: seq<T>, k: nat)
    requires k < |s|
    ensures s[..k + 1] == s[..k] + [s[k]]
  {
  }

  /** The day the loop has reached after `k` passes. */
  function DayReached(anchor: CalendarDay, n: nat, k: nat): CalendarDay
    requires k <= n
  {
    if k == 0 then anchor else MonthsBack(anchor, n)[k - 1]
  }

  /** The `k`-th invented bill is dated one step back from the day reached. */
  lemma BackfillAt(n: nat, anchor: CalendarDay, k: nat)
    requires k < n
    ensures Backfill(n, anchor)[k] == Invented(n - k, StepBackMonth(DayReached(anchor, n, k)))
  {
    BackfillElement(n, anchor, k);
    if k > 0 {
      MonthsBackStep(anchor, n, k);
    }
  }

  /** After `k > 0` passes the last date in the list reads back as the
      day reached. */
  lemma BackfillStepRead(listed: seq<Descriptor>, n: nat, anchor: CalendarDay, k: nat)
    requires 0 < k < n
    requires InTimeRange(DayReached(anchor, n, k))
    ensures var data := listed + Described(Backfill(n, anchor))[..k];
            ParseIsoDate(data[|data| - 1].date) == Some(DayReached(anchor, n, k))
  {
    var b := Described(Backfill(n, anchor));
    LastOfPrefix(listed, b, k);
    BackfillDatesReadBack(n, anchor, k - 1);
  }

  /** Stepping back from the day reached appends the next invented bill. */
  lemma BackfillStepAppend(n: nat, anchor: CalendarDay, k: nat)
    requires k < n
    ensures Described(Backfill(n, anchor))[..k + 1]
            == Described(Backfill(n, anchor))[..k] + [Describe(Invented(n - k, StepBackMonth(DayReached(anchor, n, k))))]
  {
    BackfillAt(n, anchor, k);
    TakeOneMore(Described(Backfill(n, anchor)), k);
  }

  /** One pass of the extension loop reads the day reached, as long as a
      Date can hold it, steps it back to the next day reached and appends
      the next invented bill. */
  lemma BackfillStep(listed: seq<Descriptor>, data: seq<Descriptor>, n: nat, anchor: CalendarDay, k: nat)
    requires |listed| > 0 && k < n
    requires ParseIsoDate(listed[|listed| - 1].date) == Some(anchor)
    requires InTimeRange(DayReached(anchor, n, k))
    requires data == listed + Described(Backfill(n, anchor))[..k]
    ensures ParseIsoDate(data[|data| - 1].date) == Some(DayReached(anchor, n, k))
    ensures DayReached(anchor, n, k + 1) == StepBackMonth(DayReached(anchor, n, k))
    ensures data + [Describe(Invented(n - k, StepBackMonth(DayReached(anchor, n, k))))]
            == listed + Described(Backfill(n, anchor))[..k + 1]
  {
    BackfillAt(n, anchor, k);
    BackfillElement(n, anchor, k);
    var next := Describe(Invented(n - k, StepBackMonth(DayReached(anchor, n, k))));
    if k > 0 {
      BackfillStepRead(listed, n, anchor, k);
    } else {
      assert data == listed;
    }
    BackfillStepAppend(n, anchor, k);
    AppendAssociates(listed, Described(Backfill(n, anchor))[..k], [next]);
  }

  /** Within a backfill that stays in range, every day reached is one a
      Date can hold. */
  lemma BackfillStepInRange(anchor: CalendarDay, n: nat, k: nat)
    requires InTimeRange(anchor) && BackfillInRange(anchor, n) && k < n
    ensures InTimeRange(DayReached(anchor, n, k + 1))
  {
    BackfillInRangeAll(anchor, n, k);
  }

  /** The extension loop as the script writes it: each pass re-reads the
      last date in the list (`new Date(... + "T12:00:00Z")`), steps it back
      a month, prints it with `toISOString` and appends the next lower bill
      number. An unreadable date, or a step that leaves the days a Date can
      hold, ends it with `None` (the script throws). Otherwise it builds
      exactly the listed bills followed by the invented ones. */
  method ExtendHistory(listed: seq<Descriptor>, oldest: int) returns (r: Option<seq<Descriptor>>)
    requires |listed| > 0
    ensures oldest <= 1 ==> r == Some(listed)
    ensures oldest > 1 ==>
              var a := ParseIsoDate(listed[|listed| - 1].date);
              && (a.None? ==> r == None)
              && (a.Some? && !BackfillInRange(a.value, oldest - 1) ==> r == None)
              && (a.Some? && BackfillInRange(a.value, oldest - 1) ==>
                    r == Some(listed + Described(Backfill(oldest - 1, a.value))))
  {
    var n: nat := if oldest > 1 then oldest - 1 else 0;
    var a := ParseIsoDate(listed[|listed| - 1].date);
    var readable := n > 0 && a.Some?;
    var anchor: CalendarDay := if readable then a.value else Date(1970, 1, 1);
    var data := listed;
    var i := n;
    while i > 0
      invariant 0 <= i <= n
      invariant |data| == |listed| + (n - i)
      invariant i == n ==> data == listed
      invariant n > 0 && a.None? ==> i == n
      invariant readable ==> data == listed + Described(Backfill(n, anchor))[..n - i]
      invariant readable ==> InTimeRange(DayReached(anchor, n, n - i))
    {
      ghost var k := n - i;
      if readable {
        BackfillStep(listed, data, n, anchor, k);
        if BackfillInRange(anchor, n) {
          BackfillStepInRange(anchor, n, k);
        }
      }
      var last := ParseIsoDate(data[|data| - 1].date);
      if last.None? {
        assert !readable;
        return None;
      }
      var p := StepBackMonth(last.value);
      if !InTimeRange(p) {
        assert readable ==> p == DayReached(anchor, n, k + 1) && !BackfillInRange(anchor, n);
        return None;
      }
      var next := Describe(Invented(i, p));
      assert readable ==> next == Describe(Invented(n - k, StepBackMonth(DayReached(anchor, n, k))));
      data := data + [next];
      i := i - 1;
    }
    if readable {
      assert Described(Backfill(n, anchor))[..n] == Described(Backfill(n, anchor));
    }
    return Some(data);
  }

  /** A close date of 2024-05-10 is extended back through the tenth of
      April, March, February and January. */
  lemma ExtensionExample()
    ensures MonthsBack(Date(2024, 5, 10), 4)
            == [Date(2024, 4, 10), Date(2024, 3, 10), Date(2024, 2, 10), Date(2024, 1, 10)]
  {
  }

  /** From the 31st of March the step lands on the 2nd of March (there is
      no 31st of February in 2024), so two invented bills fall in March
      and the next one on the 2nd of February. */
  lemma ExtensionOverflowExample()
    ensures MonthsBack(Date(2024, 3, 31), 2) == [Date(2024, 3, 2), Date(2024, 2, 2)]
  {
  }

  // ---------------------------------------------------------------------
  // The script.

  /** The whole script: two arguments download one bill with one worker;
      otherwise the list, the announcement and the pool of five. An
      `undefined` list exits; an escaped exception crashes. */
  function Main(argv: seq<string>, listing: Fetch<seq<BillRecord>>, backend: Descriptor -> Fetch<()>): Run
  {
    var script := ScriptOf(argv);
    match SingleItem(argv)
    case Some(d) => Run(DownloadBills(Provider, script, [d], 1, backend), Finished)
    case None =>
      var asked := [Request(BillList)];
      match ListOfBills(listing)
      case Found(bills) => Run(FullRun(script, bills, backend), Finished)
      case Escaped => Run(asked, Crashed)
      case _ => Run(asked, Exited)
  }

  /** With two arguments the script downloads exactly that one bill and
      never asks for the list. */
  lemma SingleBillMode(argv: seq<string>, listing: Fetch<seq<BillRecord>>, backend: Descriptor -> Fetch<()>)
    requires |argv| >= 4 && argv[2] != "" && argv[3] != ""
    ensures var r := Main(argv, listing, backend);
            var d := Descriptor(argv[2], argv[3]);
            && Requests(r.effects) == [Document(argv[2])]
            && Files(r.effects) == (if backend(d).Ok() then [PdfName(argv[3])] else [])
            && Ledger(r.effects) == (if backend(d).NotOk() then [FailureEntry(Provider, ScriptOf(argv), d)] else [])
            && (forall i :: 0 <= i < |r.effects| ==> !r.effects[i].Announce?)
            && r.ending == Finished
  {
    SingleBillDownload(Provider, ScriptOf(argv), Descriptor(argv[2], argv[3]), backend);
  }

  /** A full run once the list has arrived: the list request, the
      announcement and the pool of five. */
  function FullRun(script: string, bills: seq<Descriptor>, backend: Descriptor -> Fetch<()>): seq<Effect>
  {
    [Request(BillList), Announce(|bills|)] + DownloadBills(Provider, script, bills, DefaultConcurrency, backend)
  }

  /** A full run whose list arrives announces every bill, the invented ones
      included, and requests each of them once, in list order, after the
      list itself; it never deletes the ledger. */
  lemma FullRunDownloads(script: string, bills: seq<Descriptor>, backend: Descriptor -> Fetch<()>)
    ensures var t := FullRun(script, bills, backend);
            && t[1] == Announce(|bills|)
            && Requests(t) == [BillList] + Select(bills, (_: Descriptor) => true, (d: Descriptor) => Document(d.id))
            && Files(t) == Select(bills, (d: Descriptor) => backend(d).Ok(), (d: Descriptor) => PdfName(d.date))
            && Ledger(t) == Select(bills, (d: Descriptor) => backend(d).NotOk(),
                                   (d: Descriptor) => FailureEntry(Provider, script, d))
            && KeepsLedger(t)
  {
    var p := [Request(BillList), Announce(|bills|)];
    var t := DownloadBills(Provider, script, bills, DefaultConcurrency, backend);
    ListPrefix(|bills|);
    DownloadBillsCoverage(Provider, script, bills, DefaultConcurrency, backend);
    ProjectionsAppend(p, t);
    KeepsLedgerAppend(p, t);
  }

  /** The two effects before the pool. */
  lemma ListPrefix(count: int)
    ensures var p := [Request(BillList), Announce(count)];
            Requests(p) == [BillList] && Files(p) == [] && Ledger(p) == [] && KeepsLedger(p)
  {
    var a, b := Request(BillList), Announce(count);
    assert [a, b] == [a] + [b];
    ProjectionsOne(a);
    ProjectionsOne(b);
    ProjectionsAppend([a], [b]);
  }

  /** A full run whose list arrives is that full run, and finishes. */
  lemma FoundRunIsFullRun(argv: seq<string>, listing: Fetch<seq<BillRecord>>, backend: Descriptor -> Fetch<()>)
    requires SingleItem(argv).None? && ListOfBills(listing).Found?
    ensures Main(argv, listing, backend) == Run(FullRun(ScriptOf(argv), ListOfBills(listing).items, backend), Finished)
  {
  }
}
