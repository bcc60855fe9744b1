/** SSE Airtricity: one transaction-history request, a filter on the
    statement number, then a plain loop over the statements that stops at
    the first outcome it cannot skip. Only a 404 is skipped, with a ledger
    entry; a success writes `<transactionDate>.pdf`. */
module Sse {
  import opened Values
  import opened Text
  import opened Engine

  /** One item of `billingTransactionCollection`. */
  datatype Transaction = Transaction(statementNumber: Slot<string>, transactionDate: Slot<string>)

  /** The parsed history body: its `detail` field, and the collection when
      it is an array (`None` when it is missing, so `.filter` throws). */
  datatype HistoryBody = HistoryBody(detail: Slot<string>, collection: Option<seq<Transaction>>)

  /** The detail text by which the endpoint reports a stale token. */
  const StaleToken := "Failed to verify token"

  // ---------------------------------------------------------------------
  // Discovery.

  /** `.filter(item => item.statementNumber !== null)`: an absent number is
      kept, only `null` is dropped. */
  function Numbered(items: seq<Transaction>): (r: seq<Transaction>)
    ensures |r| <= |items|
    ensures forall t :: t in r <==> t in items && t.statementNumber != Null
    decreases |items|
  {
    if |items| == 0 then []
    else (if items[0].statementNumber != Null then [items[0]] else []) + Numbered(items[1..])
  }

  /** The filter keeps the order of the items it keeps. */
  lemma {:induction false} NumberedAppend(a: seq<Transaction>, b: seq<Transaction>)
    ensures Numbered(a + b) == Numbered(a) + Numbered(b)
    decreases |a|
  {
    if |a| > 0 {
      var h := if a[0].statementNumber != Null then [a[0]] else [];
      assert (a + b)[0] == a[0];
      assert (a + b)[1..] == a[1..] + b;
      assert Numbered(a + b) == h + Numbered(a[1..] + b);
      NumberedAppend(a[1..], b);
      AppendAssociates(h, Numbered(a[1..]), Numbered(b));
    } else {
      assert a + b == b;
    }
  }

  /** A history in which every number is set is kept whole. */
  lemma {:induction false} NumberedKeepsAll(items: seq<Transaction>)
    requires forall i :: 0 <= i < |items| ==> items[i].statementNumber != Null
    ensures Numbered(items) == items
    decreases |items|
  {
    if |items| > 0 {
      NumberedKeepsAll(items[1..]);
    }
  }

  /** `getBillsHistory`. A 401 or a 404 returns `undefined`; any other
      status goes on to the body. A stale-token detail returns `false`; a
      body without a collection, like any exception, is caught and returns
      `[]`; otherwise the numbered items. */
  function GetBillsHistory(o: Fetch<HistoryBody>): (r: Discovery<Transaction>)
    ensures r.Undefined? <==> o.Status(401) || o.Status(404)
    ensures r.False? <==> o.Response? && !o.Status(401) && !o.Status(404) && o.body.detail == Present(StaleToken)
    ensures r != Escaped
    ensures r.Found? ==> forall i :: 0 <= i < |r.items| ==> r.items[i].statementNumber != Null
    ensures o.Thrown? ==> r == Found([])
    ensures o.Response? && !o.Status(401) && !o.Status(404) && o.body.detail != Present(StaleToken) ==>
              r == Found(if o.body.collection.Some? then Numbered(o.body.collection.value) else [])
  {
    match o
    case Thrown(_) => Found([])
    case Response(_, body) =>
      if o.Status(401) || o.Status(404) then Discovery.Undefined
      else if body.detail == Present(StaleToken) then False
      else
        match body.collection
        case None => Found([])
        case Some(items) => Found(Numbered(items))
  }

  // ---------------------------------------------------------------------
  // Downloading.

  /** The ledger entry for a 404. */
  function NotFoundEntry(id: string, date: string): string
  {
    "SSE Airtricity: Bill " + id + " (" + date + ") not found. " + "Not possible to download.\n\n"
  }

  /** The file name the endpoint expects: the date without its dashes. */
  function DownloadName(date: string): (r: string)
    ensures '-' !in r
  {
    RemoveAll(date, '-')
  }

  /** What is requested for a statement. */
  function TargetOf(t: Transaction): Target
  {
    Statement(SlotText(t.statementNumber), DownloadName(SlotText(t.transactionDate)))
  }

  /** The request for a statement, as a one-effect trace. */
  function Ask(t: Transaction): (p: seq<Effect>)
    ensures Requests(p) == [TargetOf(t)] && Files(p) == [] && Ledger(p) == [] && KeepsLedger(p)
  {
    ProjectionsOne(Request(TargetOf(t)));
    [Request(TargetOf(t))]
  }

  /** One pass of the loop as the source writes it. A missing date makes
      `.replaceAll` throw outside the `try`, which kills the script before
      the request. A thrown download reaches the `catch (error)` block, which
      reads `err.message` where only `error` is bound: the handler itself
      throws a ReferenceError, nothing reaches the ledger and the script
      dies. A 401 or any status other than 404 returns from the loop. */
  function ItemStep(t: Transaction, o: Fetch<()>): (s: Step)
    ensures s.Next? <==> t.transactionDate.Present? && (o.Ok() || o.Status(404))
    ensures s.Stop? ==> (s.ending == Crashed <==> !t.transactionDate.Present? || o.Thrown?)
    ensures s.Stop? ==> s.ending == Crashed || s.ending == Halted
  {
    match t.transactionDate
    case Present(date) =>
      var id := SlotText(t.statementNumber);
      if o.Thrown? then Stop(Ask(t), Crashed)
      else if o.Ok() then Next(Ask(t) + [WriteFile(PdfName(date))])
      else if o.Status(404) then Next(Ask(t) + [AppendLedger(NotFoundEntry(id, date))])
      else Stop(Ask(t), Halted)
    case _ => Stop([], Crashed)
  }

  /** The same pass with the `catch` block doing what it evidently means
      to: log the exception to the ledger and return from the loop. It
      differs from the coded pass only on a thrown download. */
  function ItemStepIntended(t: Transaction, o: Fetch<()>): (s: Step)
    ensures !(o.Thrown? && t.transactionDate.Present?) ==> s == ItemStep(t, o)
    ensures s.Next? <==> ItemStep(t, o).Next?
    ensures s.Stop? ==> (s.ending == Crashed <==> !t.transactionDate.Present?)
  {
    if o.Thrown? && t.transactionDate.Present? then
      Stop(Ask(t) + [AppendLedger(ExceptionEntry(SlotText(t.statementNumber), o.message))], Halted)
    else
      ItemStep(t, o)
  }

  /** As written, an exception during a download leaves no ledger entry and
      crashes the run, after the request. */
  lemma ExceptionCrashesAsWritten(t: Transaction, message: string)
    requires t.transactionDate.Present?
    ensures var s := ItemStep(t, Thrown(message));
            && s.Stop? && s.ending == Crashed
            && Requests(s.effects) == [TargetOf(t)]
            && Ledger(s.effects) == [] && Files(s.effects) == []
  {
  }

  /** As intended, an exception during a download leaves exactly one ledger
      entry, naming the statement and the message, and ends the loop. */
  lemma ExceptionIsLogged(t: Transaction, message: string)
    requires t.transactionDate.Present?
    ensures var s := ItemStepIntended(t, Thrown(message));
            && s.Stop? && s.ending == Halted
            && Requests(s.effects) == [TargetOf(t)]
            && Ledger(s.effects) == [ExceptionEntry(SlotText(t.statementNumber), message)]
            && Files(s.effects) == []
            && KeepsLedger(s.effects)
  {
    var e := AppendLedger(ExceptionEntry(SlotText(t.statementNumber), message));
    ProjectionsOne(e);
    ProjectionsAppend(Ask(t), [e]);
    KeepsLedgerAppend(Ask(t), [e]);
  }

  /** The projections of a pass that lets the loop go on. */
  lemma NextProjections(t: Transaction, o: Fetch<()>)
    requires ItemStep(t, o).Next?
    ensures var e := ItemStep(t, o).effects;
            && Requests(e) == [TargetOf(t)]
            && Files(e) == (if o.Ok() then [PdfName(t.transactionDate.value)] else [])
            && Ledger(e) == (if o.Ok() then [] else [NotFoundEntry(SlotText(t.statementNumber), t.transactionDate.value)])
            && KeepsLedger(e)
  {
    var date := t.transactionDate.value;
    var id := SlotText(t.statementNumber);
    if o.Ok() {
      assert ItemStep(t, o) == Next(Ask(t) + [WriteFile(PdfName(date))]);
      ProjectionsOne(WriteFile(PdfName(date)));
      ProjectionsAppend(Ask(t), [WriteFile(PdfName(date))]);
      KeepsLedgerAppend(Ask(t), [WriteFile(PdfName(date))]);
    } else {
      assert ItemStep(t, o) == Next(Ask(t) + [AppendLedger(NotFoundEntry(id, date))]);
      ProjectionsOne(AppendLedger(NotFoundEntry(id, date)));
      ProjectionsAppend(Ask(t), [AppendLedger(NotFoundEntry(id, date))]);
      KeepsLedgerAppend(Ask(t), [AppendLedger(NotFoundEntry(id, date))]);
    }
  }

  /** The pass for each statement, given the backend's answers. */
  function Pass(backend: Transaction -> Fetch<()>): Transaction -> Step
  {
    (t: Transaction) => ItemStep(t, backend(t))
  }

  /** The intended pass for each statement. */
  function PassIntended(backend: Transaction -> Fetch<()>): Transaction -> Step
  {
    (t: Transaction) => ItemStepIntended(t, backend(t))
  }

  /** The statements a pass saves: those answered ok. */
  function Saved(backend: Transaction -> Fetch<()>): Transaction -> bool
  {
    (t: Transaction) => backend(t).Ok()
  }

  /** The statements a pass that goes on logs as missing: the others. */
  function Missing(backend: Transaction -> Fetch<()>): Transaction -> bool
  {
    (t: Transaction) => !backend(t).Ok()
  }

  function Every(t: Transaction): bool
  {
    true
  }

  /** The file a saved statement is written to. */
  function FileOf(t: Transaction): string
  {
    PdfName(SlotText(t.transactionDate))
  }

  /** The entry a missing statement leaves. */
  function MissingEntry(t: Transaction): string
  {
    NotFoundEntry(SlotText(t.statementNumber), SlotText(t.transactionDate))
  }

  /** The loop finishes exactly when every statement has a date and is
      either saved or missing; any other outcome ends it early. */
  lemma StatementsAllHandled(items: seq<Transaction>, backend: Transaction -> Fetch<()>)
    ensures Walk(items, Pass(backend)).ending == Finished
            <==> forall i :: 0 <= i < |items| ==>
                   items[i].transactionDate.Present? && (backend(items[i]).Ok() || backend(items[i]).Status(404))
  {
    WalkFinishes(items, Pass(backend));
  }

  /** When no statement stops the loop, every statement is requested once,
      in order; the successful ones are saved and the missing ones logged,
      both in order; the ledger is only appended to. */
  lemma {:induction false} WalkComplete(items: seq<Transaction>, backend: Transaction -> Fetch<()>)
    requires forall i :: 0 <= i < |items| ==> ItemStep(items[i], backend(items[i])).Next?
    ensures var w := Walk(items, Pass(backend)).effects;
            && Requests(w) == Select(items, Every, TargetOf)
            && Files(w) == Select(items, Saved(backend), FileOf)
            && Ledger(w) == Select(items, Missing(backend), MissingEntry)
            && KeepsLedger(w)
    decreases |items|
  {
    if |items| > 0 {
      var t := items[0];
      var rest := items[1..];
      assert forall i :: 0 <= i < |rest| ==> rest[i] == items[i + 1];
      WalkComplete(rest, backend);
      NextProjections(t, backend(t));
      ProjectionsAppend(ItemStep(t, backend(t)).effects, Walk(rest, Pass(backend)).effects);
      KeepsLedgerAppend(ItemStep(t, backend(t)).effects, Walk(rest, Pass(backend)).effects);
    }
  }

  /** The files written are exactly those of the successful statements
      before the first that stops the loop. */
  lemma FilesUpToStop(items: seq<Transaction>, backend: Transaction -> Fetch<()>)
    ensures Files(Walk(items, Pass(backend)).effects)
            == Select(items[..FirstStop(items, Pass(backend))], Saved(backend), FileOf)
  {
    var step := Pass(backend);
    var k := FirstStop(items, step);
    WalkStopsAtFirstStop(items, step);
    WalkComplete(items[..k], backend);
    if k < |items| {
      var t := items[k];
      StopProjections(t, backend(t));
      ProjectionsAppend(Walk(items[..k], step).effects, step(t).effects);
    }
  }

  /** The ledger holds exactly the missing statements before the first
      that stops the loop, in order: the stopping pass adds nothing, not
      even for an exception. The ledger is never deleted. */
  lemma LedgerUpToStop(items: seq<Transaction>, backend: Transaction -> Fetch<()>)
    ensures var k := FirstStop(items, Pass(backend));
            var w := Walk(items, Pass(backend)).effects;
            && Ledger(w) == Select(items[..k], Missing(backend), MissingEntry)
            && KeepsLedger(w)
  {
    var step := Pass(backend);
    var k := FirstStop(items, step);
    WalkStopsAtFirstStop(items, step);
    WalkComplete(items[..k], backend);
    if k < |items| {
      var t := items[k];
      StopProjections(t, backend(t));
      ProjectionsAppend(Walk(items[..k], step).effects, step(t).effects);
      KeepsLedgerAppend(Walk(items[..k], step).effects, step(t).effects);
    }
  }

  /** A pass that stops writes no file and no ledger entry, requests its
      statement unless the date is missing, and never deletes the ledger. */
  lemma StopProjections(t: Transaction, o: Fetch<()>)
    requires ItemStep(t, o).Stop?
    ensures var e := ItemStep(t, o).effects;
            && Requests(e) == (if t.transactionDate.Present? then [TargetOf(t)] else [])
            && Files(e) == []
            && Ledger(e) == []
            && KeepsLedger(e)
  {
  }

  // ---------------------------------------------------------------------
  // The script.

  /** The script around a given pass. Placeholder credentials exit before
      any request; a history of `undefined` or `false` exits after it;
      otherwise the count is announced and the statements are walked. */
  function RunWith(configured: bool, history: Fetch<HistoryBody>, pass: Transaction -> Step): Run
  {
    if !configured then Run([], Exited)
    else
      match GetBillsHistory(history)
      case Found(items) =>
        var w := Walk(items, pass);
        Run([Request(BillList), Announce(|items|)] + w.effects, w.ending)
      case _ => Run([Request(BillList)], Exited)
  }

  /** The whole script as written. */
  function Main(configured: bool, history: Fetch<HistoryBody>, backend: Transaction -> Fetch<()>): Run
  {
    RunWith(configured, history, Pass(backend))
  }

  /** The whole script with the `catch` block corrected. */
  function MainIntended(configured: bool, history: Fetch<HistoryBody>, backend: Transaction -> Fetch<()>): Run
  {
    RunWith(configured, history, PassIntended(backend))
  }

  /** No pass deletes the ledger. */
  lemma PassKeepsLedger(t: Transaction, o: Fetch<()>)
    ensures KeepsLedger(ItemStep(t, o).effects)
  {
    if ItemStep(t, o).Next? {
      NextProjections(t, o);
    } else {
      StopProjections(t, o);
    }
  }

  /** The ledger is only appended to: a run keeps every earlier entry. */
  lemma LedgerAccumulates(configured: bool, history: Fetch<HistoryBody>, backend: Transaction -> Fetch<()>,
                          prior: seq<string>)
    ensures var r := Main(configured, history, backend);
            ApplyLedger(prior, r.effects) == prior + Ledger(r.effects)
  {
    var r := Main(configured, history, backend);
    var h := GetBillsHistory(history);
    if configured && h.Found? {
      var items := h.items;
      var step := Pass(backend);
      forall i | 0 <= i < |items|
        ensures KeepsLedger(step(items[i]).effects)
      {
        PassKeepsLedger(items[i], backend(items[i]));
      }
      WalkKeepsLedger(items, step);
      var w := Walk(items, step);
      var p := [Request(BillList), Announce(|items|)];
      assert r.effects == p + w.effects;
      assert KeepsLedger(p);
      KeepsLedgerAppend(p, w.effects);
    }
    AppendOnlyLedger(prior, r.effects);
  }

  /** Without credentials nothing is requested. */
  lemma UnconfiguredExits(history: Fetch<HistoryBody>, backend: Transaction -> Fetch<()>)
    ensures var r := Main(false, history, backend);
            r.ending == Exited && Requests(r.effects) == []
  {
  }

  /** A 401, a 404 or a stale token ends the run after the history request
      alone. */
  lemma RefusedHistoryExits(history: Fetch<HistoryBody>, backend: Transaction -> Fetch<()>)
    requires history.Status(401) || history.Status(404)
             || (history.Response? && history.body.detail == Present(StaleToken))
    ensures var r := Main(true, history, backend);
            r.ending == Exited && Requests(r.effects) == [BillList] && Ledger(r.effects) == []
  {
    ProjectionsOne(Request(BillList));
  }

  /** A failed history request is swallowed: the run announces no bill and
      ends normally without requesting any. */
  lemma ThrownHistoryIsEmpty(message: string, backend: Transaction -> Fetch<()>)
    ensures var r := Main(true, Thrown(message), backend);
            r.ending == Finished && Requests(r.effects) == [BillList] && Files(r.effects) == []
  {
    assert GetBillsHistory(Thrown(message)) == Found([]);
    FoundRunIsWalk(Thrown(message), backend);
    assert Walk([], Pass(backend)) == Run([], Finished);
  }

  /** Around any pass, once the history is found, the script is the
      history request and the announcement followed by the loop. */
  lemma RunWithIsWalk(history: Fetch<HistoryBody>, pass: Transaction -> Step)
    requires GetBillsHistory(history).Found?
    ensures var r := RunWith(true, history, pass);
            var w := Walk(GetBillsHistory(history).items, pass);
            && r.ending == w.ending
            && Requests(r.effects) == [BillList] + Requests(w.effects)
            && Files(r.effects) == Files(w.effects)
            && Ledger(r.effects) == Ledger(w.effects)
  {
    var items := GetBillsHistory(history).items;
    var w := Walk(items, pass);
    var p := [Request(BillList), Announce(|items|)];
    assert RunWith(true, history, pass) == Run(p + w.effects, w.ending);
    ProjectionsOne(Request(BillList));
    ProjectionsOne(Announce(|items|));
    ProjectionsAppend([Request(BillList)], [Announce(|items|)]);
    assert p == [Request(BillList)] + [Announce(|items|)];
    ProjectionsAppend(p, w.effects);
  }

  /** After the history and the announcement the run is the walk: its
      requests follow the history request and its ending is the run's. */
  lemma FoundRunIsWalk(history: Fetch<HistoryBody>, backend: Transaction -> Fetch<()>)
    requires GetBillsHistory(history).Found?
    ensures var r := Main(true, history, backend);
            var w := Walk(GetBillsHistory(history).items, Pass(backend));
            && r.ending == w.ending
            && Requests(r.effects) == [BillList] + Requests(w.effects)
            && Files(r.effects) == Files(w.effects)
            && Ledger(r.effects) == Ledger(w.effects)
  {
    RunWithIsWalk(history, Pass(backend));
  }

  /** Where no download throws, the script as written and the corrected
      script do exactly the same. */
  lemma RunsAgreeWithoutThrow(configured: bool, history: Fetch<HistoryBody>, backend: Transaction -> Fetch<()>)
    requires forall t: Transaction :: !backend(t).Thrown?
    ensures Main(configured, history, backend) == MainIntended(configured, history, backend)
  {
    if configured && GetBillsHistory(history).Found? {
      var items := GetBillsHistory(history).items;
      forall i | 0 <= i < |items|
        ensures Pass(backend)(items[i]) == PassIntended(backend)(items[i])
      {
        assert !backend(items[i]).Thrown?;
      }
      WalkAgrees(items, Pass(backend), PassIntended(backend));
    }
  }

  /** As written, the loop over the statements crashes at the first
      download that throws, after handling the statements before it. */
  lemma WalkThrowCrashes(items: seq<Transaction>, backend: Transaction -> Fetch<()>, k: nat)
    requires k < |items|
    requires forall i :: 0 <= i < k ==> ItemStep(items[i], backend(items[i])).Next?
    requires items[k].transactionDate.Present? && backend(items[k]).Thrown?
    ensures var w := Walk(items, Pass(backend));
            && w.ending == Crashed
            && Requests(w.effects) == Select(items[..k], Every, TargetOf) + [TargetOf(items[k])]
            && Ledger(w.effects) == Select(items[..k], Missing(backend), MissingEntry)
  {
    var step := Pass(backend);
    var pre := items[..k];
    forall i | 0 <= i < |pre|
      ensures ItemStep(pre[i], backend(pre[i])).Next?
    {
      assert pre[i] == items[i];
    }
    forall i | 0 <= i < k
      ensures step(items[i]).Next?
    {
      assert step(items[i]) == ItemStep(items[i], backend(items[i]));
    }
    var t := items[k];
    assert step(t) == Stop(Ask(t), Crashed);
    FirstStopAt(items, step, k);
    WalkStopsAtFirstStop(items, step);
    var before := Walk(pre, step);
    WalkComplete(pre, backend);
    ProjectionsAppend(before.effects, Ask(t));
  }

  /** As intended, the loop returns at the first download that throws,
      after handling the statements before it, and logs the exception. */
  lemma WalkThrowLogged(items: seq<Transaction>, backend: Transaction -> Fetch<()>, k: nat)
    requires k < |items|
    requires forall i :: 0 <= i < k ==> ItemStep(items[i], backend(items[i])).Next?
    requires items[k].transactionDate.Present? && backend(items[k]).Thrown?
    ensures var w := Walk(items, PassIntended(backend));
            && w.ending == Halted
            && Requests(w.effects) == Select(items[..k], Every, TargetOf) + [TargetOf(items[k])]
            && Ledger(w.effects) == Select(items[..k], Missing(backend), MissingEntry)
                                    + [ExceptionEntry(SlotText(items[k].statementNumber), backend(items[k]).message)]
  {
    var before := items[..k];
    var step := PassIntended(backend);
    forall i | 0 <= i < |before|
      ensures step(before[i]) == Pass(backend)(before[i])
    {
      assert before[i] == items[i];
    }
    WalkAgrees(before, step, Pass(backend));
    var t := items[k];
    var s := ItemStepIntended(t, backend(t));
    assert step(t) == s;
    FirstStopAt(items, step, k);
    WalkStopsAtFirstStop(items, step);
    WalkComplete(before, backend);
    ExceptionIsLogged(t, backend(t).message);
    ProjectionsAppend(Walk(before, step).effects, s.effects);
  }

  /** As written, the first statement whose download throws crashes the
      whole run. The statements before it were requested, saved or logged
      as usual; the exception leaves no entry and nothing after it is
      requested. */
  lemma DownloadExceptionCrashes(history: Fetch<HistoryBody>, backend: Transaction -> Fetch<()>, k: nat)
    requires GetBillsHistory(history).Found?
    requires var items := GetBillsHistory(history).items;
             && k < |items|
             && (forall i :: 0 <= i < k ==> ItemStep(items[i], backend(items[i])).Next?)
             && items[k].transactionDate.Present? && backend(items[k]).Thrown?
    ensures var items := GetBillsHistory(history).items;
            var r := Main(true, history, backend);
            && r.ending == Crashed
            && Requests(r.effects) == [BillList] + Select(items[..k], Every, TargetOf) + [TargetOf(items[k])]
            && Ledger(r.effects) == Select(items[..k], Missing(backend), MissingEntry)
  {
    var items := GetBillsHistory(history).items;
    WalkThrowCrashes(items, backend, k);
    FoundRunIsWalk(history, backend);
  }

  /** As intended, the first statement whose download throws ends the loop
      with one entry for the exception after those of the missing
      statements before it, and the run returns normally. */
  lemma DownloadExceptionLoggedIntended(history: Fetch<HistoryBody>, backend: Transaction -> Fetch<()>, k: nat)
    requires GetBillsHistory(history).Found?
    requires var items := GetBillsHistory(history).items;
             && k < |items|
             && (forall i :: 0 <= i < k ==> ItemStep(items[i], backend(items[i])).Next?)
             && items[k].transactionDate.Present? && backend(items[k]).Thrown?
    ensures var items := GetBillsHistory(history).items;
            var r := MainIntended(true, history, backend);
            && r.ending == Halted
            && Requests(r.effects) == [BillList] + Select(items[..k], Every, TargetOf) + [TargetOf(items[k])]
            && Ledger(r.effects) == Select(items[..k], Missing(backend), MissingEntry)
                                    + [ExceptionEntry(SlotText(items[k].statementNumber), backend(items[k]).message)]
  {
    var items := GetBillsHistory(history).items;
    WalkThrowLogged(items, backend, k);
    RunWithIsWalk(history, PassIntended(backend));
  }
}
