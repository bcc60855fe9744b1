/** The download stage Vodafone and Three share: `downloadSingleBill`
    issues one credentialed request per bill, writes `<date>.pdf` on
    success, appends a ledger entry with a replay command on any non-ok
    status and only logs an exception; `downloadBills` drains a queue with
    a pool of workers. The two scripts differ only in the provider name
    the ledger entry starts with. */
module Pool {
  import opened Values
  import opened Engine
  import Scheduling

  /** The first line of a ledger entry for a failed bill. */
  function FailureHead(provider: string, d: Descriptor): string
  {
    provider + ": Bill " + d.id + " (" + d.date + ") failed to download. "
    + "Run the command below " + "to download it manually: "
  }

  function FailureEntry(provider: string, script: string, d: Descriptor): string
  {
    ReplayEntry(FailureHead(provider, d), script, d)
  }

  lemma FailureHeadOneLine(provider: string, d: Descriptor)
    requires '\n' !in provider && '\n' !in d.id && '\n' !in d.date
    ensures '\n' !in FailureHead(provider, d)
  {
    assert '\n' !in ": Bill " && '\n' !in " (" && '\n' !in ") failed to download. ";
    assert '\n' !in "Run the command below " && '\n' !in "to download it manually: ";
  }

  /** The entry replays exactly the failed bill. */
  lemma FailureEntryReplays(provider: string, script: string, d: Descriptor)
    requires '\n' !in provider && '"' !in script && '\n' !in script && Word(d.id) && Word(d.date)
    ensures ReplayOf(FailureEntry(provider, script, d)) == Some(d)
  {
    FailureHeadOneLine(provider, d);
    ReplayRoundTrip(FailureHead(provider, d), script, d);
  }

  /** The entry starts with the provider's name and a colon. */
  lemma FailureEntryNamesProvider(provider: string, script: string, d: Descriptor)
    ensures provider + ":" <= FailureEntry(provider, script, d)
  {
    var rest := " Bill " + d.id + " (" + d.date + ") failed to download. "
      + "Run the command below " + "to download it manually: ";
    assert FailureHead(provider, d) == provider + ":" + rest;
    assert FailureEntry(provider, script, d)
        == provider + ":" + (rest + "\n" + ReplayLine(script, d) + "\n\n");
  }

  /** `downloadSingleBill`: one request; a success writes `<date>.pdf`, a
      non-ok status appends one ledger entry, an exception leaves no trace
      beyond the request. */
  function DownloadSingleBill(provider: string, script: string, d: Descriptor, o: Fetch<()>): (t: seq<Effect>)
    ensures Requests(t) == [Document(d.id)]
    ensures Files(t) == if o.Ok() then [PdfName(d.date)] else []
    ensures Ledger(t) == if o.NotOk() then [FailureEntry(provider, script, d)] else []
    ensures KeepsLedger(t)
  {
    var request := [Request(Document(d.id))];
    var outcome := if o.Ok() then [WriteFile(PdfName(d.date))]
                   else if o.NotOk() then [AppendLedger(FailureEntry(provider, script, d))]
                   else [];
    ProjectionsAppend(request, outcome);
    request + outcome
  }

  /** `downloadBills(data, concurrency)`: the worker pool, read in the order
      items leave the queue; with no worker nothing is downloaded. */
  function DownloadBills(provider: string, script: string, bills: seq<Descriptor>, concurrency: nat,
                         backend: Descriptor -> Fetch<()>): seq<Effect>
  {
    if concurrency == 0 then []
    else FlatMap(bills, (d: Descriptor) => DownloadSingleBill(provider, script, d, backend(d)))
  }

  /** `downloadBills` as its workers run it: the cloned queue is drained
      and each bill is downloaded as it leaves the queue. The trace is the
      one `DownloadBills` describes, whatever the number of workers. */
  method DrainAndDownload(provider: string, script: string, bills: seq<Descriptor>, concurrency: nat,
                          backend: Descriptor -> Fetch<()>) returns (t: seq<Effect>)
    ensures t == DownloadBills(provider, script, bills, concurrency, backend)
  {
    var f := (d: Descriptor) => DownloadSingleBill(provider, script, d, backend(d));
    var taken := Scheduling.DrainQueue(bills, concurrency);
    t := FlatMapLoop(taken, f);
  }

  /** Every bill is requested exactly once and in order; the files are those
      of the successful bills and the ledger entries those of the non-ok
      ones, both in order; nothing deletes the ledger. */
  lemma DownloadBillsCoverage(provider: string, script: string, bills: seq<Descriptor>, concurrency: nat,
                              backend: Descriptor -> Fetch<()>)
    requires concurrency > 0
    ensures var t := DownloadBills(provider, script, bills, concurrency, backend);
            && Requests(t) == Select(bills, (_: Descriptor) => true, (d: Descriptor) => Document(d.id))
            && Files(t) == Select(bills, (d: Descriptor) => backend(d).Ok(), (d: Descriptor) => PdfName(d.date))
            && Ledger(t) == Select(bills, (d: Descriptor) => backend(d).NotOk(),
                                   (d: Descriptor) => FailureEntry(provider, script, d))
            && KeepsLedger(t)
  {
    var f := (d: Descriptor) => DownloadSingleBill(provider, script, d, backend(d));
    FlatMapProjections(bills, f, (d: Descriptor) => backend(d).Ok(), (d: Descriptor) => PdfName(d.date),
                       (d: Descriptor) => backend(d).NotOk(), (d: Descriptor) => FailureEntry(provider, script, d),
                       (d: Descriptor) => Document(d.id));
    FlatMapKeepsLedger(bills, f);
  }

  /** The single-bill mode, `downloadBills([bill], 1)`: exactly one request,
      for that bill, and the file or the ledger entry its outcome calls for;
      nothing is announced. */
  lemma SingleBillDownload(provider: string, script: string, d: Descriptor, backend: Descriptor -> Fetch<()>)
    ensures var t := DownloadBills(provider, script, [d], 1, backend);
            && Requests(t) == [Document(d.id)]
            && Files(t) == (if backend(d).Ok() then [PdfName(d.date)] else [])
            && Ledger(t) == (if backend(d).NotOk() then [FailureEntry(provider, script, d)] else [])
            && KeepsLedger(t)
            && forall i :: 0 <= i < |t| ==> !t[i].Announce?
  {
    DownloadBillsCoverage(provider, script, [d], 1, backend);
    assert [d][1..] == [];
    var f := (x: Descriptor) => DownloadSingleBill(provider, script, x, backend(x));
    var one := DownloadSingleBill(provider, script, d, backend(d));
    assert FlatMap([d][1..], f) == [];
    assert DownloadBills(provider, script, [d], 1, backend) == one + [];
    assert one[0] == Request(Document(d.id));
    assert |one| <= 2;
  }
}
