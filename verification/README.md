# Irish utility bill downloaders, modelled in Dafny

The repository holds five Node.js scripts that download a customer's bills
as PDF files. The providers are Vodafone Ireland, Virgin Media Ireland,
Three Ireland, SSE Airtricity and Bord Gáis Energy. Every script has the same
shape:

- **Discovery** asks the provider for the bill history and turns it into a
  list of `(id, date)` descriptors.
- **Download** fetches each bill. A success writes `<date>.pdf`. Failures go
  to a plain-text ledger, `Errors found.txt`. For Vodafone, Three and
  Virgin Media (403 only), a ledger entry carries a `node "<script>" <id>
  <date>` line. Running that line re-downloads the one bill in the
  two-argument single-bill mode.

This project models the pure core of those scripts:

- **Discovery transforms.**
  - Vodafone's month count and date printing.
  - Virgin Media's two-year windows and its per-window fold.
  - Three's backfill of bill numbers below the oldest listed bill. Each
    backfilled bill is dated one JavaScript `setMonth` step before the
    previous one.
  - SSE's filter on the statement number and Bord Gáis' filter on the link.
- **Scheduling shapes, read sequentially.**
  - Virgin Media's fixed batches of three.
  - The worker pool that Vodafone (20 workers) and Three (5) use to drain a
    cloned queue.
- **Each provider's outcome policy, kept as coded.** Each policy is a function
  from fetch outcomes (`Response(status, body)` or `Thrown(message)`) to an
  effect trace: requests issued, files written, ledger appends and
  deletions, the announced count, and how the run ended.

The modules follow the repository's structure:

| module | file | contents |
|---|---|---|
| `Values` | values.dfy | `Option`; `Slot`, the null/undefined/present states of a JSON field |
| `Text` | text.dfy | `String(n)`, `padStart`, `split(c)[0]` and `replaceAll` over `seq<char>` |
| `Calendar` | calendar.dfy | proleptic Gregorian days; `setMonth(getMonth() - 1)`; ISO printing and reading |
| `Engine` | engine.dfy | fetch outcomes, descriptors, effect traces and their projections; the ledger across runs; the early-returning loop; replay lines and the single-bill mode |
| `Scheduling` | scheduling.dfy | batch partition and queue drain |
| `Pool` | pool.dfy | `downloadSingleBill`/`downloadBills`, shared by Vodafone and Three |
| `Vodafone`, `Virgin`, `Three`, `Sse`, `BordGais` | one file each | discovery, the per-bill policy and the whole script |

Everything the scripts get from outside is a parameter. That covers:

- the backend's answers: one outcome per request, as a function from the
  bill, or from the window, to a `Fetch`;
- today's date;
- the 403 timestamp clock;
- `process.argv`;
- whether the credentials were configured.

## Model

| member | source | states |
|---|---|---|
| Text.ParseNatToString | three-ireland.mjs:106 | the decimal text `String(i)` of a bill number reads back as that number |
| Text.NatToStringLength | vodafone-ireland.mjs:200-201 | a number below 10^(k+1), and at least 10^k when k > 0, prints with exactly k + 1 digits |
| Text.PadStartShape | vodafone-ireland.mjs:200-201 | `padStart` yields fill characters followed by the unchanged original text |
| Text.ZeroPaddedValue | vodafone-ireland.mjs:200-201 | a zero-padded number is all digits and reads back as the same number |
| Text.CutAtPrefix | three-ireland.mjs:93 | `split(c)[0]` is a prefix free of `c` that ends at the end of the text or just before the first `c` |
| Text.CutAtJoin | three-ireland.mjs:105 | splitting `a + c + b` at the first `c`, with `c` absent from `a`, gives back `a` and `b` |
| Text.CutAtAbsent | three-ireland.mjs:93 | a text without the separator is its own first piece |
| Text.RemoveAll | sse-airtricity.mjs:89 | `replaceAll("-", "")` leaves no dash and keeps every other character with its multiplicity |
| Text.RemoveAllAppend | sse-airtricity.mjs:89 | removal works piece by piece, so the kept characters stay in order |
| Calendar.PreviousMonth | three-ireland.mjs:104 | the month before is one step down on the count `12 * year + month`, with January borrowing from the year |
| Calendar.StepBackMonth | three-ireland.mjs:102-105 | one `setMonth(getMonth() - 1)` step at noon UTC gives a valid day, strictly earlier, at most one year back |
| Calendar.StepBackMonthIsMakeDay | three-ireland.mjs:104 | the step lands on the day ECMAScript's MakeDay computes for the zero-based month minus one and the same date |
| Calendar.StepBackMonthShape | three-ireland.mjs:104 | the day is kept when the earlier month has it and otherwise overflows into the following month; the step is the earlier month's length in days |
| Calendar.DayNumberOrder | three-ireland.mjs:102-106 | the independent day count orders valid days exactly as the calendar order does |
| Calendar.TwoDigits | vodafone-ireland.mjs:200-201 | a month or day below 100 prints as two digits that read back as itself |
| Calendar.DigitRunValue | three-ireland.mjs:102-103 | a run of characters reads as a number exactly when all are digits, and then as their decimal value |
| Calendar.RollOver | three-ireland.mjs:102-103 | a month of 1..12 and a day of 1..31 always give a day that exists |
| Calendar.RollOverIsMakeDay | three-ireland.mjs:102-103 | the day read is the one ECMAScript's MakeDay computes for the month and day; a day the month has is kept as it is |
| Calendar.RollOverExample | three-ireland.mjs:102-103 | "2024-02-30" is read as 1 March 2024, and "2024-02-32" is an Invalid Date |
| Calendar.ParseIsoDate | three-ireland.mjs:102-103 | `new Date(s + "T12:00:00Z")` reads the date-only forms `YYYY`, `YYYY-MM`, `YYYY-MM-DD` and `±YYYYYY-MM-DD`, a missing month or day being 1; it yields only days that exist and that a Date can hold, and a day past the month's end runs into the next month |
| Calendar.ReducedFormsExample | three-ireland.mjs:102-103 | "2024-05" is read as 1 May 2024 and "2024" as 1 January 2024; a thirteenth month is an Invalid Date |
| Calendar.TimeRangeEnds | three-ireland.mjs:102-105 | at 12:00 UTC the first day a Date can hold is 20 April -271821 and the last is 12 September 275760; the days either side are Invalid Dates |
| Calendar.TimeRangeYears | three-ireland.mjs:102-105 | every day a Date can hold lies in the years -271821 to 275760, and every day strictly between those years can be held |
| Calendar.IsoRoundTrip | three-ireland.mjs:102-105 | a day printed by `toISOString().split("T")[0]` reads back as the same day, for every day a Date can hold |
| Calendar.DashedIsIso | vodafone-ireland.mjs:198-203 | for four-digit years, the `${year}-${MM}-${DD}` template prints what `toISOString` prints |
| Engine.AppendOnlyLedger | bord-gais-energy-ireland.mjs:109 | a trace that never deletes the ledger leaves the earlier entries followed by its own appends |
| Engine.ResetLedger | virgin-media-ireland.mjs:45 | a trace that deletes the ledger first, and never again, leaves only its own entries |
| Engine.WalkStopsAtFirstStop | sse-airtricity.mjs:87-123 | the loop is the complete walk over the items before the first pass that returns, then that pass; no later item is touched |
| Engine.WalkFinishes | sse-airtricity.mjs:87-125 | the loop reaches its completion notice exactly when no pass returns early |
| Engine.WalkKeepsLedger | bord-gais-energy-ireland.mjs:81-112 | a loop whose passes never delete the ledger does not delete it either |
| Engine.ParseReplayLine | vodafone-ireland.mjs:171 | the shell reads the replay line as `node`, the script, the id and the date |
| Engine.ReplayRoundTrip | vodafone-ireland.mjs:171 | running an entry's replay command, split into words, downloads exactly the bill the entry is about when its id and date are single words |
| Engine.ExceptionEntryNoReplay | bord-gais-energy-ireland.mjs:109 | an exception entry offers no replay command |
| Scheduling.BatchesFlatten | virgin-media-ireland.mjs:107-109 | the batches concatenate back to the input |
| Scheduling.BatchesShape | virgin-media-ireland.mjs:107-109 | each batch holds 1..c items, all but the last exactly c, and there are ceil(n / c) batches |
| Scheduling.SliceBatches | virgin-media-ireland.mjs:108-109 | the `slice(i, i + c)` loop builds exactly the partition into batches |
| Scheduling.DrainQueue | vodafone-ireland.mjs:141-155 | with at least one worker, every item leaves the cloned queue once, in input order; with none, nothing does |
| Pool.DownloadSingleBill | vodafone-ireland.mjs:161-182 | one request; a file exactly on success; one replayable ledger entry exactly on a non-ok status; an exception leaves neither |
| Pool.DownloadBillsCoverage | vodafone-ireland.mjs:141-155 | the pool requests every bill once, in order; it saves the successful ones and logs the non-ok ones, in order, and never deletes the ledger |
| Pool.SingleBillDownload | vodafone-ireland.mjs:51-55 | the single-bill mode makes one request, for that bill, writes the file or the entry its outcome calls for, and announces nothing |
| Pool.DrainAndDownload | vodafone-ireland.mjs:141-155 | draining the cloned queue and downloading each bill as it leaves gives exactly the pool's trace, for any number of workers |
| Pool.FailureEntryReplays | vodafone-ireland.mjs:171 | a failure entry replays exactly the failed bill |
| Pool.FailureEntryNamesProvider | three-ireland.mjs:146 | a failure entry starts with the provider's name and a colon |
| Vodafone.GetMonths | vodafone-ireland.mjs:186-194 | the record count is exactly 2 when the joining month is the current month |
| Vodafone.AnnouncedCountIsMonthsElapsed | vodafone-ireland.mjs:61-62 | the announced count `maxRecords - 2` is the number of month steps from today's month back to the joining month |
| Vodafone.ListOfBills | vodafone-ireland.mjs:103-137 | a list exists exactly on an ok response; it has one descriptor per item, in order, carrying the invoice number |
| Vodafone.ListedDatesReadBack | vodafone-ireland.mjs:198-203 | each listed date text reads back as the item's due date |
| Vodafone.SingleBillMode | vodafone-ireland.mjs:51-56 | with two arguments the run requests only that bill, writing its file or its failure entry; there is no joining date, no list and no announcement |
| Vodafone.ListingDownloads | vodafone-ireland.mjs:61-64 | a failed list crashes the run before any bill; otherwise every listed bill is requested once, after the account and the list, with files and entries in order |
| Virgin.Windows | virgin-media-ireland.mjs:64 | window `i` starts at `startYear + 2i`; every start is at most `endYear`, and the next one would pass it |
| Virgin.WindowCount | virgin-media-ireland.mjs:64 | there are `(endYear - startYear) div 2 + 1` windows when the start year is not after the current one, and none otherwise |
| Virgin.WindowsExample | virgin-media-ireland.mjs:64 | 2022 to 2024 gives the windows 2022 and 2024 |
| Virgin.WindowsCoverYears | virgin-media-ireland.mjs:64-72 | every year from the start year to the current one falls in exactly one window |
| Virgin.WindowParams | virgin-media-ireland.mjs:71-72 | `startDate` and `endDate` are the window's first and last day in the template form, at 00:00:00 and at 23:59:59 |
| Virgin.WindowParamsReadBack | virgin-media-ireland.mjs:71-72 | for four-digit years the date part of each parameter reads back as the window's first and last day |
| Virgin.WindowSpan | virgin-media-ireland.mjs:71-72 | a window spans exactly two calendar years, and the next one starts the day after it ends |
| Virgin.ListedAllAt | virgin-media-ireland.mjs:96 | each collected bill keeps its number, and its date is the bill date cut before its first 'T' |
| Virgin.WindowBills | virgin-media-ireland.mjs:87-97 | a window adds one bill per listed item on a success response, and none otherwise |
| Virgin.WindowEffectsProjections | virgin-media-ireland.mjs:78-92 | a window that does not abort is requested once and logs "No bills found" exactly when the body is not a success |
| Virgin.GetBillsHistory | virgin-media-ireland.mjs:63-104 | discovery writes no file and never deletes the ledger |
| Virgin.HistoryKeepsEarlierBills | virgin-media-ireland.mjs:80-102 | a 401 or an exception cuts discovery short, and the bills from the windows before it stay collected |
| Virgin.HistoryCutIffAbort | virgin-media-ireland.mjs:80-102 | discovery is cut short exactly when some window answers 401 or throws |
| Virgin.HistoryStopsAtAbort | virgin-media-ireland.mjs:64-102 | no window after the first aborting one is requested |
| Virgin.HistoryComplete | virgin-media-ireland.mjs:64-103 | with no abort, every window is requested in order; the "No bills found" entries follow window order; the bills are every success window's bills, in order |
| Virgin.NoBillsEntryNoReplay | virgin-media-ireland.mjs:91 | a "No bills found" entry offers no replay command |
| Virgin.TaskEntry | virgin-media-ireland.mjs:127-155 | a task leaves an entry exactly on an exception, a 404 or a 403 |
| Virgin.DownloadTask | virgin-media-ireland.mjs:112-156 | a task makes one request; it writes a file exactly on success and an entry exactly as `TaskEntry` says; a 401 or any other status leaves nothing |
| Virgin.ForbiddenEntryReplays | virgin-media-ireland.mjs:139-142 | the 403 entry replays exactly its bill |
| Virgin.NotFoundEntryNoReplay | virgin-media-ireland.mjs:133-136 | the 404 entry offers no replay command |
| Virgin.BatchEffectsFlatten | virgin-media-ireland.mjs:107-163 | running the batches one after another is running every task in list order |
| Virgin.DownloadBillsCoverage | virgin-media-ireland.mjs:107-166 | every bill is requested once, in order, whatever the batch size, so a 401 ends only its own task; files and entries follow in order |
| Virgin.FullRunDownloads | virgin-media-ireland.mjs:56-58 | a full run keeps discovery's effects, then announces the number of collected bills, then downloads each once, in discovery order |
| Virgin.LedgerHoldsThisRunOnly | virgin-media-ireland.mjs:45 | after any run the ledger holds that run's entries and nothing from before |
| Virgin.SingleBillMode | virgin-media-ireland.mjs:45-54 | two arguments reset the ledger and download exactly that bill, so the ledger holds only that bill's entry, if it leaves one; no window is requested and nothing is announced |
| Three.ListedDate | three-ireland.mjs:93 | a listed date is the close date cut before its time part |
| Three.MonthsBack | three-ireland.mjs:101-108 | `n` steps give `n` days, the first being one step back from the anchor |
| Three.MonthsBackStep | three-ireland.mjs:102-105 | every backfilled day is one `setMonth` step back from the day before it |
| Three.MonthsBackDescending | three-ireland.mjs:102-106 | the backfilled days strictly decrease, and all lie before the anchor |
| Three.MonthsBackYears | three-ireland.mjs:104 | each step loses at most one year |
| Three.BackfillElement | three-ireland.mjs:101-106 | the `k`-th backfilled bill is number `n - k`, dated on the `k`-th stepped day |
| Three.BackfillDatesReadBack | three-ireland.mjs:102-105 | each backfilled date text reads back as the stepped day, whenever a Date can hold that day |
| Three.BackfillInRangeAll | three-ireland.mjs:101-106 | from an anchor a Date can hold, if the last backfilled day can be held then so can every day of the backfill |
| Three.BackfillIdsDistinct | three-ireland.mjs:101-106 | no two backfilled bills share a number |
| Three.ListOfBills | three-ireland.mjs:67-111 | discovery is `undefined` exactly on a non-ok status, and never `false` |
| Three.ListOfBillsEscapes | three-ireland.mjs:67-111 | an exception escapes exactly on a thrown request, an empty list, or, when bills must be backfilled, a last date that cannot be read or a month step that leaves the days a Date can hold |
| Three.InventedIds | three-ireland.mjs:101-106 | behind the listed bills, the backfilled ids count down by one to 1 |
| Three.ExtensionGoesBack | three-ireland.mjs:101-107 | behind the listed bills, each backfilled bill is dated before the anchor and before the bill in front of it |
| Three.ListOfBillsFound | three-ireland.mjs:93-110 | a found list has `listed + (oldest - 1)` items; the listed bills are an unchanged prefix, then the ids `oldest - 1` down to 1 |
| Three.ExtendHistory | three-ireland.mjs:98-110 | the push loop, re-reading the last date on each pass, builds exactly the listed bills followed by the backfill; it fails exactly when the anchor cannot be read or a step leaves the days a Date can hold |
| Three.ExtensionExample | three-ireland.mjs:101-107 | 2024-05-10 is extended through the tenth of April, March, February and January |
| Three.ExtensionOverflowExample | three-ireland.mjs:104 | from 31 March 2024 the step lands on 2 March, then 2 February |
| Three.SingleBillMode | three-ireland.mjs:53-58 | two arguments download exactly that bill, writing its file or its failure entry; the list is never asked for and nothing is announced |
| Three.FullRunDownloads | three-ireland.mjs:61-64 | a found list is announced whole, backfill included; each bill is requested once, in order, after the list; the ledger is never deleted |
| Sse.Numbered | sse-airtricity.mjs:77 | the filter keeps exactly the items whose statement number is not `null` |
| Sse.NumberedAppend | sse-airtricity.mjs:77 | the filter keeps the order of the items it keeps |
| Sse.NumberedKeepsAll | sse-airtricity.mjs:77 | a history with every number set is kept whole |
| Sse.GetBillsHistory | sse-airtricity.mjs:52-84 | a 401 or 404 gives `undefined`; a stale-token detail gives `false`; an exception gives `[]`; any other response gives exactly the items of its collection whose statement number is set, or `[]` without a collection |
| Sse.DownloadName | sse-airtricity.mjs:89 | the download name holds no dash |
| Sse.ItemStep | sse-airtricity.mjs:87-122 | a pass goes on exactly when the date is present and the answer is ok or 404; a missing date or a thrown download crashes the script; any other status returns from the loop |
| Sse.ItemStepIntended | sse-airtricity.mjs:118-121 | the corrected pass goes on exactly when the coded one does, agrees with it except on a thrown download, and crashes only on a missing date |
| Sse.ExceptionCrashesAsWritten | sse-airtricity.mjs:118-121 | as written, a download that throws is requested, leaves no file and no ledger entry, and crashes the script |
| Sse.ExceptionIsLogged | sse-airtricity.mjs:118-121 | as intended, an exception leaves exactly one entry naming the statement and the message, and the loop returns |
| Sse.NextProjections | sse-airtricity.mjs:103-116 | a pass that goes on writes `<transactionDate>.pdf` on success, or one "not found" entry on a 404 |
| Sse.StopProjections | sse-airtricity.mjs:87-122 | a pass that stops writes no file and no ledger entry, and requests its statement unless the date is missing |
| Sse.StatementsAllHandled | sse-airtricity.mjs:87-125 | the loop finishes exactly when every statement has a date and is saved or missing |
| Sse.WalkComplete | sse-airtricity.mjs:87-116 | with no stop, every statement is requested once, in order; the saved and the missing ones follow in order |
| Sse.FilesUpToStop | sse-airtricity.mjs:113-116 | the files written are exactly the successful statements before the first stop |
| Sse.LedgerUpToStop | sse-airtricity.mjs:103-121 | the ledger holds exactly the missing statements before the first stop, in order; the stopping pass, an exception included, adds nothing |
| Sse.LedgerAccumulates | sse-airtricity.mjs:105 | a run keeps every earlier ledger entry |
| Sse.UnconfiguredExits | sse-airtricity.mjs:39-42 | placeholder credentials exit before any request |
| Sse.RefusedHistoryExits | sse-airtricity.mjs:45-46 | a 401, a 404 or a stale token ends the run after the history request alone |
| Sse.ThrownHistoryIsEmpty | sse-airtricity.mjs:80-83 | a failed history request is swallowed, and the run finishes without requesting a bill |
| Sse.FoundRunIsWalk | sse-airtricity.mjs:45-49 | after the history and the announcement, the run is the loop as coded: its requests follow the history request and its ending is the run's |
| Sse.RunsAgreeWithoutThrow | sse-airtricity.mjs:118-121 | when no download throws, the script as written and the corrected script do exactly the same |
| Sse.DownloadExceptionCrashes | sse-airtricity.mjs:49-121 | as written, the first download that throws crashes the run: the statements before it are handled as usual, it leaves no entry, and nothing after it is requested |
| Sse.DownloadExceptionLoggedIntended | sse-airtricity.mjs:118-121 | as intended, the first download that throws ends the loop normally, with its exception entry after the entries of the missing statements before it |
| BordGais.WithLink | bord-gais-energy-ireland.mjs:70 | the filter drops exactly the items whose link is the empty string; null and absent links stay |
| BordGais.WithLinkAppend | bord-gais-energy-ireland.mjs:70 | the filter keeps the order of the items it keeps |
| BordGais.GetBillsHistory | bord-gais-energy-ireland.mjs:54-77 | a 404 gives `undefined`; an exception gives `[]`; any other response gives exactly the items of its body whose link is not the empty string, or `[]` without a body |
| BordGais.ItemStep | bord-gais-energy-ireland.mjs:80-112 | a pass goes on exactly when the lookup is ok, its body has a `url`, and the link fetch answers at all; every stop halts the loop |
| BordGais.StepProjections | bord-gais-energy-ireland.mjs:87-111 | a pass asks for the lookup, then for the link when the lookup is ok and names a `url`, and for nothing else; it writes its file exactly when it goes on; it leaves one entry, `Error downloading bill <billId>: <message>`, exactly when a request throws, with that exception's message, or when the lookup has no `url`, which `fetch` rejects as "Failed to parse URL from undefined" |
| BordGais.LinkStatusUnchecked | bord-gais-energy-ireland.mjs:100-104 | a link answering with an error status is still saved as `<date>.pdf` |
| BordGais.CompleteWalkNoLedger | bord-gais-energy-ireland.mjs:81-106 | passes that go on leave no entry, and save every bill in order |
| BordGais.AtMostOneEntry | bord-gais-energy-ireland.mjs:81-112 | a run's ledger is exactly the entry of the pass that stopped it, if that pass left one, and nothing otherwise; the files are exactly those of the bills before the stop, in order |
| BordGais.FetchedAt | bord-gais-energy-ireland.mjs:88-102 | in the two-requests-per-bill order, bill `i` owns places `2i` (its lookup) and `2i + 1` (its link) |
| BordGais.CompleteWalkRequests | bord-gais-energy-ireland.mjs:81-104 | passes that go on make two requests per bill, in list order: the lookup, then the `url` the lookup returned |
| BordGais.WalkRequests | bord-gais-energy-ireland.mjs:81-112 | a run requests the lookup and then the link of every bill before the one that stopped the loop, then that bill's lookup, and its link when the lookup is ok and names one; no later bill is requested |
| BordGais.RunEnding | bord-gais-energy-ireland.mjs:39-51 | a run exits early only without credentials or on a 404 history, and never crashes |
| BordGais.LedgerAccumulates | bord-gais-energy-ireland.mjs:109 | the ledger is only appended to, so entries accumulate from run to run |
| BordGais.FoundRunIsWalk | bord-gais-energy-ireland.mjs:46-51 | after the history and the announcement, the run is the loop, whose requests follow the history request |

## Behaviour of the code worth noting

The model keeps each script's policy as coded. In particular:

- **Credential expiry.** Each script treats a 401 differently. A 401 on a
  Virgin Media bill ends only that bill's task (virgin-media-ireland.mjs:128-131).
  Vodafone and Three treat it like any other non-ok status and write a
  replayable entry (vodafone-ireland.mjs:169-172, three-ireland.mjs:144-147).
  SSE returns from its loop (sse-airtricity.mjs:98-101).
- **Vodafone list failure.** When the bill list fails, `getListOfBills`
  returns `false`. `downloadBills(false)` then throws on `[...false]`, so the
  run crashes after announcing the count (vodafone-ireland.mjs:63-64,
  142).
- **Three discovery.** `getListOfBills` has no `try`. A thrown request, an
  empty list (`oldestBill.billNumber` of `undefined`), or, when bills must
  be backfilled, a last date that cannot be read or a month step past the
  days a Date can hold escapes and ends the script (three-ireland.mjs:71,
  101, 102-105).
- **SSE download exceptions.** A thrown download crashes the script with no
  ledger entry, because the `catch` block itself throws (see Findings).
  `Sse.Main` runs the loop as written; `Sse.MainIntended` runs the
  corrected loop, and the two agree whenever no download throws.

## Left out

- HTTP: URLs, query strings, headers and response JSON shapes. Responses are
  abstract outcomes carrying already-decoded item records. three-ireland.mjs:68
  shadows `accountNumber` with a fixed value inside discovery; that only
  changes the URL, so it is not modelled.
- Files and the console: writes, appends and the unlink are effect-trace
  entries, with no byte contents; console output is dropped.
- Concurrency: the pool's interleaving, `Promise.all` and the 500 ms wait
  between Virgin Media batches are left out. The pool and the batches are
  read as sequential orders of handling, which is all the traces record.
- Time zones: Three reads its days at 12:00 UTC and steps them with the
  local-time `getMonth`/`setMonth`; the host offset is assumed to be under
  twelve hours, so the local and the UTC day of those times coincide.
- Time: today's date, `endYear` and the 403 timestamp are parameters.
- Placeholder credentials: for SSE and Bord Gáis the check is a
  `configured` flag, and the run exits before any request without it
  (sse-airtricity.mjs:39-42, bord-gais-energy-ireland.mjs:39-42). The cookie
  checks of Vodafone and Three (vodafone-ireland.mjs:42-45,
  three-ireland.mjs:44-47) are not modelled: their runs always start as
  though a cookie were set. Virgin Media has no such check.
- Vodafone.ListOfBills: JavaScript's parsing of locale dates such as
  "10 April 2025" is left out. Items carry a calendar day that has already
  been read, so the "NaN-NaN-NaN" text an unparsable date gives is not
  modelled.
- Vodafone.JoiningDate, Vodafone.GetMonths: the effective date arrives as a
  calendar day already read in local time. The script's `new Date(data)`
  (vodafone-ireland.mjs:188) is not modelled. A date-only ISO text would be
  read as midnight UTC, so west of UTC its local month can be the month
  before. An unparsable text would make the count `NaN`.
- Engine.ParseCommand: models only the shell's splitting into words.
  Escapes, `$` expansion, globbing and other metacharacters in an id or a
  date are not modelled, so Engine.ReplayRoundTrip speaks for ids and dates
  that a shell takes literally.
- Vodafone.ListedDatesReadBack: stated for four-digit years only. `String(year)`
  and the ISO year differ outside 1000..9999.
- Calendar.ParseIsoDate: a text outside ECMAScript's date-only forms is read
  as an Invalid Date. V8 hands such a text to its legacy fallback parser,
  which is not modelled.
- BordGais.WithLink: the link is a string, `null` or absent. The loose `!=`
  also drops `0` and `false`, which a link never is, so those are not modelled.
- Sse.GetBillsHistory: `console.log(request)` on a non-ok status is dropped,
  like all console output (sse-airtricity.mjs:67).

## Findings

| source | as written | input that shows it | evidently intended | confidence | as-written member | corrected member |
|---|---|---|---|---|---|---|
| sse-airtricity.mjs:118-121 | the `catch (error)` block builds its ledger entry from `err.message`, and `err` is not bound, so the handler throws a ReferenceError before anything is appended and the script dies | a statement whose download request throws (a network error) | append "Error downloading bill <n>: <message>" to the ledger and return from the loop | not executed | Sse.DownloadExceptionCrashes | Sse.DownloadExceptionLoggedIntended |
