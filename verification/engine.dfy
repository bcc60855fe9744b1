/** The vocabulary every downloader shares: what one fetch can come back
    with, the bill descriptors passed from discovery to download, the
    effect trace a run leaves behind (requests issued, files written,
    ledger changes), the ledger's replay line and the two-argument
    single-bill mode that reads it back. */
module Engine {
  import opened Values
  import opened Text

  /** The outcome of one `fetch` and the reading of its body: a response
      with its status and decoded body, or an exception thrown anywhere in
      the surrounding `try` block. */
  datatype Fetch<+B> = Response(status: int, body: B) | Thrown(message: string)
  {
    /** `response.ok`. */
    predicate Ok() { Response? && 200 <= status <= 299 }

    /** A response whose status is outside 200..299. */
    predicate NotOk() { Response? && !(200 <= status <= 299) }

    /** A response that is not ok and carries exactly `code`. */
    predicate Status(code: int) { NotOk() && status == code }
  }

  /** One bill to download: its identifier and the date that names its file. */
  datatype Descriptor = Descriptor(id: string, date: string)

  /** What a request asks the provider for. */
  datatype Target =
    | Account                             // Vodafone's subscriptions (joining date)
    | BillList                            // the list of bills or transactions
    | BillWindow(start: int)              // a Virgin Media two-year window
    | Document(id: string)                // one bill's PDF, sent with credentials
    | Statement(id: string, name: string) // an SSE statement under its download name
    | Link(url: string)                   // a Bord Gáis download link, sent without credentials

  datatype Effect =
    | Request(target: Target)
    | WriteFile(name: string)
    | AppendLedger(entry: string)
    | DeleteLedger
    | Announce(count: int)                // "Found <count> bills to download."

  /** How a run ends: the download stage printed its completion notice;
      a sequential download loop returned early; the process exited before
      downloading (`process.exit`, with code 0 or 1); or an uncaught
      exception ended it. */
  datatype Ending = Finished | Halted | Exited | Crashed

  datatype Run = Run(effects: seq<Effect>, ending: Ending)

  /** What discovery hands to the main script: `undefined`, `false`, a list,
      or an exception that escapes to the top level. */
  datatype Discovery<+T> = Undefined | False | Found(items: seq<T>) | Escaped

  function PdfName(date: string): string
  {
    date + ".pdf"
  }

  // ---------------------------------------------------------------------
  // Projections of a trace.

  function Files(t: seq<Effect>): seq<string>
  {
    if |t| == 0 then []
    else (if t[0].WriteFile? then [t[0].name] else []) + Files(t[1..])
  }

  function Ledger(t: seq<Effect>): seq<string>
  {
    if |t| == 0 then []
    else (if t[0].AppendLedger? then [t[0].entry] else []) + Ledger(t[1..])
  }

  function Requests(t: seq<Effect>): seq<Target>
  {
    if |t| == 0 then []
    else (if t[0].Request? then [t[0].target] else []) + Requests(t[1..])
  }

  lemma {:induction false} FilesAppend(a: seq<Effect>, b: seq<Effect>)
    ensures Files(a + b) == Files(a) + Files(b)
    decreases |a|
  {
    if |a| == 0 {
      assert a + b == b;
    } else {
      assert (a + b)[0] == a[0];
      assert (a + b)[1..] == a[1..] + b;
      FilesAppend(a[1..], b);
    }
  }

  lemma {:induction false} LedgerAppend(a: seq<Effect>, b: seq<Effect>)
    ensures Ledger(a + b) == Ledger(a) + Ledger(b)
    decreases |a|
  {
    if |a| == 0 {
      assert a + b == b;
    } else {
      assert (a + b)[0] == a[0];
      assert (a + b)[1..] == a[1..] + b;
      LedgerAppend(a[1..], b);
    }
  }

  lemma {:induction false} RequestsAppend(a: seq<Effect>, b: seq<Effect>)
    ensures Requests(a + b) == Requests(a) + Requests(b)
    decreases |a|
  {
    if |a| == 0 {
      assert a + b == b;
    } else {
      assert (a + b)[0] == a[0];
      assert (a + b)[1..] == a[1..] + b;
      RequestsAppend(a[1..], b);
    }
  }

  /** The three projections distribute over concatenation. */
  lemma ProjectionsAppend(a: seq<Effect>, b: seq<Effect>)
    ensures Files(a + b) == Files(a) + Files(b)
    ensures Ledger(a + b) == Ledger(a) + Ledger(b)
    ensures Requests(a + b) == Requests(a) + Requests(b)
  {
    FilesAppend(a, b);
    LedgerAppend(a, b);
    RequestsAppend(a, b);
  }

  /** The projections of a one-effect trace. */
  lemma ProjectionsOne(e: Effect)
    ensures Files([e]) == if e.WriteFile? then [e.name] else []
    ensures Ledger([e]) == if e.AppendLedger? then [e.entry] else []
    ensures Requests([e]) == if e.Request? then [e.target] else []
  {
    assert [e][1..] == [];
  }

  /** The effects of handling each element in turn. */
  function FlatMap<T>(xs: seq<T>, f: T -> seq<Effect>): seq<Effect>
  {
    if |xs| == 0 then [] else f(xs[0]) + FlatMap(xs[1..], f)
  }

  lemma {:induction false} FlatMapAppend<T>(a: seq<T>, b: seq<T>, f: T -> seq<Effect>)
    ensures FlatMap(a + b, f) == FlatMap(a, f) + FlatMap(b, f)
    decreases |a|
  {
    if |a| == 0 {
      assert a + b == b;
    } else {
      assert (a + b)[1..] == a[1..] + b;
      FlatMapAppend(a[1..], b, f);
    }
  }

  /** Adding one element at the end adds its effects at the end. */
  lemma FlatMapSnoc<T>(xs: seq<T>, x: T, f: T -> seq<Effect>)
    ensures FlatMap(xs + [x], f) == FlatMap(xs, f) + f(x)
  {
    FlatMapAppend(xs, [x], f);
    assert FlatMap([x], f) == f(x) + FlatMap([x][1..], f);
    assert [x][1..] == [];
  }

  /** Running each element's effects in turn, one after another, builds
      the flattened trace. */
  method FlatMapLoop<T>(xs: seq<T>, f: T -> seq<Effect>) returns (t: seq<Effect>)
    ensures t == FlatMap(xs, f)
  {
    t := [];
    var i := 0;
    while i < |xs|
      invariant 0 <= i <= |xs|
      invariant t == FlatMap(xs[..i], f)
    {
      FlatMapSnoc(xs[..i], xs[i], f);
      assert xs[..i + 1] == xs[..i] + [xs[i]];
      t := t + f(xs[i]);
      i := i + 1;
    }
    assert xs[..i] == xs;
  }

  /** `g` of every element that satisfies `keep`, in order. */
  function Select<T, U>(xs: seq<T>, keep: T -> bool, g: T -> U): seq<U>
  {
    if |xs| == 0 then [] else (if keep(xs[0]) then [g(xs[0])] else []) + Select(xs[1..], keep, g)
  }

  /** When every element's effects hold at most one file, one ledger entry
      and one request, chosen element by element, the whole trace holds
      exactly those, in element order. */
  lemma {:induction false} FlatMapProjections<T>(xs: seq<T>, f: T -> seq<Effect>,
                                                 saves: T -> bool, file: T -> string,
                                                 logs: T -> bool, entry: T -> string,
                                                 target: T -> Target)
    requires forall x :: Files(f(x)) == (if saves(x) then [file(x)] else [])
    requires forall x :: Ledger(f(x)) == (if logs(x) then [entry(x)] else [])
    requires forall x :: Requests(f(x)) == [target(x)]
    ensures Files(FlatMap(xs, f)) == Select(xs, saves, file)
    ensures Ledger(FlatMap(xs, f)) == Select(xs, logs, entry)
    ensures Requests(FlatMap(xs, f)) == Select(xs, _ => true, target)
    decreases |xs|
  {
    if |xs| > 0 {
      ProjectionsAppend(f(xs[0]), FlatMap(xs[1..], f));
      FlatMapProjections(xs[1..], f, saves, file, logs, entry, target);
    }
  }

  lemma {:induction false} SelectLength<T, U>(xs: seq<T>, g: T -> U)
    ensures |Select(xs, _ => true, g)| == |xs|
    ensures forall i :: 0 <= i < |xs| ==> Select(xs, _ => true, g)[i] == g(xs[i])
    decreases |xs|
  {
    if |xs| > 0 {
      SelectLength(xs[1..], g);
    }
  }

  // ---------------------------------------------------------------------
  // The ledger file ("Errors found.txt") across runs.

  /** The ledger's entries after `t` runs against a ledger holding `prior`:
      a deletion empties it, an append adds one entry at the end. */
  function ApplyLedger(prior: seq<string>, t: seq<Effect>): seq<string>
    decreases |t|
  {
    if |t| == 0 then prior
    else
      var next := match t[0]
        case DeleteLedger => []
        case AppendLedger(e) => prior + [e]
        case _ => prior;
      ApplyLedger(next, t[1..])
  }

  predicate KeepsLedger(t: seq<Effect>)
  {
    forall i :: 0 <= i < |t| ==> !t[i].DeleteLedger?
  }

  /** A trace that never deletes the ledger only adds to what was there. */
  lemma {:induction false} AppendOnlyLedger(prior: seq<string>, t: seq<Effect>)
    requires KeepsLedger(t)
    ensures ApplyLedger(prior, t) == prior + Ledger(t)
    decreases |t|
  {
    if |t| > 0 {
      assert KeepsLedger(t[1..]);
      var next := if t[0].AppendLedger? then prior + [t[0].entry] else prior;
      AppendOnlyLedger(next, t[1..]);
    }
  }

  lemma KeepsLedgerAppend(a: seq<Effect>, b: seq<Effect>)
    requires KeepsLedger(a) && KeepsLedger(b)
    ensures KeepsLedger(a + b)
  {
    assert forall i :: |a| <= i < |a + b| ==> (a + b)[i] == b[i - |a|];
  }

  /** When no element's effects delete the ledger, neither does the whole
      trace. */
  lemma {:induction false} FlatMapKeepsLedger<T>(xs: seq<T>, f: T -> seq<Effect>)
    requires forall i :: 0 <= i < |xs| ==> KeepsLedger(f(xs[i]))
    ensures KeepsLedger(FlatMap(xs, f))
    decreases |xs|
  {
    if |xs| > 0 {
      FlatMapKeepsLedger(xs[1..], f);
      var a, b := f(xs[0]), FlatMap(xs[1..], f);
      assert KeepsLedger(a);
      assert forall i :: |a| <= i < |a + b| ==> (a + b)[i] == b[i - |a|];
    }
  }

  /** A trace that deletes the ledger first and never again leaves only its
      own entries, whatever was there before. */
  lemma ResetLedger(prior: seq<string>, t: seq<Effect>)
    requires |t| > 0 && t[0] == DeleteLedger && KeepsLedger(t[1..])
    ensures ApplyLedger(prior, t) == Ledger(t)
  {
    AppendOnlyLedger([], t[1..]);
  }

  /** The ledger entry SSE Airtricity and Bord Gáis write for an exception
      during a download. */
  function ExceptionEntry(id: string, message: string): string
  {
    "Error downloading bill " + id + ": " + message + "\n\n"
  }

  // ---------------------------------------------------------------------
  // Sequential loops that return early (SSE Airtricity, Bord Gáis).

  lemma AppendAssociates<T>(a: seq<T>, b: seq<T>, c: seq<T>)
    ensures (a + b) + c == a + (b + c)
  {
  }

  /** How one pass of a `for` loop ends: the loop goes on, or it returns
      (or the script dies) with the effects so far. */
  datatype Step = Next(effects: seq<Effect>) | Stop(effects: seq<Effect>, ending: Ending)

  /** The loop over `items`, one pass each, until the first pass that stops;
      a loop that runs out of items finishes. */
  function Walk<T>(items: seq<T>, step: T -> Step): Run
    decreases |items|
  {
    if |items| == 0 then Run([], Finished)
    else
      match step(items[0])
      case Next(e) =>
        var rest := Walk(items[1..], step);
        Run(e + rest.effects, rest.ending)
      case Stop(e, ending) => Run(e, ending)
  }

  /** The index of the first item whose pass stops the loop, or the number
      of items. */
  function FirstStop<T>(items: seq<T>, step: T -> Step): (k: nat)
    ensures k <= |items|
    ensures forall i :: 0 <= i < k ==> step(items[i]).Next?
    ensures k < |items| ==> step(items[k]).Stop?
    decreases |items|
  {
    if |items| == 0 then 0
    else if step(items[0]).Stop? then 0
    else 1 + FirstStop(items[1..], step)
  }

  /** The loop is the complete walk over the items before the first that
      stops, followed by that item's pass, which decides how the run ends;
      no later item is touched. */
  lemma {:induction false} WalkStopsAtFirstStop<T>(items: seq<T>, step: T -> Step)
    ensures var k := FirstStop(items, step);
            var w := Walk(items, step);
            var before := Walk(items[..k], step);
            && before.ending == Finished
            && (k == |items| ==> w == before)
            && (k < |items| ==> w.effects == before.effects + step(items[k]).effects
                                && w.ending == step(items[k]).ending)
    decreases |items|
  {
    var k := FirstStop(items, step);
    if |items| > 0 {
      if step(items[0]).Stop? {
        assert items[..k] == [];
      } else {
        var rest := items[1..];
        WalkStopsAtFirstStop(rest, step);
        assert items[..k][0] == items[0];
        assert items[..k][1..] == rest[..k - 1];
        if k < |items| {
          assert items[k] == rest[k - 1];
          AppendAssociates(step(items[0]).effects, Walk(rest[..k - 1], step).effects, step(items[k]).effects);
        } else {
          assert items[..k] == items;
        }
      }
    }
  }

  /** A loop whose passes never delete the ledger does not delete it
      either, wherever it stops. */
  lemma {:induction false} WalkKeepsLedger<T>(items: seq<T>, step: T -> Step)
    requires forall i :: 0 <= i < |items| ==> KeepsLedger(step(items[i]).effects)
    ensures KeepsLedger(Walk(items, step).effects)
    decreases |items|
  {
    if |items| > 0 {
      var rest := items[1..];
      assert forall i :: 0 <= i < |rest| ==> rest[i] == items[i + 1];
      assert KeepsLedger(step(items[0]).effects);
      if step(items[0]).Next? {
        WalkKeepsLedger(rest, step);
        KeepsLedgerAppend(step(items[0]).effects, Walk(rest, step).effects);
      }
    }
  }

  /** Two passes that agree on every item make the same loop. */
  lemma {:induction false} WalkAgrees<T>(items: seq<T>, step: T -> Step, other: T -> Step)
    requires forall i :: 0 <= i < |items| ==> step(items[i]) == other(items[i])
    ensures Walk(items, step) == Walk(items, other)
    decreases |items|
  {
    if |items| > 0 {
      var rest := items[1..];
      assert forall i :: 0 <= i < |rest| ==> rest[i] == items[i + 1];
      assert step(items[0]) == other(items[0]);
      WalkAgrees(rest, step, other);
    }
  }

  /** The first stop is the item that stops after items that all go on. */
  lemma FirstStopAt<T>(items: seq<T>, step: T -> Step, k: nat)
    requires k < |items| && step(items[k]).Stop?
    requires forall i :: 0 <= i < k ==> step(items[i]).Next?
    ensures FirstStop(items, step) == k
  {
  }

  /** The loop finishes exactly when no item stops it. */
  lemma WalkFinishes<T>(items: seq<T>, step: T -> Step)
    requires forall i :: 0 <= i < |items| && step(items[i]).Stop? ==> step(items[i]).ending != Finished
    ensures Walk(items, step).ending == Finished <==> forall i :: 0 <= i < |items| ==> step(items[i]).Next?
  {
    WalkStopsAtFirstStop(items, step);
    var k := FirstStop(items, step);
    if k < |items| {
      assert step(items[k]).Stop?;
    }
  }

  // ---------------------------------------------------------------------
  // Replay lines and the single-bill mode.

  /** `node "<script>" <id> <date>`: the command a ledger entry offers for
      downloading one bill again. */
  function ReplayLine(script: string, d: Descriptor): string
  {
    "node \"" + script + "\" " + d.id + " " + d.date
  }

  /** A ledger entry whose second line is the replay command. */
  function ReplayEntry(head: string, script: string, d: Descriptor): string
  {
    head + "\n" + ReplayLine(script, d) + "\n\n"
  }

  /** The second line of a ledger entry. */
  function CommandLine(entry: string): string
  {
    CutAt(After(entry, '\n'), '\n')
  }

  /** The argument vector a shell builds from `node "<script>" <w1> <w2> …`,
      keeping the first two words after the script; `None` for any other
      line. Only the splitting into words at single spaces, with the
      script in double quotes, is modelled: escapes, quotes inside words,
      `$` expansion, globbing and the other shell metacharacters are not. */
  function ParseCommand(line: string): (r: Option<seq<string>>)
    ensures r.Some? ==> |r.value| == 4 && r.value[0] == "node"
  {
    if |line| >= 6 && line[..6] == "node \"" && '"' in line[6..] then
      var tail := After(line[6..], '"');
      if |tail| > 0 && tail[0] == ' ' then
        var words := tail[1..];
        Some(["node", CutAt(line[6..], '"'), CutAt(words, ' '), CutAt(After(words, ' '), ' ')])
      else
        None
    else
      None
  }

  /** The script's path, `process.argv[1]`. */
  function ScriptOf(argv: seq<string>): string
  {
    if |argv| >= 2 then argv[1] else "undefined"
  }

  /** `if (process.argv[2] && process.argv[3])`: two non-empty arguments
      after the script select the single-bill mode and become its only
      descriptor. */
  function SingleItem(argv: seq<string>): (r: Option<Descriptor>)
    ensures r.Some? <==> |argv| >= 4 && argv[2] != "" && argv[3] != ""
    ensures r.Some? ==> r.value.id == argv[2] && r.value.date == argv[3]
  {
    if |argv| >= 4 && argv[2] != "" && argv[3] != "" then Some(Descriptor(argv[2], argv[3])) else None
  }

  /** The bill that running an entry's replay command downloads, if any. */
  function ReplayOf(entry: string): Option<Descriptor>
  {
    match ParseCommand(CommandLine(entry))
    case None => None
    case Some(argv) => SingleItem(argv)
  }

  /** A non-empty word with no space, newline or double quote. It may hold
      other shell metacharacters, which `ParseCommand` reads literally. */
  predicate Word(s: string)
  {
    |s| > 0 && ' ' !in s && '\n' !in s && '"' !in s
  }

  lemma ParseCommandShape(script: string, tail: string)
    requires '"' !in script && |tail| > 0 && tail[0] == ' '
    ensures var words := tail[1..];
            ParseCommand("node \"" + (script + ['"'] + tail))
            == Some(["node", script, CutAt(words, ' '), CutAt(After(words, ' '), ' ')])
  {
    var rest := script + ['"'] + tail;
    var line := "node \"" + rest;
    assert line[..6] == "node \"";
    assert line[6..] == rest;
    CutAtJoin(script, '"', tail);
    assert '"' in rest by { assert rest[|script|] == '"'; }
  }

  lemma ParseReplayLine(script: string, d: Descriptor)
    requires '"' !in script && Word(d.id) && Word(d.date)
    ensures ParseCommand(ReplayLine(script, d)) == Some(["node", script, d.id, d.date])
  {
    var words := d.id + [' '] + d.date;
    var tail := [' '] + words;
    assert ReplayLine(script, d) == "node \"" + (script + ['"'] + tail);
    ParseCommandShape(script, tail);
    assert tail[1..] == words;
    CutAtJoin(d.id, ' ', d.date);
    CutAtAbsent(d.date, ' ');
  }

  lemma CommandLineOf(head: string, line: string)
    requires '\n' !in head && '\n' !in line
    ensures CommandLine(head + "\n" + line + "\n\n") == line
  {
    var rest := line + ['\n'] + "\n";
    assert head + "\n" + line + "\n\n" == head + ['\n'] + rest;
    CutAtJoin(head, '\n', rest);
    CutAtJoin(line, '\n', "\n");
  }

  lemma ReplayLineOneLine(script: string, d: Descriptor)
    requires '\n' !in script && Word(d.id) && Word(d.date)
    ensures '\n' !in ReplayLine(script, d)
  {
    var line := ReplayLine(script, d);
    forall i | 0 <= i < |line|
      ensures line[i] != '\n'
    {
      if i < 6 {
        assert line[i] == "node \""[i];
      } else if i < 6 + |script| {
        assert line[i] == script[i - 6];
      } else if i < 8 + |script| {
        assert line[i] == "\" "[i - 6 - |script|];
      } else if i < 8 + |script| + |d.id| {
        assert line[i] == d.id[i - 8 - |script|];
      } else if i == 8 + |script| + |d.id| {
        assert line[i] == ' ';
      } else {
        assert line[i] == d.date[i - 9 - |script| - |d.id|];
      }
    }
  }

  /** Replaying an entry's command downloads exactly the bill the entry is
      about, when the identifier and date are plain words. */
  lemma ReplayRoundTrip(head: string, script: string, d: Descriptor)
    requires '\n' !in head && '"' !in script && '\n' !in script
    requires Word(d.id) && Word(d.date)
    ensures ReplayOf(ReplayEntry(head, script, d)) == Some(d)
  {
    var line := ReplayLine(script, d);
    ReplayLineOneLine(script, d);
    CommandLineOf(head, line);
    ParseReplayLine(script, d);
    ReplayOfCommand(ReplayEntry(head, script, d), ["node", script, d.id, d.date]);
  }

  /** An entry whose command line parses replays the arguments it names. */
  lemma ReplayOfCommand(entry: string, argv: seq<string>)
    requires ParseCommand(CommandLine(entry)) == Some(argv)
    ensures ReplayOf(entry) == SingleItem(argv)
  {
  }

  /** An entry of one line followed by a blank line offers nothing to replay. */
  lemma NoReplay(head: string)
    requires '\n' !in head
    ensures ReplayOf(head + "\n\n") == None
  {
    assert head + "\n\n" == head + ['\n'] + "\n";
    CutAtJoin(head, '\n', "\n");
    assert "\n" == [] + ['\n'] + [];
    CutAtJoin([], '\n', []);
  }

  /** An exception entry offers nothing to replay. */
  lemma ExceptionEntryNoReplay(id: string, message: string)
    requires '\n' !in id && '\n' !in message
    ensures ReplayOf(ExceptionEntry(id, message)) == None
  {
    var head := "Error downloading bill " + id + ": " + message;
    assert '\n' !in "Error downloading bill " && '\n' !in ": ";
    assert ExceptionEntry(id, message) == head + "\n\n";
    NoReplay(head);
  }
}
