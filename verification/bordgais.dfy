/** Bord Gáis Energy: one transactions request, a filter on the bill link,
    then a plain loop in which each bill takes two requests, a credentialed
    lookup of its download link and an anonymous fetch of that link. Any
    non-ok lookup ends the loop; an exception logs one entry and ends it;
    the link's own status is never checked. There is no single-bill mode. */
module BordGais {
  import opened Values
  import opened Engine

  /** One item of the transactions response. */
  datatype Charge = Charge(billId: Slot<string>, date: Slot<string>, billUrl: Slot<string>)

  // ---------------------------------------------------------------------
  // Discovery.

  /** `.filter(item => item.billUrl != "")`: only an empty link is dropped;
      an absent or `null` link is kept. */
  function WithLink(items: seq<Charge>): (r: seq<Charge>)
    ensures |r| <= |items|
    ensures forall c :: c in r <==> c in items && c.billUrl != Present("")
    decreases |items|
  {
    if |items| == 0 then []
    else (if items[0].billUrl != Present("") then [items[0]] else []) + WithLink(items[1..])
  }

  /** The filter keeps the order of the items it keeps. */
  lemma {:induction false} WithLinkAppend(a: seq<Charge>, b: seq<Charge>)
    ensures WithLink(a + b) == WithLink(a) + WithLink(b)
    decreases |a|
  {
    if |a| > 0 {
      var h := if a[0].billUrl != Present("") then [a[0]] else [];
      assert (a + b)[0] == a[0];
      assert (a + b)[1..] == a[1..] + b;
      assert WithLink(a + b) == h + WithLink(a[1..] + b);
      WithLinkAppend(a[1..], b);
      AppendAssociates(h, WithLink(a[1..]), WithLink(b));
    } else {
      assert a + b == b;
    }
  }

  /** `getBillsHistory`. A 404 returns `undefined`; any other status goes
      on to the body. A body that is not an array, like any exception, is
      caught and returns `[]`; otherwise the items with a link. */
  function GetBillsHistory(o: Fetch<Option<seq<Charge>>>): (r: Discovery<Charge>)
    ensures r.Undefined? <==> o.Status(404)
    ensures r.Found? <==> !o.Status(404)
    ensures r.Found? ==> forall i :: 0 <= i < |r.items| ==> r.items[i].billUrl != Present("")
    ensures o.Thrown? ==> r == Found([])
    ensures o.Response? && !o.Status(404) ==> r == Found(if o.body.Some? then WithLink(o.body.value) else [])
  {
    match o
    case Thrown(_) => Found([])
    case Response(_, body) =>
      if o.Status(404) then Discovery.Undefined
      else
        match body
        case None => Found([])
        case Some(items) => Found(WithLink(items))
  }

  // ---------------------------------------------------------------------
  // Downloading.

  /** What the lookup for a bill asks for. */
  function LookupOf(c: Charge): Target
  {
    Document(SlotText(c.billId))
  }

  /** The file a bill is saved to. */
  function FileOf(c: Charge): string
  {
    PdfName(SlotText(c.date))
  }

  /** The projections of a trace of at most one effect. */
  lemma ShortProjections(t: seq<Effect>)
    requires |t| <= 1
    ensures Files(t) == if |t| == 1 && t[0].WriteFile? then [t[0].name] else []
    ensures Ledger(t) == if |t| == 1 && t[0].AppendLedger? then [t[0].entry] else []
    ensures Requests(t) == if |t| == 1 && t[0].Request? then [t[0].target] else []
  {
    if |t| == 1 {
      ProjectionsOne(t[0]);
      assert t == [t[0]];
    }
  }

  /** The effects of a pass, with the projections each shape has. */
  function Trace(c: Charge, link: Option<string>, last: Option<Effect>): (t: seq<Effect>)
    requires last.Some? ==> last.value.WriteFile? || last.value.AppendLedger?
    ensures Requests(t) == [LookupOf(c)] + (if link.Some? then [Link(link.value)] else [])
    ensures Files(t) == if last.Some? && last.value.WriteFile? then [last.value.name] else []
    ensures Ledger(t) == if last.Some? && last.value.AppendLedger? then [last.value.entry] else []
    ensures KeepsLedger(t)
  {
    TraceParts(c, link, last);
    [Request(LookupOf(c))]
      + (if link.Some? then [Request(Link(link.value))] else [])
      + (if last.Some? then [last.value] else [])
  }

  /** The projections of the three parts of a pass's trace. */
  lemma TraceParts(c: Charge, link: Option<string>, last: Option<Effect>)
    requires last.Some? ==> last.value.WriteFile? || last.value.AppendLedger?
    ensures var t := [Request(LookupOf(c))]
                     + (if link.Some? then [Request(Link(link.value))] else [])
                     + (if last.Some? then [last.value] else []);
            && Requests(t) == [LookupOf(c)] + (if link.Some? then [Link(link.value)] else [])
            && Files(t) == (if last.Some? && last.value.WriteFile? then [last.value.name] else [])
            && Ledger(t) == (if last.Some? && last.value.AppendLedger? then [last.value.entry] else [])
            && KeepsLedger(t)
  {
    var ask := [Request(LookupOf(c))];
    var follow := if link.Some? then [Request(Link(link.value))] else [];
    var tail := if last.Some? then [last.value] else [];
    ProjectionsOne(Request(LookupOf(c)));
    ShortProjections(follow);
    ShortProjections(tail);
    assert Requests(follow) == (if link.Some? then [Link(link.value)] else []);
    assert Files(follow) == [] && Ledger(follow) == [];
    assert Requests(tail) == [];
    ProjectionsAppend(ask, follow);
    ProjectionsAppend(ask + follow, tail);
    TraceKeepsLedger(ask, follow, tail);
  }

  /** None of the three parts deletes the ledger. */
  lemma TraceKeepsLedger(ask: seq<Effect>, follow: seq<Effect>, tail: seq<Effect>)
    requires |ask| == 1 && ask[0].Request?
    requires |follow| <= 1 && (|follow| == 1 ==> follow[0].Request?)
    requires |tail| <= 1 && (|tail| == 1 ==> tail[0].WriteFile? || tail[0].AppendLedger?)
    ensures KeepsLedger(ask + follow + tail)
  {
    KeepsLedgerAppend(ask, follow);
    KeepsLedgerAppend(ask + follow, tail);
  }

  /** The message of the `TypeError` that `fetch` rejects with when its
      argument does not parse as a URL, as `fetch(undefined)` never does. */
  function UnparsableUrl(text: string): string
  {
    "Failed to parse URL from " + text
  }

  /** One pass of the loop. A non-ok lookup returns; an ok lookup's `url`
      is fetched without credentials and whatever arrives is written to
      `<date>.pdf`, whatever its status. A lookup body without a `url`
      hands `fetch` the value `undefined` (or `null`), which it rejects
      before any request. An exception in either request, or in reading a
      body, appends one entry and returns `false`. */
  function ItemStep(c: Charge, lookup: Fetch<Slot<string>>, download: string -> Fetch<()>): (s: Step)
    ensures s.Next? <==> lookup.Ok() && lookup.body.Present? && download(lookup.body.value).Response?
    ensures s.Stop? ==> s.ending == Halted
  {
    var id := SlotText(c.billId);
    match lookup
    case Thrown(m) => Stop(Trace(c, None, Some(AppendLedger(ExceptionEntry(id, m)))), Halted)
    case Response(_, body) =>
      if !lookup.Ok() then Stop(Trace(c, None, None), Halted)
      else
        match body
        case Present(url) =>
          (match download(url)
           case Thrown(m) => Stop(Trace(c, Some(url), Some(AppendLedger(ExceptionEntry(id, m)))), Halted)
           case Response(_, _) => Next(Trace(c, Some(url), Some(WriteFile(FileOf(c))))))
        case _ => Stop(Trace(c, None, Some(AppendLedger(ExceptionEntry(id, UnparsableUrl(SlotText(body)))))), Halted)
  }

  /** A pass asks for the lookup, then for the link it names when the
      lookup is ok and has one. It writes its file exactly when it goes on,
      leaves a ledger entry exactly when one of its requests throws, and
      never leaves more than one: `Error downloading bill <billId>:
      <message>` with the message of the exception. */
  lemma StepProjections(c: Charge, lookup: Fetch<Slot<string>>, download: string -> Fetch<()>)
    ensures var s := ItemStep(c, lookup, download);
            && Requests(s.effects)[0] == LookupOf(c)
            && Requests(s.effects) == [LookupOf(c)]
                                      + (if lookup.Ok() && lookup.body.Present? then [Link(lookup.body.value)] else [])
            && Files(s.effects) == (if s.Next? then [FileOf(c)] else [])
            && |Ledger(s.effects)| <= 1
            && (|Ledger(s.effects)| == 1
                <==> lookup.Thrown? || (lookup.Ok() && !(lookup.body.Present? && download(lookup.body.value).Response?)))
            && KeepsLedger(s.effects)
    ensures var s := ItemStep(c, lookup, download);
            var id := SlotText(c.billId);
            && (lookup.Thrown? ==> Ledger(s.effects) == [ExceptionEntry(id, lookup.message)])
            && (lookup.Ok() && lookup.body.Present? && download(lookup.body.value).Thrown? ==>
                  Ledger(s.effects) == [ExceptionEntry(id, download(lookup.body.value).message)])
            && (lookup.Ok() && !lookup.body.Present? ==>
                  Ledger(s.effects) == [ExceptionEntry(id, UnparsableUrl(SlotText(lookup.body)))])
  {
  }

  /** The link is fetched and saved whatever status it answers with: even
      an error page becomes `<date>.pdf`. */
  lemma LinkStatusUnchecked(c: Charge, lookup: Fetch<Slot<string>>, download: string -> Fetch<()>)
    requires lookup.Ok() && lookup.body.Present? && download(lookup.body.value).NotOk()
    ensures var s := ItemStep(c, lookup, download);
            s.Next? && Files(s.effects) == [FileOf(c)]
            && Requests(s.effects) == [LookupOf(c), Link(lookup.body.value)]
  {
  }

  /** The pass for each bill, given the two backends. */
  function Pass(lookup: Charge -> Fetch<Slot<string>>, download: string -> Fetch<()>): Charge -> Step
  {
    (c: Charge) => ItemStep(c, lookup(c), download)
  }

  /** Passes that go on leave no ledger entry. */
  lemma {:induction false} CompleteWalkNoLedger(items: seq<Charge>, lookup: Charge -> Fetch<Slot<string>>,
                                                download: string -> Fetch<()>)
    requires forall i :: 0 <= i < |items| ==> Pass(lookup, download)(items[i]).Next?
    ensures var w := Walk(items, Pass(lookup, download)).effects;
            && Ledger(w) == []
            && Files(w) == Select(items, (_: Charge) => true, FileOf)
            && KeepsLedger(w)
    decreases |items|
  {
    if |items| > 0 {
      var c := items[0];
      var rest := items[1..];
      assert forall i :: 0 <= i < |rest| ==> rest[i] == items[i + 1];
      CompleteWalkNoLedger(rest, lookup, download);
      StepProjections(c, lookup(c), download);
      var e := ItemStep(c, lookup(c), download).effects;
      ProjectionsAppend(e, Walk(rest, Pass(lookup, download)).effects);
      KeepsLedgerAppend(e, Walk(rest, Pass(lookup, download)).effects);
    }
  }

  /** The link a lookup names; the empty text when it names none. */
  function LinkUrl(o: Fetch<Slot<string>>): string
  {
    match o
    case Response(_, Present(url)) => url
    case _ => ""
  }

  /** The lookup and then the link of each bill, in list order. */
  function Fetched(items: seq<Charge>, lookup: Charge -> Fetch<Slot<string>>): seq<Target>
    decreases |items|
  {
    if |items| == 0 then []
    else [LookupOf(items[0]), Link(LinkUrl(lookup(items[0])))] + Fetched(items[1..], lookup)
  }

  /** Bill `i` owns places `2i` and `2i + 1`: its lookup, then its link. */
  lemma {:induction false} FetchedAt(items: seq<Charge>, lookup: Charge -> Fetch<Slot<string>>)
    ensures var r := Fetched(items, lookup);
            && |r| == 2 * |items|
            && forall i :: 0 <= i < |items| ==>
                 r[2 * i] == LookupOf(items[i]) && r[2 * i + 1] == Link(LinkUrl(lookup(items[i])))
    decreases |items|
  {
    if |items| > 0 {
      var rest := items[1..];
      FetchedAt(rest, lookup);
      var r := Fetched(items, lookup);
      var t := Fetched(rest, lookup);
      assert r == [LookupOf(items[0]), Link(LinkUrl(lookup(items[0])))] + t;
      forall i | 0 < i < |items|
        ensures r[2 * i] == LookupOf(items[i]) && r[2 * i + 1] == Link(LinkUrl(lookup(items[i])))
      {
        assert items[i] == rest[i - 1];
        assert r[2 * i] == t[2 * (i - 1)] && r[2 * i + 1] == t[2 * (i - 1) + 1];
      }
    }
  }

  /** Passes that go on make exactly the two requests of each bill, in
      list order. */
  lemma {:induction false} CompleteWalkFetched(items: seq<Charge>, lookup: Charge -> Fetch<Slot<string>>,
                                               download: string -> Fetch<()>)
    requires forall i :: 0 <= i < |items| ==> Pass(lookup, download)(items[i]).Next?
    ensures Requests(Walk(items, Pass(lookup, download)).effects) == Fetched(items, lookup)
    decreases |items|
  {
    if |items| > 0 {
      var step := Pass(lookup, download);
      var c := items[0];
      var rest := items[1..];
      assert forall i :: 0 <= i < |rest| ==> rest[i] == items[i + 1];
      CompleteWalkFetched(rest, lookup, download);
      StepProjections(c, lookup(c), download);
      var e := step(c).effects;
      var tail := Walk(rest, step).effects;
      assert Walk(items, step).effects == e + tail;
      ProjectionsAppend(e, tail);
      assert Requests(e) == [LookupOf(c), Link(LinkUrl(lookup(c)))];
    }
  }

  /** Passes that go on ask, bill by bill, for the lookup and then for the
      link it names: two requests per bill, in list order. */
  lemma CompleteWalkRequests(items: seq<Charge>, lookup: Charge -> Fetch<Slot<string>>,
                             download: string -> Fetch<()>)
    requires forall i :: 0 <= i < |items| ==> Pass(lookup, download)(items[i]).Next?
    ensures var r := Requests(Walk(items, Pass(lookup, download)).effects);
            && |r| == 2 * |items|
            && forall i :: 0 <= i < |items| ==>
                 r[2 * i] == LookupOf(items[i]) && r[2 * i + 1] == Link(lookup(items[i]).body.value)
  {
    CompleteWalkFetched(items, lookup, download);
    FetchedAt(items, lookup);
    forall i | 0 <= i < |items|
      ensures LinkUrl(lookup(items[i])) == lookup(items[i]).body.value
    {
      assert ItemStep(items[i], lookup(items[i]), download).Next?;
    }
  }

  /** A run asks for the lookup and the link of every bill before the one
      that stopped the loop, in order; then for that bill's lookup, and its
      link too when the lookup is ok and names one. Nothing after it is
      requested. */
  lemma WalkRequests(items: seq<Charge>, lookup: Charge -> Fetch<Slot<string>>, download: string -> Fetch<()>)
    ensures var step := Pass(lookup, download);
            var k := FirstStop(items, step);
            Requests(Walk(items, step).effects)
            == Fetched(items[..k], lookup)
               + (if k == |items| then []
                  else [LookupOf(items[k])]
                       + (if lookup(items[k]).Ok() && lookup(items[k]).body.Present?
                          then [Link(lookup(items[k]).body.value)] else []))
  {
    var step := Pass(lookup, download);
    var k := FirstStop(items, step);
    WalkStopsAtFirstStop(items, step);
    PrefixFetched(items, lookup, download);
    if k < |items| {
      StoppedPassRequests(Walk(items[..k], step).effects, items[k], lookup(items[k]), download);
    } else {
      assert items[..k] == items;
    }
  }

  /** The bills before the first stop make their two requests each. */
  lemma PrefixFetched(items: seq<Charge>, lookup: Charge -> Fetch<Slot<string>>, download: string -> Fetch<()>)
    ensures var step := Pass(lookup, download);
            var k := FirstStop(items, step);
            Requests(Walk(items[..k], step).effects) == Fetched(items[..k], lookup)
  {
    var step := Pass(lookup, download);
    var before := items[..FirstStop(items, step)];
    assert forall i :: 0 <= i < |before| ==> before[i] == items[i];
    CompleteWalkFetched(before, lookup, download);
  }

  /** The requests of a trace followed by one pass. */
  lemma StoppedPassRequests(p: seq<Effect>, c: Charge, o: Fetch<Slot<string>>, download: string -> Fetch<()>)
    ensures Requests(p + ItemStep(c, o, download).effects)
            == Requests(p) + ([LookupOf(c)] + (if o.Ok() && o.body.Present? then [Link(o.body.value)] else []))
  {
    StepProjections(c, o, download);
    ProjectionsAppend(p, ItemStep(c, o, download).effects);
  }

  /** A run's ledger holds at most one entry: the exception that ended it,
      if one did. Every bill before the one that stopped the loop is saved,
      in order, and no other. */
  lemma AtMostOneEntry(items: seq<Charge>, lookup: Charge -> Fetch<Slot<string>>, download: string -> Fetch<()>)
    ensures var step := Pass(lookup, download);
            var k := FirstStop(items, step);
            var w := Walk(items, step).effects;
            && |Ledger(w)| <= 1
            && Files(Walk(items[..k], step).effects) == Select(items[..k], (_: Charge) => true, FileOf)
            && (|Ledger(w)| == 1 <==> k < |items| && |Ledger(step(items[k]).effects)| == 1)
            && Ledger(w) == (if k < |items| then Ledger(step(items[k]).effects) else [])
            && Files(w) == Select(items[..k], (_: Charge) => true, FileOf)
  {
    var step := Pass(lookup, download);
    var k := FirstStop(items, step);
    WalkStopsAtFirstStop(items, step);
    CompleteWalkNoLedger(items[..k], lookup, download);
    if k < |items| {
      var c := items[k];
      StepProjections(c, lookup(c), download);
      ProjectionsAppend(Walk(items[..k], step).effects, step(c).effects);
    } else {
      assert items[..k] == items;
    }
  }

  // ---------------------------------------------------------------------
  // The script.

  /** The whole script: placeholder credentials exit before any request; an
      `undefined` history exits after it; otherwise the count is announced
      and the bills are walked. */
  function Main(configured: bool, history: Fetch<Option<seq<Charge>>>,
                lookup: Charge -> Fetch<Slot<string>>, download: string -> Fetch<()>): Run
  {
    if !configured then Run([], Exited)
    else
      match GetBillsHistory(history)
      case Found(items) =>
        var w := Walk(items, Pass(lookup, download));
        Run([Request(BillList), Announce(|items|)] + w.effects, w.ending)
      case _ => Run([Request(BillList)], Exited)
  }

  /** The loop always finishes or halts: a run never crashes once the
      credentials are set, and it exits early only on a 404 history. */
  lemma RunEnding(configured: bool, history: Fetch<Option<seq<Charge>>>,
                  lookup: Charge -> Fetch<Slot<string>>, download: string -> Fetch<()>)
    ensures var r := Main(configured, history, lookup, download);
            && (r.ending == Exited <==> !configured || history.Status(404))
            && r.ending != Crashed
  {
    if configured && !history.Status(404) {
      var items := GetBillsHistory(history).items;
      var step := Pass(lookup, download);
      var k := FirstStop(items, step);
      var w := Walk(items, step);
      assert Main(configured, history, lookup, download)
          == Run([Request(BillList), Announce(|items|)] + w.effects, w.ending);
      WalkStopsAtFirstStop(items, step);
      if k < |items| {
        assert step(items[k]).ending == Halted;
      }
      assert w.ending == Finished || w.ending == Halted;
    }
  }

  /** The ledger is only appended to: a run keeps every earlier entry, so
      entries accumulate from run to run. */
  lemma LedgerAccumulates(configured: bool, history: Fetch<Option<seq<Charge>>>,
                          lookup: Charge -> Fetch<Slot<string>>, download: string -> Fetch<()>, prior: seq<string>)
    ensures var r := Main(configured, history, lookup, download);
            ApplyLedger(prior, r.effects) == prior + Ledger(r.effects)
  {
    var r := Main(configured, history, lookup, download);
    if configured && !history.Status(404) {
      var items := GetBillsHistory(history).items;
      var step := Pass(lookup, download);
      forall i | 0 <= i < |items|
        ensures KeepsLedger(step(items[i]).effects)
      {
        StepProjections(items[i], lookup(items[i]), download);
      }
      WalkKeepsLedger(items, step);
      var w := Walk(items, step).effects;
      var p := [Request(BillList), Announce(|items|)];
      assert KeepsLedger(p);
      KeepsLedgerAppend(p, w);
    }
    AppendOnlyLedger(prior, r.effects);
  }

  /** After the history and the announcement the run is the walk. */
  lemma FoundRunIsWalk(history: Fetch<Option<seq<Charge>>>,
                       lookup: Charge -> Fetch<Slot<string>>, download: string -> Fetch<()>)
    requires !history.Status(404)
    ensures var r := Main(true, history, lookup, download);
            var w := Walk(GetBillsHistory(history).items, Pass(lookup, download));
            && r.ending == w.ending
            && Requests(r.effects) == [BillList] + Requests(w.effects)
            && Files(r.effects) == Files(w.effects)
            && Ledger(r.effects) == Ledger(w.effects)
  {
    var items := GetBillsHistory(history).items;
    var w := Walk(items, Pass(lookup, download));
    var p := [Request(BillList), Announce(|items|)];
    assert GetBillsHistory(history) == Found(items);
    assert Main(true, history, lookup, download) == Run(p + w.effects, w.ending);
    AnnouncedPrefix(|items|);
    ProjectionsAppend(p, w.effects);
  }

  /** The two effects before the loop. */
  lemma AnnouncedPrefix(count: int)
    ensures var p := [Request(BillList), Announce(count)];
            Requests(p) == [BillList] && Files(p) == [] && Ledger(p) == [] && KeepsLedger(p)
  {
    var a, b := Request(BillList), Announce(count);
    assert [a, b] == [a] + [b];
    ProjectionsOne(a);
    ProjectionsOne(b);
    ProjectionsAppend([a], [b]);
  }
}
