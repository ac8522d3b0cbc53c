/**
 Writing a guide's prices: the fill rule, the apply and "Use guide price" of
 app/laptops/price_guide_service.py, over laptop rows by id and an append-only price history.
 */
module PriceApply {
  import opened Common

  datatype Source = Page | AppleBuyPage | Guide | Manual

  /** A price of 0 means none; `checked` is Last Checked. */
  datatype Laptop = Laptop(price: real, checked: Option<real>)

  /** One price history row; rows older than the source column have none. */
  datatype Entry = Entry(laptop: nat, price: real, source: Option<Source>, guide: Option<nat>)

  /** A matched laptop and the one price its guide rows agree on. */
  datatype Quote = Quote(laptop: nat, price: real)

  datatype Action = Fill | Confirm | Differs

  function Decide(stored: real, latest: Option<Source>, guidePrice: real): Action {
    if stored == 0.0 then Fill
    else if stored == guidePrice then Confirm
    else if latest == Some(Guide) then Fill
    else Differs
  }

  /** The laptop's most recent row among the first n. */
  function LatestEntry(history: seq<Entry>, n: nat, id: nat): Option<Entry>
    requires n <= |history|
  {
    if n == 0 then None
    else if history[n - 1].laptop == id then Some(history[n - 1])
    else LatestEntry(history, n - 1, id)
  }

  function LatestSource(history: seq<Entry>, id: nat): Option<Source> {
    match LatestEntry(history, |history|, id)
    case Some(e) => e.source
    case None => None
  }

  datatype Book = Book(laptops: map<nat, Laptop>, history: seq<Entry>)

  /** The guide being applied, when it was uploaded, and the time of the apply. */
  datatype Run = Run(guide: nat, uploaded: real, now: real)

  function Written(b: Book, q: Quote, run: Run): Book
    requires q.laptop in b.laptops
  {
    Book(b.laptops[q.laptop := Laptop(q.price, Some(run.now))],
         b.history + [Entry(q.laptop, q.price, Some(Guide), Some(run.guide))])
  }

  function Touched(b: Book, id: nat, now: real): Book
    requires id in b.laptops
  {
    b.(laptops := b.laptops[id := b.laptops[id].(checked := Some(now))])
  }

  /** Last Checked is older than the guide. */
  predicate Stale(l: Laptop, uploaded: real) {
    l.checked.None? || l.checked.value < uploaded
  }

  /** What a quote's apply would do, going by the history the apply started from. */
  function ActionOn(b: Book, history: seq<Entry>, q: Quote): Action
    requires q.laptop in b.laptops
  {
    Decide(b.laptops[q.laptop].price, LatestSource(history, q.laptop), q.price)
  }

  function Step(b: Book, history: seq<Entry>, q: Quote, run: Run): Book
    requires q.laptop in b.laptops
  {
    match ActionOn(b, history, q)
    case Fill => Written(b, q, run)
    case Confirm => if Stale(b.laptops[q.laptop], run.uploaded) then Touched(b, q.laptop, run.now) else b
    case Differs => b
  }

  ghost predicate Quotable(laptops: map<nat, Laptop>, quotes: seq<Quote>) {
    && (forall i :: 0 <= i < |quotes| ==> quotes[i].laptop in laptops)
    && (forall i, j :: 0 <= i < j < |quotes| ==> quotes[i].laptop != quotes[j].laptop)
  }

  /** The book after the first n quotes, all decided from the history of the start. */
  function Applied(b: Book, quotes: seq<Quote>, n: nat, run: Run): (after: Book)
    requires n <= |quotes| && forall i :: 0 <= i < |quotes| ==> quotes[i].laptop in b.laptops
    ensures after.laptops.Keys == b.laptops.Keys
  {
    if n == 0 then b else Step(Applied(b, quotes, n - 1, run), b.history, quotes[n - 1], run)
  }

  /** What an apply reports of one quote; a price confirmed lately enough is not reported. */
  datatype Outcome = Filled | Rechecked | Unreported | Differing

  function OutcomeOn(b: Book, history: seq<Entry>, q: Quote, run: Run): Outcome
    requires q.laptop in b.laptops
  {
    match ActionOn(b, history, q)
    case Fill => Filled
    case Confirm => if Stale(b.laptops[q.laptop], run.uploaded) then Rechecked else Unreported
    case Differs => Differing
  }

  function Count(b: Book, quotes: seq<Quote>, n: nat, run: Run, o: Outcome): nat
    requires n <= |quotes| && forall i :: 0 <= i < |quotes| ==> quotes[i].laptop in b.laptops
  {
    if n == 0 then 0
    else Count(b, quotes, n - 1, run, o) + if OutcomeOn(b, b.history, quotes[n - 1], run) == o then 1 else 0
  }

  datatype ApplyReport = ApplyReport(filled: nat, confirmed: nat, differs: nat)

  /** The report counts the outcomes of the first n quotes. */
  ghost predicate Reported(b: Book, quotes: seq<Quote>, n: nat, run: Run, r: ApplyReport)
    requires n <= |quotes| && forall i :: 0 <= i < |quotes| ==> quotes[i].laptop in b.laptops
  {
    && r.filled == Count(b, quotes, n, run, Filled)
    && r.confirmed == Count(b, quotes, n, run, Rechecked)
    && r.differs == Count(b, quotes, n, run, Differing)
  }

  lemma ReportGrows(b: Book, quotes: seq<Quote>, n: nat, run: Run, r: ApplyReport, o: Outcome)
    requires n < |quotes| && forall i :: 0 <= i < |quotes| ==> quotes[i].laptop in b.laptops
    requires Reported(b, quotes, n, run, r) && o == OutcomeOn(b, b.history, quotes[n], run)
    ensures Reported(b, quotes, n + 1, run, match o
                                            case Filled => r.(filled := r.filled + 1)
                                            case Rechecked => r.(confirmed := r.confirmed + 1)
                                            case Differing => r.(differs := r.differs + 1)
                                            case Unreported => r)
  {
  }

  class PriceBook {
    var laptops: map<nat, Laptop>
    var history: seq<Entry>

    constructor (laptops: map<nat, Laptop>, history: seq<Entry>)
      ensures this.laptops == laptops && this.history == history
    {
      this.laptops, this.history := laptops, history;
    }

    function View(): Book
      reads this
    {
      Book(laptops, history)
    }

    method WriteGuidePrice(q: Quote, run: Run)
      requires q.laptop in laptops
      modifies this
      ensures View() == Written(old(View()), q, run)
    {
      laptops := laptops[q.laptop := Laptop(q.price, Some(run.now))];
      history := history + [Entry(q.laptop, q.price, Some(Guide), Some(run.guide))];
    }

    method ApplyOne(q: Quote, sources: seq<Entry>, run: Run) returns (o: Outcome)
      requires q.laptop in laptops
      modifies this
      ensures View() == Step(old(View()), sources, q, run) && o == OutcomeOn(old(View()), sources, q, run)
    {
      var action := Decide(laptops[q.laptop].price, LatestSource(sources, q.laptop), q.price);
      if action == Fill {
        WriteGuidePrice(q, run);
        o := Filled;
      } else if action == Differs {
        o := Differing;
      } else if Stale(laptops[q.laptop], run.uploaded) {
        laptops := laptops[q.laptop := laptops[q.laptop].(checked := Some(run.now))];
        o := Rechecked;
      } else {
        o := Unreported;
      }
    }

    /** Writes every matched laptop, in one transaction; the sources are those of the start. */
    method ApplyGuide(quotes: seq<Quote>, run: Run) returns (report: ApplyReport)
      requires Quotable(laptops, quotes)
      modifies this
      ensures View() == Applied(old(View()), quotes, |quotes|, run)
      ensures Reported(old(View()), quotes, |quotes|, run, report)
    {
      ghost var b := View();
      var sources := history;
      report := ApplyReport(0, 0, 0);
      for n := 0 to |quotes|
        invariant View() == Applied(b, quotes, n, run) && Reported(b, quotes, n, run, report)
      {
        NextIsDue(b, quotes, n, run);
        var o := ApplyOne(quotes[n], sources, run);
        ReportGrows(b, quotes, n, run, report, o);
        match o {
          case Filled => report := report.(filled := report.filled + 1);
          case Rechecked => report := report.(confirmed := report.confirmed + 1);
          case Differing => report := report.(differs := report.differs + 1);
          case Unreported =>
        }
      }
    }

    /**
     Replaces the prices of the laptops an admin selected. One that is not waiting on this
     guide refuses the whole selection.
     */
    method UseGuidePrice(matched: seq<Quote>, waiting: seq<Quote>, selected: set<nat>, run: Run)
      returns (result: Result<nat, set<nat>>)
      requires Quotable(laptops, matched) && Quotable(laptops, waiting)
      modifies this
      ensures var refused := selected - Selectable(old(View()), matched, waiting).Keys;
              if refused != {} then result == Err(refused) && View() == old(View())
              else
                && result == Ok(|selected|)
                && Used(old(View()), View(), Selectable(old(View()), matched, waiting), selected, run)
    {
      ghost var b := View();
      var selectable := SelectableNow(matched, waiting);
      var refused := selected - selectable.Keys;
      if refused != {} {
        return Err(refused);
      }
      SelectableIsKnown(b, matched, waiting);
      forall id | id in selected
        ensures id in selectable.Keys
      {
        assert id !in refused;
      }
      UseAll(selectable, selected, run);
      result := Ok(|selected|);
    }

    method UseOne(id: nat, price: real, run: Run)
      requires id in laptops
      modifies this
      ensures View() == UsedNext(old(View()), id, price, run)
    {
      if laptops[id].price == price {
        laptops := laptops[id := laptops[id].(checked := Some(run.now))];
      } else {
        WriteGuidePrice(Quote(id, price), run);
      }
    }

    method UseAll(selectable: map<nat, real>, selected: set<nat>, run: Run)
      requires selected <= selectable.Keys <= laptops.Keys
      modifies this
      ensures Used(old(View()), View(), selectable, selected, run)
    {
      ghost var b := View();
      var left := selected;
      ghost var done: set<nat> := {};
      assert Moved(b, selectable, {}) == {};
      while left != {}
        invariant done == selected - left && left <= selected
        invariant Used(b, View(), selectable, done, run)
        decreases |left|
      {
        var id :| id in left;
        ghost var before := View();
        UseOne(id, selectable[id], run);
        UsedOneMore(b, before, selectable, done, run, id);
        left, done := left - {id}, done + {id};
      }
      assert done == selected;
    }

    method SelectableNow(matched: seq<Quote>, waiting: seq<Quote>) returns (selectable: map<nat, real>)
      requires Quotable(laptops, matched) && Quotable(laptops, waiting)
      ensures selectable == Selectable(View(), matched, waiting)
    {
      selectable := map[];
      for n := 0 to |waiting|
        invariant selectable == WaitingUpTo(waiting, n)
      {
        selectable := selectable[waiting[n].laptop := waiting[n].price];
      }
      for n := 0 to |matched|
        invariant selectable == SelectableUpTo(View(), matched, n, waiting)
      {
        var q := matched[n];
        if Decide(laptops[q.laptop].price, LatestSource(history, q.laptop), q.price) == Differs {
          selectable := selectable[q.laptop := q.price];
        }
      }
    }
  }

  // --- Using a guide's price -------------------------------------------------------------------------

  function WaitingUpTo(waiting: seq<Quote>, n: nat): map<nat, real>
    requires n <= |waiting|
  {
    if n == 0 then map[] else WaitingUpTo(waiting, n - 1)[waiting[n - 1].laptop := waiting[n - 1].price]
  }

  function SelectableUpTo(b: Book, matched: seq<Quote>, n: nat, waiting: seq<Quote>): map<nat, real>
    requires n <= |matched| && forall i :: 0 <= i < |matched| ==> matched[i].laptop in b.laptops
  {
    if n == 0 then WaitingUpTo(waiting, |waiting|)
    else
      var before, q := SelectableUpTo(b, matched, n - 1, waiting), matched[n - 1];
      if ActionOn(b, b.history, q) == Differs then before[q.laptop := q.price] else before
  }

  /** The guide's price for each laptop on the suffix-rule, base-code or differs list. */
  function Selectable(b: Book, matched: seq<Quote>, waiting: seq<Quote>): map<nat, real>
    requires forall i :: 0 <= i < |matched| ==> matched[i].laptop in b.laptops
  {
    SelectableUpTo(b, matched, |matched|, waiting)
  }

  /** Every laptop of `done` has its price and a new Last Checked; a price that moved has a history row. */
  ghost predicate Used(b: Book, after: Book, selectable: map<nat, real>, done: set<nat>, run: Run) {
    && after.laptops.Keys == b.laptops.Keys && done <= selectable.Keys
    && b.history <= after.history && |after.history| == |b.history| + |Moved(b, selectable, done)|
    && forall id :: id in b.laptops ==> UsedOn(b, after, selectable, done, run, id)
  }

  ghost predicate UsedOn(b: Book, after: Book, selectable: map<nat, real>, done: set<nat>, run: Run, id: nat)
    requires id in b.laptops && id in after.laptops && done <= selectable.Keys
  {
    && after.laptops[id] == (if id in done then Laptop(selectable[id], Some(run.now)) else b.laptops[id])
    && LatestEntry(after.history, |after.history|, id) ==
         (if id in Moved(b, selectable, done) then Some(Entry(id, selectable[id], Some(Guide), Some(run.guide)))
          else LatestEntry(b.history, |b.history|, id))
  }

  function Moved(b: Book, selectable: map<nat, real>, done: set<nat>): set<nat>
    requires done <= selectable.Keys
  {
    set id | id in done && id in b.laptops && b.laptops[id].price != selectable[id]
  }

  lemma {:induction false} WaitingIsKnown(laptops: map<nat, Laptop>, waiting: seq<Quote>, n: nat)
    requires n <= |waiting| && Quotable(laptops, waiting)
    ensures WaitingUpTo(waiting, n).Keys <= laptops.Keys
  {
    if n == 0 {
    } else {
      WaitingIsKnown(laptops, waiting, n - 1);
    }
  }

  lemma {:induction false} SelectableUpToIsKnown(b: Book, matched: seq<Quote>, n: nat, waiting: seq<Quote>)
    requires n <= |matched| && Quotable(b.laptops, matched) && Quotable(b.laptops, waiting)
    ensures SelectableUpTo(b, matched, n, waiting).Keys <= b.laptops.Keys
  {
    if n == 0 {
      WaitingIsKnown(b.laptops, waiting, |waiting|);
    } else {
      SelectableUpToIsKnown(b, matched, n - 1, waiting);
    }
  }

  lemma SelectableIsKnown(b: Book, matched: seq<Quote>, waiting: seq<Quote>)
    requires Quotable(b.laptops, matched) && Quotable(b.laptops, waiting)
    ensures Selectable(b, matched, waiting).Keys <= b.laptops.Keys
  {
    SelectableUpToIsKnown(b, matched, |matched|, waiting);
  }

  /** The book once one more selected laptop has its price. */
  function UsedNext(before: Book, id: nat, price: real, run: Run): Book
    requires id in before.laptops
  {
    if before.laptops[id].price == price then Touched(before, id, run.now) else Written(before, Quote(id, price), run)
  }

  lemma UsedOneMore(b: Book, before: Book, selectable: map<nat, real>, done: set<nat>, run: Run, id: nat)
    requires Used(b, before, selectable, done, run) && id in b.laptops && id in selectable && id !in done
    ensures Used(b, UsedNext(before, id, selectable[id], run), selectable, done + {id}, run)
  {
    assert UsedOn(b, before, selectable, done, run, id);
    MovedOneMore(b, selectable, done, id);
    forall other | other in b.laptops
      ensures UsedOn(b, UsedNext(before, id, selectable[id], run), selectable, done + {id}, run, other)
    {
      assert UsedOn(b, before, selectable, done, run, other);
      UsedOnOneMore(b, before, selectable, done, run, id, other);
    }
  }

  lemma UsedOnOneMore(b: Book, before: Book, selectable: map<nat, real>, done: set<nat>, run: Run, id: nat, other: nat)
    requires id in b.laptops && id in selectable && id !in done && other in b.laptops
    requires before.laptops.Keys == b.laptops.Keys && done <= selectable.Keys
    requires UsedOn(b, before, selectable, done, run, id) && UsedOn(b, before, selectable, done, run, other)
    ensures UsedOn(b, UsedNext(before, id, selectable[id], run), selectable, done + {id}, run, other)
  {
    MovedOneMore(b, selectable, done, id);
    LatestOfMore(before.history, Entry(id, selectable[id], Some(Guide), Some(run.guide)), other);
  }

  lemma MovedOneMore(b: Book, selectable: map<nat, real>, done: set<nat>, id: nat)
    requires done <= selectable.Keys && id in b.laptops && id in selectable && id !in done
    ensures Moved(b, selectable, done + {id}) ==
            Moved(b, selectable, done) + if b.laptops[id].price != selectable[id] then {id} else {}
    ensures |Moved(b, selectable, done + {id})| ==
            |Moved(b, selectable, done)| + if b.laptops[id].price != selectable[id] then 1 else 0
  {
    assert Moved(b, selectable, done + {id}) ==
           Moved(b, selectable, done) + if b.laptops[id].price != selectable[id] then {id} else {};
    assert id !in Moved(b, selectable, done);
  }

  /** A step leaves every laptop but its quote's as it was, and so its latest history row. */
  lemma StepKeepsOthers(before: Book, history: seq<Entry>, q: Quote, run: Run, id: nat)
    requires q.laptop in before.laptops && id in before.laptops && id != q.laptop
    ensures var after := Step(before, history, q, run);
            && after.laptops[id] == before.laptops[id]
            && LatestEntry(after.history, |after.history|, id) == LatestEntry(before.history, |before.history|, id)
  {
    if ActionOn(before, history, q) == Fill {
      LatestOfMore(before.history, Entry(q.laptop, q.price, Some(Guide), Some(run.guide)), id);
    }
  }

  /** A laptop none of the first n quotes names is as it was. */
  lemma {:induction false} UntouchedSoFar(b: Book, quotes: seq<Quote>, n: nat, run: Run, id: nat)
    requires n <= |quotes| && Quotable(b.laptops, quotes) && id in b.laptops
    requires forall i :: 0 <= i < n ==> quotes[i].laptop != id
    ensures var after := Applied(b, quotes, n, run);
            && after.laptops[id] == b.laptops[id]
            && LatestEntry(after.history, |after.history|, id) == LatestEntry(b.history, |b.history|, id)
  {
    if n == 0 {
    } else {
      UntouchedSoFar(b, quotes, n - 1, run, id);
      StepKeepsOthers(Applied(b, quotes, n - 1, run), b.history, quotes[n - 1], run, id);
    }
  }

  /** The next quote is still decided as it would have been at the start. */
  lemma NextIsDue(b: Book, quotes: seq<Quote>, n: nat, run: Run)
    requires n < |quotes| && Quotable(b.laptops, quotes)
    ensures var before := Applied(b, quotes, n, run);
            && OutcomeOn(before, b.history, quotes[n], run) == OutcomeOn(b, b.history, quotes[n], run)
            && |Applied(b, quotes, n + 1, run).history| ==
               |before.history| + if OutcomeOn(b, b.history, quotes[n], run) == Filled then 1 else 0
  {
    UntouchedSoFar(b, quotes, n, run, quotes[n].laptop);
  }

  lemma LatestOfMore(history: seq<Entry>, e: Entry, id: nat)
    ensures LatestEntry(history + [e], |history| + 1, id) ==
            if e.laptop == id then Some(e) else LatestEntry(history, |history|, id)
  {
    LatestOfPrefix(history, history + [e], |history|, id);
  }

  lemma {:induction false} LatestOfPrefix(a: seq<Entry>, b: seq<Entry>, n: nat, id: nat)
    requires n <= |a| && n <= |b| && forall i :: 0 <= i < n ==> a[i] == b[i]
    ensures LatestEntry(a, n, id) == LatestEntry(b, n, id)
  {
    if n == 0 {
    } else {
      LatestOfPrefix(a, b, n - 1, id);
    }
  }

  // --- What an apply promises --------------------------------------------------------------------------

  lemma OneMoreCounted(b: Book, quotes: seq<Quote>, n: nat, run: Run, o: Outcome)
    requires n < |quotes| && forall i :: 0 <= i < |quotes| ==> quotes[i].laptop in b.laptops
    ensures Count(b, quotes, n + 1, run, o) ==
            Count(b, quotes, n, run, o) + if OutcomeOn(b, b.history, quotes[n], run) == o then 1 else 0
  {
  }

  lemma FillIsRecorded(b: Book, quotes: seq<Quote>, n: nat, run: Run)
    requires n < |quotes| && Quotable(b.laptops, quotes)
    ensures |Applied(b, quotes, n + 1, run).history| - |Applied(b, quotes, n, run).history| ==
            Count(b, quotes, n + 1, run, Filled) - Count(b, quotes, n, run, Filled)
  {
    NextIsDue(b, quotes, n, run);
    OneMoreCounted(b, quotes, n, run, Filled);
  }

  /** Every fill leaves one history row, and nothing else does. */
  lemma {:induction false} EveryFillIsRecorded(b: Book, quotes: seq<Quote>, n: nat, run: Run)
    requires n <= |quotes| && Quotable(b.laptops, quotes)
    ensures |Applied(b, quotes, n, run).history| == |b.history| + Count(b, quotes, n, run, Filled)
  {
    if n == 0 {
    } else {
      var m := n - 1;
      EveryFillIsRecorded(b, quotes, m, run);
      FillIsRecorded(b, quotes, m, run);
      assert n == m + 1;
    }
  }

  /** Every quote has one outcome. */
  lemma {:induction false} EveryQuoteIsCounted(b: Book, quotes: seq<Quote>, n: nat, run: Run)
    requires n <= |quotes| && Quotable(b.laptops, quotes)
    ensures Count(b, quotes, n, run, Filled) + Count(b, quotes, n, run, Rechecked)
            + Count(b, quotes, n, run, Unreported) + Count(b, quotes, n, run, Differing) == n
  {
    if n == 0 {
    } else {
      EveryQuoteIsCounted(b, quotes, n - 1, run);
    }
  }

  /** What an apply leaves on a quoted laptop: its price and Last Checked, and its latest history row. */
  ghost predicate Settles(b: Book, after: Book, q: Quote, run: Run)
    requires q.laptop in b.laptops && q.laptop in after.laptops
  {
    var was, now := b.laptops[q.laptop], after.laptops[q.laptop];
    var latest := LatestEntry(after.history, |after.history|, q.laptop);
    match ActionOn(b, b.history, q)
    case Fill =>
      now == Laptop(q.price, Some(run.now)) && latest == Some(Entry(q.laptop, q.price, Some(Guide), Some(run.guide)))
    case Confirm =>
      && now == (if Stale(was, run.uploaded) then Laptop(q.price, Some(run.now)) else was)
      && latest == LatestEntry(b.history, |b.history|, q.laptop)
    case Differs => now == was && latest == LatestEntry(b.history, |b.history|, q.laptop)
  }

  lemma OwnStepSettles(b: Book, before: Book, q: Quote, run: Run)
    requires q.laptop in b.laptops && q.laptop in before.laptops && before.laptops[q.laptop] == b.laptops[q.laptop]
    requires LatestEntry(before.history, |before.history|, q.laptop) == LatestEntry(b.history, |b.history|, q.laptop)
    ensures Settles(b, Step(before, b.history, q, run), q, run)
  {
    LatestOfMore(before.history, Entry(q.laptop, q.price, Some(Guide), Some(run.guide)), q.laptop);
  }

  /** It depends on that laptop and its quote alone. */
  lemma {:induction false} AppliedOn(b: Book, quotes: seq<Quote>, n: nat, run: Run, i: nat)
    requires i < n <= |quotes| && Quotable(b.laptops, quotes)
    ensures Settles(b, Applied(b, quotes, n, run), quotes[i], run)
  {
    var before := Applied(b, quotes, n - 1, run);
    if i == n - 1 {
      UntouchedSoFar(b, quotes, n - 1, run, quotes[i].laptop);
      OwnStepSettles(b, before, quotes[i], run);
    } else {
      AppliedOn(b, quotes, n - 1, run, i);
      StepKeepsOthers(before, b.history, quotes[n - 1], run, quotes[i].laptop);
    }
  }

  // --- The rule, stated of the laptop ------------------------------------------------------------------

  /** The source of the laptop's last history row; none without a row, or when that row has none. */
  ghost predicate CameFrom(history: seq<Entry>, id: nat, source: Option<Source>) {
    || (source == None && forall i :: 0 <= i < |history| ==> history[i].laptop != id)
    || exists i :: 0 <= i < |history| && IsLastRow(history, id, i) && history[i].source == source
  }

  ghost predicate IsLastRow(history: seq<Entry>, id: nat, i: nat) {
    i < |history| && history[i].laptop == id && forall j :: i < j < |history| ==> history[j].laptop != id
  }

  lemma {:induction false} LatestIsTheLastRow(history: seq<Entry>, n: nat, id: nat)
    requires n <= |history|
    ensures match LatestEntry(history, n, id)
            case None => forall i :: 0 <= i < n ==> history[i].laptop != id
            case Some(e) => exists i :: 0 <= i < n && history[i] == e && e.laptop == id
                                        && forall j :: i < j < n ==> history[j].laptop != id
  {
    if n == 0 {
    } else {
      LatestIsTheLastRow(history, n - 1, id);
    }
  }

  lemma LatestSourceIs(history: seq<Entry>, id: nat, source: Option<Source>)
    ensures CameFrom(history, id, source) <==> LatestSource(history, id) == source
  {
    LatestIsTheLastRow(history, |history|, id);
    var latest := LatestEntry(history, |history|, id);
    if latest.Some? {
      var i :| 0 <= i < |history| && history[i] == latest.value && latest.value.laptop == id
               && forall j :: i < j < |history| ==> history[j].laptop != id;
      assert IsLastRow(history, id, i);
      forall k | 0 <= k < |history| && IsLastRow(history, id, k)
        ensures k == i
      {
      }
    }
  }

  /** The quote finds no price, or another that came from a guide. */
  ghost predicate IsFilled(b: Book, q: Quote) {
    && q.laptop in b.laptops
    && var stored := b.laptops[q.laptop].price;
       stored == 0.0 || (stored != q.price && CameFrom(b.history, q.laptop, Some(Guide)))
  }

  /** The quote finds its own price, last checked before the guide was uploaded or never. */
  ghost predicate IsRechecked(b: Book, q: Quote, uploaded: real) {
    && q.laptop in b.laptops
    && var l := b.laptops[q.laptop];
       l.price == q.price != 0.0 && (l.checked == None || l.checked.value < uploaded)
  }

  /** The quote finds another price that no guide gave. */
  ghost predicate IsDiffering(b: Book, q: Quote) {
    && q.laptop in b.laptops
    && var stored := b.laptops[q.laptop].price;
       stored != 0.0 && stored != q.price && !CameFrom(b.history, q.laptop, Some(Guide))
  }

  lemma OutcomeIs(b: Book, q: Quote, run: Run)
    requires q.laptop in b.laptops
    ensures OutcomeOn(b, b.history, q, run) == Filled <==> IsFilled(b, q)
    ensures OutcomeOn(b, b.history, q, run) == Rechecked <==> IsRechecked(b, q, run.uploaded)
    ensures OutcomeOn(b, b.history, q, run) == Differing <==> IsDiffering(b, q)
    ensures ActionOn(b, b.history, q) == Differs <==> IsDiffering(b, q)
  {
    LatestSourceIs(b.history, q.laptop, Some(Guide));
  }

  /**
   What an apply leaves on each laptop it has a quote for: the guide's price and this moment where
   it fills, this moment where it rechecks, and the laptop as it was in all other cases.
   */
  lemma AnApplyFollowsTheRule(b: Book, quotes: seq<Quote>, run: Run, i: nat)
    requires i < |quotes| && Quotable(b.laptops, quotes)
    ensures var q, after := quotes[i], Applied(b, quotes, |quotes|, run);
            after.laptops[q.laptop] ==
              if IsFilled(b, q) then Laptop(q.price, Some(run.now))
              else if IsRechecked(b, q, run.uploaded) then Laptop(q.price, Some(run.now))
              else b.laptops[q.laptop]
  {
    AppliedOn(b, quotes, |quotes|, run, i);
    OutcomeIs(b, quotes[i], run);
  }

  function PlacesWith(b: Book, quotes: seq<Quote>, n: nat, run: Run, o: Outcome): set<nat>
    requires n <= |quotes| && forall i :: 0 <= i < |quotes| ==> quotes[i].laptop in b.laptops
  {
    set i: nat | i < n && OutcomeOn(b, b.history, quotes[i], run) == o
  }

  lemma {:induction false} CountCountsPlaces(b: Book, quotes: seq<Quote>, n: nat, run: Run, o: Outcome)
    requires n <= |quotes| && forall i :: 0 <= i < |quotes| ==> quotes[i].laptop in b.laptops
    ensures Count(b, quotes, n, run, o) == |PlacesWith(b, quotes, n, run, o)|
  {
    if n == 0 {
    } else {
      var m := n - 1;
      CountCountsPlaces(b, quotes, m, run, o);
      OneMorePlace(b, quotes, m, run, o);
      OneMoreCounted(b, quotes, m, run, o);
      assert n == m + 1;
    }
  }

  lemma OneMorePlace(b: Book, quotes: seq<Quote>, m: nat, run: Run, o: Outcome)
    requires m < |quotes| && forall i :: 0 <= i < |quotes| ==> quotes[i].laptop in b.laptops
    ensures |PlacesWith(b, quotes, m + 1, run, o)| ==
            |PlacesWith(b, quotes, m, run, o)| + if OutcomeOn(b, b.history, quotes[m], run) == o then 1 else 0
  {
    var before, after := PlacesWith(b, quotes, m, run, o), PlacesWith(b, quotes, m + 1, run, o);
    if OutcomeOn(b, b.history, quotes[m], run) == o {
      assert after == before + {m};
    } else {
      assert after == before;
    }
  }

  ghost function FilledAmong(b: Book, quotes: seq<Quote>): set<nat> {
    set i: nat | i < |quotes| && IsFilled(b, quotes[i])
  }

  ghost function RecheckedAmong(b: Book, quotes: seq<Quote>, uploaded: real): set<nat> {
    set i: nat | i < |quotes| && IsRechecked(b, quotes[i], uploaded)
  }

  ghost function DifferingAmong(b: Book, quotes: seq<Quote>): set<nat> {
    set i: nat | i < |quotes| && IsDiffering(b, quotes[i])
  }

  /** The report of an apply counts the laptops it filled, those it rechecked and those it left to differ. */
  lemma TheReportCounts(b: Book, quotes: seq<Quote>, run: Run, report: ApplyReport)
    requires Quotable(b.laptops, quotes) && Reported(b, quotes, |quotes|, run, report)
    ensures report.filled == |FilledAmong(b, quotes)|
    ensures report.confirmed == |RecheckedAmong(b, quotes, run.uploaded)|
    ensures report.differs == |DifferingAmong(b, quotes)|
  {
    var n := |quotes|;
    PlacesAre(b, quotes, run);
    CountCountsPlaces(b, quotes, n, run, Filled);
    CountCountsPlaces(b, quotes, n, run, Rechecked);
    CountCountsPlaces(b, quotes, n, run, Differing);
  }

  lemma PlacesAre(b: Book, quotes: seq<Quote>, run: Run)
    requires Quotable(b.laptops, quotes)
    ensures PlacesWith(b, quotes, |quotes|, run, Filled) == FilledAmong(b, quotes)
    ensures PlacesWith(b, quotes, |quotes|, run, Rechecked) == RecheckedAmong(b, quotes, run.uploaded)
    ensures PlacesWith(b, quotes, |quotes|, run, Differing) == DifferingAmong(b, quotes)
  {
    forall i | 0 <= i < |quotes|
      ensures OutcomeOn(b, b.history, quotes[i], run) == Filled <==> IsFilled(b, quotes[i])
      ensures OutcomeOn(b, b.history, quotes[i], run) == Rechecked <==> IsRechecked(b, quotes[i], run.uploaded)
      ensures OutcomeOn(b, b.history, quotes[i], run) == Differing <==> IsDiffering(b, quotes[i])
    {
      OutcomeIs(b, quotes[i], run);
    }
  }

  /** The quote is the laptop's among the first n. */
  predicate QuotedAs(quotes: seq<Quote>, n: nat, id: nat, price: real)
    requires n <= |quotes|
  {
    exists i :: 0 <= i < n && quotes[i] == Quote(id, price)
  }

  ghost predicate DiffersAs(b: Book, quotes: seq<Quote>, n: nat, id: nat, price: real)
    requires n <= |quotes|
  {
    QuotedAs(quotes, n, id, price) && IsDiffering(b, Quote(id, price))
  }

  lemma {:induction false} WaitingAre(laptops: map<nat, Laptop>, waiting: seq<Quote>, n: nat, id: nat, price: real)
    requires n <= |waiting| && Quotable(laptops, waiting)
    ensures (id, price) in WaitingUpTo(waiting, n).Items <==> QuotedAs(waiting, n, id, price)
  {
    if n == 0 {
    } else {
      WaitingAre(laptops, waiting, n - 1, id, price);
    }
  }

  /**
   What an admin may select, and at which price: the laptops of the lists that wait for one, and the
   matched laptops whose own price differs, which take their matched quote.
   */
  lemma SelectableIff(b: Book, matched: seq<Quote>, waiting: seq<Quote>, id: nat, price: real)
    requires Quotable(b.laptops, matched) && Quotable(b.laptops, waiting)
    ensures (id, price) in Selectable(b, matched, waiting).Items <==>
              || DiffersAs(b, matched, |matched|, id, price)
              || (QuotedAs(waiting, |waiting|, id, price)
                  && !exists other :: DiffersAs(b, matched, |matched|, id, other))
  {
    SelectableUpToIff(b, matched, |matched|, waiting, id, price);
  }

  lemma {:induction false} SelectableUpToIff(b: Book, matched: seq<Quote>, n: nat, waiting: seq<Quote>, id: nat,
      price: real)
    requires n <= |matched| && Quotable(b.laptops, matched) && Quotable(b.laptops, waiting)
    ensures (id, price) in SelectableUpTo(b, matched, n, waiting).Items <==>
              || DiffersAs(b, matched, n, id, price)
              || (QuotedAs(waiting, |waiting|, id, price) && !exists other :: DiffersAs(b, matched, n, id, other))
  {
    if n == 0 {
      WaitingAre(b.laptops, waiting, |waiting|, id, price);
    } else {
      var m := n - 1;
      var q := matched[m];
      SelectableUpToIff(b, matched, m, waiting, id, price);
      OutcomeIs(b, q, Run(0, 0.0, 0.0));
      forall other
        ensures DiffersAs(b, matched, n, id, other) <==>
                  DiffersAs(b, matched, m, id, other) || (q == Quote(id, other) && IsDiffering(b, q))
      {
      }
    }
  }

  /** A price the apply may not replace: one there is, whose latest source is not a guide. */
  predicate Owned(b: Book, id: nat) {
    id in b.laptops && b.laptops[id].price != 0.0 && LatestSource(b.history, id) != Some(Guide)
  }

  lemma {:induction false} ApplyKeepsOwnedPrice(b: Book, quotes: seq<Quote>, run: Run, id: nat)
    requires Quotable(b.laptops, quotes) && Owned(b, id)
    ensures var after := Applied(b, quotes, |quotes|, run);
            && after.laptops[id].price == b.laptops[id].price && Owned(after, id)
            && LatestEntry(after.history, |after.history|, id) == LatestEntry(b.history, |b.history|, id)
  {
    if i :| 0 <= i < |quotes| && quotes[i].laptop == id {
      AppliedOn(b, quotes, |quotes|, run, i);
    } else {
      UntouchedSoFar(b, quotes, |quotes|, run, id);
    }
  }

  datatype Apply = Apply(quotes: seq<Quote>, run: Run)

  ghost predicate AllQuotable(laptops: map<nat, Laptop>, applies: seq<Apply>) {
    forall i :: 0 <= i < |applies| ==> Quotable(laptops, applies[i].quotes)
  }

  ghost function AppliedAll(b: Book, applies: seq<Apply>, n: nat): (after: Book)
    requires n <= |applies| && AllQuotable(b.laptops, applies)
    ensures after.laptops.Keys == b.laptops.Keys
  {
    if n == 0 then b
    else
      var before, a := AppliedAll(b, applies, n - 1), applies[n - 1];
      assert Quotable(b.laptops, a.quotes);
      Applied(before, a.quotes, |a.quotes|, a.run)
  }

  /** Over any applies of any guides, a price that did not come from a guide stays as it is. */
  lemma {:induction false} AppliesKeepOwnedPrice(b: Book, applies: seq<Apply>, n: nat, id: nat)
    requires n <= |applies| && AllQuotable(b.laptops, applies) && Owned(b, id)
    ensures Owned(AppliedAll(b, applies, n), id) && AppliedAll(b, applies, n).laptops[id].price == b.laptops[id].price
  {
    if n == 0 {
    } else {
      AppliesKeepOwnedPrice(b, applies, n - 1, id);
      var before, a := AppliedAll(b, applies, n - 1), applies[n - 1];
      assert Quotable(b.laptops, a.quotes);
      ApplyKeepsOwnedPrice(before, a.quotes, a.run, id);
    }
  }

  // --- Applying twice --------------------------------------------------------------------------------------

  /** The quote would write a price of 0: the next apply would find no price and write it again. */
  predicate WritesAZero(b: Book, q: Quote) {
    q.price == 0.0 && !Owned(b, q.laptop)
  }

  /** The second apply finds nothing to do for a quote that wrote a real price. */
  lemma SecondStepIsIdle(b: Book, quotes: seq<Quote>, run: Run, again: Run, i: nat)
    requires i < |quotes| && Quotable(b.laptops, quotes) && !WritesAZero(b, quotes[i])
    requires run.uploaded == again.uploaded <= run.now
    ensures var once := Applied(b, quotes, |quotes|, run);
            Step(once, once.history, quotes[i], again) == once
  {
    AppliedOn(b, quotes, |quotes|, run, i);
  }

  /** Nothing in the book moves when the quote is applied to it. */
  predicate IsIdle(b: Book, q: Quote, run: Run)
    requires q.laptop in b.laptops
  {
    Step(b, b.history, q, run) == b
  }

  lemma {:induction false} IdleQuotesChangeNothing(b: Book, quotes: seq<Quote>, n: nat, run: Run)
    requires n <= |quotes| && forall i :: 0 <= i < |quotes| ==> quotes[i].laptop in b.laptops
    requires forall i :: 0 <= i < n ==> IsIdle(b, quotes[i], run)
    ensures Applied(b, quotes, n, run) == b
  {
    if n == 0 {
    } else {
      IdleQuotesChangeNothing(b, quotes, n - 1, run);
      assert IsIdle(b, quotes[n - 1], run);
    }
  }

  lemma SecondApplyIsIdle(b: Book, quotes: seq<Quote>, run: Run, again: Run)
    requires Quotable(b.laptops, quotes)
    requires run.uploaded == again.uploaded <= run.now
    requires forall i :: 0 <= i < |quotes| ==> !WritesAZero(b, quotes[i])
    ensures Applied(Applied(b, quotes, |quotes|, run), quotes, |quotes|, again) == Applied(b, quotes, |quotes|, run)
  {
    var once := Applied(b, quotes, |quotes|, run);
    forall i | 0 <= i < |quotes|
      ensures IsIdle(once, quotes[i], again)
    {
      SecondStepIsIdle(b, quotes, run, again, i);
    }
    IdleQuotesChangeNothing(once, quotes, |quotes|, again);
  }

  lemma {:induction false} CountIsPositive(b: Book, quotes: seq<Quote>, n: nat, run: Run, o: Outcome, i: nat)
    requires i < n <= |quotes| && Quotable(b.laptops, quotes) && OutcomeOn(b, b.history, quotes[i], run) == o
    ensures Count(b, quotes, n, run, o) > 0
  {
    if i < n - 1 {
      CountIsPositive(b, quotes, n - 1, run, o, i);
    }
  }

  lemma AZeroIsWrittenAgain(b: Book, quotes: seq<Quote>, run: Run, again: Run, i: nat)
    requires i < |quotes| && Quotable(b.laptops, quotes) && WritesAZero(b, quotes[i])
    ensures var once := Applied(b, quotes, |quotes|, run);
            |Applied(once, quotes, |quotes|, again).history| > |once.history|
  {
    var once := Applied(b, quotes, |quotes|, run);
    AppliedOn(b, quotes, |quotes|, run, i);
    assert OutcomeOn(once, once.history, quotes[i], again) == Filled;
    CountIsPositive(once, quotes, |quotes|, again, Filled, i);
    EveryFillIsRecorded(once, quotes, |quotes|, again);
  }

  /**
   Applying a guide again, at any later time, changes nothing at all exactly when no quote of
   0 was written the first time.
   */
  lemma ApplyingTwiceIsOnce(b: Book, quotes: seq<Quote>, run: Run, again: Run)
    requires Quotable(b.laptops, quotes) && run.uploaded == again.uploaded <= run.now
    ensures var once := Applied(b, quotes, |quotes|, run);
            Applied(once, quotes, |quotes|, again) == once <==> forall i :: 0 <= i < |quotes| ==>
                !WritesAZero(b, quotes[i])
  {
    var once := Applied(b, quotes, |quotes|, run);
    if i :| 0 <= i < |quotes| && WritesAZero(b, quotes[i]) {
      AZeroIsWrittenAgain(b, quotes, run, again, i);
    } else {
      SecondApplyIsIdle(b, quotes, run, again);
    }
  }

  /**
   What a later quote, of this guide or another, finds of a laptop whose guide price an admin has
   used. The same price is confirmed. Another one is filled in when the used price replaced the
   one on the page or the laptop's was a guide's already, and stays differing when it did neither;
   a used price of 0 is no price at all.
   */
  lemma AUsedPriceIsSettled(b: Book, after: Book, selectable: map<nat, real>, selected: set<nat>, run: Run, id: nat,
      later: real)
    requires Used(b, after, selectable, selected, run) && id in selected && id in b.laptops
    ensures var used := selectable[id];
            ActionOn(after, after.history, Quote(id, later)) ==
            if used == 0.0 then Fill
            else if later == used then Confirm
            else if b.laptops[id].price != used || LatestSource(b.history, id) == Some(Guide) then Fill
            else Differs
  {
    assert UsedOn(b, after, selectable, selected, run, id);
  }
}
