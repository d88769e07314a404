/**
 Closing every selected position, and summing up the deals of one.
 */
module Positions {
  import opened Wrappers

  // ---------------------------------------------------------------------------------------
  // Closing all positions
  // ---------------------------------------------------------------------------------------

  datatype Side = Buy | Sell

  datatype Position = Position(ticket: int, magic: int, side: Side)

  /** The order type asked for: all, one side, or something else. */
  datatype Wanted = All | Only(side: Side) | Invalid

  datatype SendResult = SendResult(retcode: int, success: bool, order: int)

  datatype Failure = PositionsUnavailable | InvalidOrderType | UnknownOutcome(ticket: int) | Refused(ticket: int, retcode: int)

  datatype Report = Report(closed: seq<SendResult>, failed: seq<Failure>)

  datatype CloseError = MissingColumn

  predicate Selects(wanted: Wanted, magic: Option<int>, p: Position) {
    (magic.None? || p.magic == magic.value) && (wanted.All? || (wanted.Only? && p.side == wanted.side))
  }

  function Selected(ps: seq<Position>, wanted: Wanted, magic: Option<int>): seq<Position> {
    if ps == [] then []
    else
      var init := Selected(ps[..|ps| - 1], wanted, magic);
      if Selects(wanted, magic, ps[|ps| - 1]) then init + [ps[|ps| - 1]] else init
  }

  /** The positions of `ps` whose close succeeded, or did not, in order. */
  function Settled(ps: seq<Position>, outcomes: Position -> Option<SendResult>, ok: bool): seq<Position> {
    if ps == [] then []
    else
      var init, p := Settled(ps[..|ps| - 1], outcomes, ok), ps[|ps| - 1];
      var success := outcomes(p).Some? && outcomes(p).value.success;
      if success == ok then init + [p] else init
  }

  /** The report lists the outcome of each closed position and a failure for each other one. */
  predicate Accounts(report: Report, ps: seq<Position>, outcomes: Position -> Option<SendResult>) {
    var closed, failed := Settled(ps, outcomes, true), Settled(ps, outcomes, false);
    && |report.closed| == |closed| && |report.failed| == |failed|
    && (forall i :: 0 <= i < |closed| ==> outcomes(closed[i]) == Some(report.closed[i]))
    && (forall i :: 0 <= i < |failed| && outcomes(failed[i]).None? ==> report.failed[i] == UnknownOutcome(failed[i].ticket))
    && (forall i :: 0 <= i < |failed| && outcomes(failed[i]).Some? ==>
          report.failed[i] == Refused(failed[i].ticket, outcomes(failed[i]).value.retcode))
  }

  /** Filtering an empty table by a column it does not have raises. */
  predicate Raises(ps: seq<Position>, wanted: Wanted, magic: Option<int>) {
    ps == [] && (magic.Some? || wanted.Only?)
  }

  /** `tried` lists the positions handed to `close_position`, whether or not it sent an order. */
  method CloseAllPositions(total: Option<nat>, positions: Option<seq<Position>>, wanted: Wanted, magic: Option<int>,
                           outcomes: Position -> Option<SendResult>)
    returns (report: Result<Report, CloseError>, tried: seq<Position>)
    ensures total.None? || total.value == 0 ==> report == Ok(Report([], [])) && tried == []
    ensures total.Some? && total.value > 0 && positions.None? ==>
      report == Ok(Report([], [PositionsUnavailable])) && tried == []
    ensures total.Some? && total.value > 0 && positions.Some? ==>
      if Raises(positions.value, wanted, magic) then report == Err(MissingColumn) && tried == []
      else if wanted.Invalid? then report == Ok(Report([], [InvalidOrderType])) && tried == []
      else
        && tried == Selected(positions.value, wanted, magic)
        && report.Ok? && Accounts(report.value, tried, outcomes)
  {
    tried := [];
    if total.None? || total.value == 0 {
      return Ok(Report([], [])), tried;
    }
    if positions.None? {
      return Ok(Report([], [PositionsUnavailable])), tried;
    }
    if magic.Some? && positions.value == [] {
      return Err(MissingColumn), tried;
    }
    if wanted.Invalid? {
      return Ok(Report([], [InvalidOrderType])), tried;
    }
    if wanted.Only? && positions.value == [] {
      return Err(MissingColumn), tried;
    }
    var rows := Selected(positions.value, wanted, magic);
    var closed: seq<SendResult>, failed: seq<Failure> := [], [];
    for n := 0 to |rows|
      invariant tried == rows[..n]
      invariant Accounts(Report(closed, failed), tried, outcomes)
    {
      var p := rows[n];
      var outcome := outcomes(p);
      assert rows[..n + 1][..n] == rows[..n];
      if outcome.None? {
        failed := failed + [UnknownOutcome(p.ticket)];
      } else if !outcome.value.success {
        failed := failed + [Refused(p.ticket, outcome.value.retcode)];
      } else {
        closed := closed + [outcome.value];
      }
      tried := tried + [p];
    }
    assert rows[..|rows|] == rows;
    report := Ok(Report(closed, failed));
  }

  /** Every position ends on exactly one side, so nothing is lost and nothing counted twice. */
  lemma {:induction false} SettledPartitions(ps: seq<Position>, outcomes: Position -> Option<SendResult>)
    ensures |Settled(ps, outcomes, true)| + |Settled(ps, outcomes, false)| == |ps|
    ensures multiset(Settled(ps, outcomes, true)) + multiset(Settled(ps, outcomes, false)) == multiset(ps)
  {
    if ps != [] {
      SettledPartitions(ps[..|ps| - 1], outcomes);
      assert ps == ps[..|ps| - 1] + [ps[|ps| - 1]];
    }
  }

  lemma {:induction false} SettledHas(ps: seq<Position>, outcomes: Position -> Option<SendResult>, ok: bool, p: Position)
    ensures p in Settled(ps, outcomes, ok)
       <==> p in ps && (ok <==> outcomes(p).Some? && outcomes(p).value.success)
  {
    if ps != [] {
      SettledHas(ps[..|ps| - 1], outcomes, ok, p);
    }
  }

  /** Whatever became of a position stands where the caller looks for it. */
  lemma {:induction false} ReportIsRight(report: Report, ps: seq<Position>, outcomes: Position -> Option<SendResult>, p: Position)
    requires Accounts(report, ps, outcomes) && p in ps
    ensures |report.closed| + |report.failed| == |ps|
    ensures match outcomes(p)
      case None => UnknownOutcome(p.ticket) in report.failed
      case Some(r) => if r.success then r in report.closed else Refused(p.ticket, r.retcode) in report.failed
  {
    SettledPartitions(ps, outcomes);
    var ok := outcomes(p).Some? && outcomes(p).value.success;
    SettledHas(ps, outcomes, ok, p);
    var i :| 0 <= i < |Settled(ps, outcomes, ok)| && Settled(ps, outcomes, ok)[i] == p;
    if ok {
      assert report.closed[i] == outcomes(p).value;
    } else {
      assert report.failed[i] in report.failed;
    }
  }

  /** Selection and outcomes keep the order of the positions. */
  lemma {:induction false} OrderIsKept(a: seq<Position>, b: seq<Position>, wanted: Wanted, magic: Option<int>,
                                       outcomes: Position -> Option<SendResult>, ok: bool)
    ensures Selected(a + b, wanted, magic) == Selected(a, wanted, magic) + Selected(b, wanted, magic)
    ensures Settled(a + b, outcomes, ok) == Settled(a, outcomes, ok) + Settled(b, outcomes, ok)
  {
    if b == [] {
      assert a + b == a;
    } else {
      assert (a + b)[..|a + b| - 1] == a + b[..|b| - 1];
      OrderIsKept(a, b[..|b| - 1], wanted, magic, outcomes, ok);
    }
  }

  /** The selection is the selected positions, each as often as it is open. */
  lemma {:induction false} SelectionIsExact(ps: seq<Position>, wanted: Wanted, magic: Option<int>, p: Position)
    ensures multiset(Selected(ps, wanted, magic))[p]
         == if (magic == None || magic == Some(p.magic)) && (wanted == All || wanted == Only(p.side))
            then multiset(ps)[p] else 0
  {
    if ps != [] {
      SelectionIsExact(ps[..|ps| - 1], wanted, magic, p);
      assert ps == ps[..|ps| - 1] + [ps[|ps| - 1]];
    }
  }

  // ---------------------------------------------------------------------------------------
  // Summing up the deals of a position
  // ---------------------------------------------------------------------------------------

  datatype Deal = Deal(
    time: int, timeMsc: int, entry: int, isBuy: bool, symbol: string, comment: string,
    price: real, volume: real, profit: real, commission: real, swap: real)

  datatype Summary = Summary(
    symbol: string, isBuy: bool, volume: real, openTime: int, closeTime: Option<int>,
    openPrice: real, closePrice: Option<real>, profit: real, commission: real, swap: real,
    comment: string, closed: bool)

  predicate Before(a: Deal, b: Deal) {
    a.time < b.time || (a.time == b.time && a.timeMsc < b.timeMsc)
  }

  /** Put `d` behind everything that is not later than it. */
  function Insert(d: Deal, ds: seq<Deal>): seq<Deal> {
    if ds == [] || !Before(d, ds[|ds| - 1]) then ds + [d]
    else Insert(d, ds[..|ds| - 1]) + [ds[|ds| - 1]]
  }

  /** The stable sort by time. */
  function SortByTime(ds: seq<Deal>): seq<Deal> {
    if ds == [] then [] else Insert(ds[|ds| - 1], SortByTime(ds[..|ds| - 1]))
  }

  function Entries(ds: seq<Deal>): seq<Deal> {
    if ds == [] then []
    else if ds[0].entry == 0 then [ds[0]] + Entries(ds[1..])
    else Entries(ds[1..])
  }

  function Exits(ds: seq<Deal>): seq<Deal> {
    if ds == [] then []
    else if 1 <= ds[0].entry <= 3 then [ds[0]] + Exits(ds[1..])
    else Exits(ds[1..])
  }

  function Sum(ds: seq<Deal>, amount: Deal -> real): real {
    if ds == [] then 0.0 else Sum(ds[..|ds| - 1], amount) + amount(ds[|ds| - 1])
  }

  /** The summary of deals that are already in time order. */
  function Summarize(rows: seq<Deal>): Summary
    requires rows != []
  {
    var entries, exits := Entries(rows), Exits(rows);
    var opening := if entries != [] then entries[0] else rows[0];
    var closing := if exits != [] then Some(exits[|exits| - 1]) else None;
    Summary(
      opening.symbol, opening.isBuy,
      if entries != [] then Sum(entries, (d: Deal) => d.volume) else opening.volume,
      opening.time, if closing.Some? then Some(closing.value.time) else None,
      opening.price, if closing.Some? then Some(closing.value.price) else None,
      Sum(rows, (d: Deal) => d.profit), Sum(rows, (d: Deal) => d.commission), Sum(rows, (d: Deal) => d.swap),
      if closing.Some? then closing.value.comment else opening.comment,
      closing.Some?)
  }

  function GetDealFromTicket(deals: Option<seq<Deal>>): Option<Summary> {
    if deals.None? || deals.value == [] then None
    else
      SortKeepsDeals(deals.value);
      Some(Summarize(SortByTime(deals.value)))
  }

  lemma {:induction false} InsertKeepsDeals(d: Deal, ds: seq<Deal>)
    ensures multiset(Insert(d, ds)) == multiset(ds) + multiset{d} && |Insert(d, ds)| == |ds| + 1
  {
    if ds != [] && Before(d, ds[|ds| - 1]) {
      InsertKeepsDeals(d, ds[..|ds| - 1]);
      assert ds == ds[..|ds| - 1] + [ds[|ds| - 1]];
    }
  }

  lemma {:induction false} SortKeepsDeals(ds: seq<Deal>)
    ensures multiset(SortByTime(ds)) == multiset(ds) && |SortByTime(ds)| == |ds|
  {
    if ds != [] {
      SortKeepsDeals(ds[..|ds| - 1]);
      InsertKeepsDeals(ds[|ds| - 1], SortByTime(ds[..|ds| - 1]));
      assert ds == ds[..|ds| - 1] + [ds[|ds| - 1]];
    }
  }

  predicate Sorted(ds: seq<Deal>) {
    forall i, j :: 0 <= i < j < |ds| ==> !Before(ds[j], ds[i])
  }

  lemma {:induction false} InsertAdds(d: Deal, ds: seq<Deal>)
    ensures forall x :: x in Insert(d, ds) ==> x == d || x in ds
  {
    if ds != [] && Before(d, ds[|ds| - 1]) {
      InsertAdds(d, ds[..|ds| - 1]);
    }
  }

  lemma {:induction false} InsertKeepsSorted(d: Deal, ds: seq<Deal>)
    requires Sorted(ds)
    ensures Sorted(Insert(d, ds))
  {
    if ds != [] && Before(d, ds[|ds| - 1]) {
      var init, last := ds[..|ds| - 1], ds[|ds| - 1];
      InsertKeepsSorted(d, init);
      InsertAdds(d, init);
      var r := Insert(d, init);
      forall i | 0 <= i < |r| ensures !Before(last, r[i]) {
        assert r[i] in r;
      }
    }
  }

  lemma {:induction false} SortSorts(ds: seq<Deal>)
    ensures Sorted(SortByTime(ds))
  {
    if ds != [] {
      SortSorts(ds[..|ds| - 1]);
      InsertKeepsSorted(ds[|ds| - 1], SortByTime(ds[..|ds| - 1]));
    }
  }

  /** No two deals share a time key. */
  predicate DistinctTimes(ds: seq<Deal>) {
    forall i, j :: 0 <= i < j < |ds| ==> Before(ds[i], ds[j]) || Before(ds[j], ds[i])
  }

  predicate Increasing(ds: seq<Deal>) {
    forall i, j :: 0 <= i < j < |ds| ==> Before(ds[i], ds[j])
  }

  /** A set of deals with distinct times can be put in increasing order in one way only. */
  lemma {:induction false} IncreasingIsUnique(a: seq<Deal>, b: seq<Deal>)
    requires Increasing(a) && Increasing(b) && multiset(a) == multiset(b)
    ensures a == b
  {
    if a == [] {
      assert |multiset(b)| == 0;
    } else {
      assert a[0] in multiset(b) && |multiset(a)| == |a|;
      assert b != [];
      assert b[0] in multiset(a);
      assert a[0] == b[0];
      assert a == [a[0]] + a[1..] && b == [b[0]] + b[1..];
      assert multiset(a[1..]) == multiset(a) - multiset{a[0]};
      assert multiset(b[1..]) == multiset(b) - multiset{b[0]};
      IncreasingIsUnique(a[1..], b[1..]);
    }
  }

  /** Each of the deals occurs once, so sorting them leaves no ties. */
  lemma {:induction false} SortedDistinctIncreases(ds: seq<Deal>)
    requires DistinctTimes(ds)
    ensures Increasing(SortByTime(ds))
  {
    if ds != [] {
      var init, last := ds[..|ds| - 1], ds[|ds| - 1];
      SortedDistinctIncreases(init);
      SortKeepsDeals(init);
      forall x | x in SortByTime(init) ensures Before(x, last) || Before(last, x) {
        assert x in multiset(init);
        assert x in init;
      }
      InsertIncreases(last, SortByTime(init));
    }
  }

  lemma {:induction false} InsertIncreases(d: Deal, ds: seq<Deal>)
    requires Increasing(ds) && forall x :: x in ds ==> Before(x, d) || Before(d, x)
    ensures Increasing(Insert(d, ds))
  {
    if ds != [] && Before(d, ds[|ds| - 1]) {
      var init, last := ds[..|ds| - 1], ds[|ds| - 1];
      InsertIncreases(d, init);
      InsertAdds(d, init);
      var r := Insert(d, init);
      forall i | 0 <= i < |r| ensures Before(r[i], last) {
        assert r[i] in r;
      }
    }
  }

  /** The whole summary does not depend on the order in which the history lists the deals. */
  lemma {:induction false} SummaryIgnoresOrder(a: seq<Deal>, b: seq<Deal>)
    requires multiset(a) == multiset(b) && DistinctTimes(a) && DistinctTimes(b)
    ensures GetDealFromTicket(Some(a)) == GetDealFromTicket(Some(b))
  {
    SortKeepsDeals(a);
    SortKeepsDeals(b);
    SortedDistinctIncreases(a);
    SortedDistinctIncreases(b);
    IncreasingIsUnique(SortByTime(a), SortByTime(b));
    assert |multiset(a)| == |a| && |multiset(b)| == |b|;
  }

  lemma {:induction false} SumInsert(d: Deal, ds: seq<Deal>, amount: Deal -> real)
    ensures Sum(Insert(d, ds), amount) == Sum(ds, amount) + amount(d)
  {
    if ds == [] || !Before(d, ds[|ds| - 1]) {
      assert (ds + [d])[..|ds|] == ds;
    } else {
      var init, last := ds[..|ds| - 1], ds[|ds| - 1];
      SumInsert(d, init, amount);
      assert (Insert(d, init) + [last])[..|Insert(d, init)|] == Insert(d, init);
    }
  }

  lemma {:induction false} SumSort(ds: seq<Deal>, amount: Deal -> real)
    ensures Sum(SortByTime(ds), amount) == Sum(ds, amount)
  {
    if ds != [] {
      SumSort(ds[..|ds| - 1], amount);
      SumInsert(ds[|ds| - 1], SortByTime(ds[..|ds| - 1]), amount);
    }
  }

  /** Profit, commission and swap are the sums over all deals, whatever their kind. */
  lemma {:induction false} TotalsAreConserved(ds: seq<Deal>)
    requires ds != []
    ensures var s := GetDealFromTicket(Some(ds));
      && s.Some?
      && s.value.profit == Sum(ds, (d: Deal) => d.profit)
      && s.value.commission == Sum(ds, (d: Deal) => d.commission)
      && s.value.swap == Sum(ds, (d: Deal) => d.swap)
  {
    SumSort(ds, (d: Deal) => d.profit);
    SumSort(ds, (d: Deal) => d.commission);
    SumSort(ds, (d: Deal) => d.swap);
  }

  lemma {:induction false} SumFront(d: Deal, ds: seq<Deal>, amount: Deal -> real)
    ensures Sum([d] + ds, amount) == amount(d) + Sum(ds, amount)
  {
    if ds == [] {
      assert [d] + ds == [d] && [d][..0] == [];
    } else {
      var n := |ds| - 1;
      assert ([d] + ds)[..n + 1] == [d] + ds[..n];
      SumFront(d, ds[..n], amount);
    }
  }

  function EntryVolume(d: Deal): real {
    if d.entry == 0 then d.volume else 0.0
  }

  lemma {:induction false} SumEntries(ds: seq<Deal>)
    ensures Sum(Entries(ds), (d: Deal) => d.volume) == Sum(ds, EntryVolume)
  {
    if ds != [] {
      SumEntries(ds[1..]);
      assert ds == [ds[0]] + ds[1..];
      SumFront(ds[0], ds[1..], EntryVolume);
      if ds[0].entry == 0 {
        SumFront(ds[0], Entries(ds[1..]), (d: Deal) => d.volume);
      }
    }
  }

  lemma EntriesNeedEntry(ds: seq<Deal>)
    ensures Entries(ds) != [] <==> exists d :: d in ds && d.entry == 0
  {
    if ds != [] {
      EntriesNeedEntry(ds[1..]);
    }
  }

  /** The volume of a position is what its entries add up to, in whatever order they are listed. */
  lemma {:induction false} VolumeIsEntered(ds: seq<Deal>)
    requires exists d :: d in ds && d.entry == 0
    ensures var s := GetDealFromTicket(Some(ds)); s.Some? && s.value.volume == Sum(ds, EntryVolume)
  {
    var rows := SortByTime(ds);
    SortHasSame(ds);
    EntriesNeedEntry(rows);
    SumEntries(rows);
    SumSort(ds, EntryVolume);
  }

  lemma {:induction false} FirstEntryIsEarliest(ds: seq<Deal>, d: Deal)
    requires Sorted(ds) && d in ds && d.entry == 0
    ensures Entries(ds) != [] && !Before(d, Entries(ds)[0])
  {
    if ds[0].entry != 0 {
      FirstEntryIsEarliest(ds[1..], d);
    }
  }

  lemma {:induction false} LastExitIsLatest(ds: seq<Deal>, d: Deal)
    requires Sorted(ds) && d in ds && 1 <= d.entry <= 3
    ensures Exits(ds) != [] && !Before(Exits(ds)[|Exits(ds)| - 1], d)
  {
    var rest := Exits(ds[1..]);
    if d in ds[1..] {
      LastExitIsLatest(ds[1..], d);
    } else if rest != [] {
      ExitsAreDeals(ds[1..]);
      assert rest[|rest| - 1] in ds[1..];
    }
  }

  lemma {:induction false} ExitsAreDeals(ds: seq<Deal>)
    ensures forall x :: x in Exits(ds) ==> x in ds && 1 <= x.entry <= 3
  {
    if ds != [] {
      ExitsAreDeals(ds[1..]);
    }
  }

  /** The dates of a summary. */
  lemma {:induction false} SummaryDates(rows: seq<Deal>)
    requires rows != []
    ensures var s, entries, exits := Summarize(rows), Entries(rows), Exits(rows);
      && s.openTime == (if entries != [] then entries[0].time else rows[0].time)
      && s.closed == (exits != [])
      && s.closeTime == if exits != [] then Some(exits[|exits| - 1].time) else None
  {
  }

  lemma {:induction false} SortHasSame(ds: seq<Deal>)
    ensures forall x :: x in SortByTime(ds) <==> x in ds
  {
    SortKeepsDeals(ds);
    forall x ensures x in SortByTime(ds) <==> x in ds {
      assert x in multiset(SortByTime(ds)) <==> x in multiset(ds);
    }
  }

  /** The position opens with its earliest entry. */
  lemma {:induction false} OpensWithEarliestEntry(ds: seq<Deal>, d: Deal)
    requires d in ds && d.entry == 0
    ensures GetDealFromTicket(Some(ds)).Some? && GetDealFromTicket(Some(ds)).value.openTime <= d.time
  {
    SortSorts(ds);
    SortHasSame(ds);
    FirstEntryIsEarliest(SortByTime(ds), d);
    SortKeepsDeals(ds);
    SummaryDates(SortByTime(ds));
  }

  lemma {:induction false} RowsClose(rows: seq<Deal>, d: Deal)
    requires Sorted(rows) && d in rows && 1 <= d.entry <= 3
    ensures var s := Summarize(rows); s.closed && s.closeTime.Some? && d.time <= s.closeTime.value
  {
    LastExitIsLatest(rows, d);
    SummaryDates(rows);
  }

  /** ... and closes with its latest exit ... */
  lemma {:induction false} ClosesWithLatestExit(ds: seq<Deal>, d: Deal)
    requires d in ds && 1 <= d.entry <= 3
    ensures var s := GetDealFromTicket(Some(ds));
      s.Some? && s.value.closed && s.value.closeTime.Some? && d.time <= s.value.closeTime.value
  {
    var rows := SortByTime(ds);
    SortKeepsDeals(ds);
    SortSorts(ds);
    SortHasSame(ds);
    RowsClose(rows, d);
  }

  /** ... provided it has one: a closing time is always the time of an exit. */
  lemma {:induction false} ClosesOnlyWithExit(ds: seq<Deal>)
    requires ds != [] && GetDealFromTicket(Some(ds)).value.closed
    ensures exists x :: x in ds && 1 <= x.entry <= 3 && GetDealFromTicket(Some(ds)).value.closeTime == Some(x.time)
  {
    var rows := SortByTime(ds);
    SortKeepsDeals(ds);
    SortHasSame(ds);
    SummaryDates(rows);
    ExitsAreDeals(rows);
    var last := Exits(rows)[|Exits(rows)| - 1];
    assert last in Exits(rows);
    assert last in ds;
  }

  // ---------------------------------------------------------------------------------------
  // Which deals a summary is made of
  // ---------------------------------------------------------------------------------------

  /** Deal `i` comes before deal `j`: by time, then milliseconds, then place in the history. */
  predicate Earlier(ds: seq<Deal>, i: int, j: int)
    requires 0 <= i < |ds| && 0 <= j < |ds|
  {
    || ds[i].time < ds[j].time
    || (ds[i].time == ds[j].time && ds[i].timeMsc < ds[j].timeMsc)
    || (ds[i].time == ds[j].time && ds[i].timeMsc == ds[j].timeMsc && i < j)
  }

  /** `rows` are the deals at `places`, in order. */
  ghost predicate InOrder(ds: seq<Deal>, rows: seq<Deal>, places: seq<int>) {
    && |places| == |rows|
    && (forall k :: 0 <= k < |rows| ==> 0 <= places[k] < |ds| && rows[k] == ds[places[k]])
    && (forall a, b :: 0 <= a < b < |rows| ==> Earlier(ds, places[a], places[b]))
  }

  lemma {:induction false} InOrderAppend(ds: seq<Deal>, rows: seq<Deal>, places: seq<int>, n: int)
    requires InOrder(ds, rows, places) && 0 <= n < |ds|
    requires rows != [] ==> Earlier(ds, places[|rows| - 1], n)
    ensures InOrder(ds, rows + [ds[n]], places + [n])
  {
    var m := |rows| - 1;
    forall a | 0 <= a < |rows| ensures Earlier(ds, places[a], n) {
      assert a < m ==> Earlier(ds, places[a], places[m]);
    }
  }

  lemma {:induction false} InsertInOrder(ds: seq<Deal>, n: int, rows: seq<Deal>, places: seq<int>) returns (places': seq<int>)
    requires InOrder(ds, rows, places) && 0 <= n < |ds| && forall k :: 0 <= k < |places| ==> places[k] < n
    ensures InOrder(ds, Insert(ds[n], rows), places')
    ensures forall x :: x in places' <==> x in places || x == n
  {
    var m := |rows| - 1;
    if rows == [] || !Before(ds[n], rows[m]) {
      places' := places + [n];
      InOrderAppend(ds, rows, places, n);
    } else {
      var init := InsertInOrder(ds, n, rows[..m], places[..m]);
      places' := init + [places[m]];
      assert places == places[..m] + [places[m]];
      forall k | 0 <= k < |init| ensures Earlier(ds, init[k], places[m]) {
        assert init[k] in init;
        if init[k] != n {
          assert init[k] in places[..m];
          var a :| 0 <= a < m && places[a] == init[k];
        }
      }
      InOrderAppend(ds, Insert(ds[n], rows[..m]), init, places[m]);
    }
  }

  lemma {:induction false} SortedFirst(ds: seq<Deal>, n: nat) returns (places: seq<int>)
    requires n <= |ds|
    ensures InOrder(ds, SortByTime(ds[..n]), places)
    ensures forall x :: x in places <==> 0 <= x < n
  {
    places := [];
    if n > 0 {
      places := SortedFirst(ds, n - 1);
      assert ds[..n][..n - 1] == ds[..n - 1];
      forall k | 0 <= k < |places| ensures places[k] < n - 1 {
        assert places[k] in places;
      }
      places := InsertInOrder(ds, n - 1, SortByTime(ds[..n - 1]), places);
    }
  }

  /** The sort is the stable one: every deal once, by time, and ties as the history has them. */
  lemma {:induction false} SortIsStable(ds: seq<Deal>) returns (places: seq<int>)
    ensures InOrder(ds, SortByTime(ds), places)
    ensures forall x :: x in places <==> 0 <= x < |ds|
  {
    places := SortedFirst(ds, |ds|);
    assert ds[..|ds|] == ds;
  }

  lemma {:induction false} FirstEntryAt(rows: seq<Deal>) returns (k: int)
    ensures Entries(rows) == [] ==> k == |rows|
    ensures Entries(rows) != [] ==> 0 <= k < |rows| && rows[k].entry == 0 && rows[k] == Entries(rows)[0]
    ensures forall j :: 0 <= j < k ==> rows[j].entry != 0
  {
    k := 0;
    if rows != [] && rows[0].entry != 0 {
      k := FirstEntryAt(rows[1..]);
      forall j | 0 <= j < k + 1 ensures rows[j].entry != 0 {
        assert j > 0 ==> rows[j] == rows[1..][j - 1];
      }
      k := k + 1;
    }
  }

  lemma {:induction false} LastExitAt(rows: seq<Deal>) returns (k: int)
    ensures Exits(rows) == [] ==> k == -1
    ensures Exits(rows) != [] ==> 0 <= k < |rows| && 1 <= rows[k].entry <= 3 && rows[k] == Exits(rows)[|Exits(rows)| - 1]
    ensures forall j :: k < j < |rows| ==> !(1 <= rows[j].entry <= 3)
  {
    k := -1;
    if rows != [] {
      var later := LastExitAt(rows[1..]);
      forall j | later + 1 < j < |rows| ensures !(1 <= rows[j].entry <= 3) {
        assert rows[j] == rows[1..][j - 1];
      }
      if later >= 0 || 1 <= rows[0].entry <= 3 {
        k := later + 1;
      }
    }
  }

  /** Deal `i` is the first of the entries, or the very first deal if nothing was entered. */
  ghost predicate Opening(ds: seq<Deal>, i: int) {
    && 0 <= i < |ds|
    && if exists j :: 0 <= j < |ds| && ds[j].entry == 0
       then ds[i].entry == 0 && forall j :: 0 <= j < |ds| && j != i && ds[j].entry == 0 ==> Earlier(ds, i, j)
       else forall j :: 0 <= j < |ds| && j != i ==> Earlier(ds, i, j)
  }

  /** Deal `i` is the last of the exits. */
  ghost predicate Closing(ds: seq<Deal>, i: int) {
    && 0 <= i < |ds| && 1 <= ds[i].entry <= 3
    && forall j :: 0 <= j < |ds| && j != i && 1 <= ds[j].entry <= 3 ==> Earlier(ds, j, i)
  }

  /** Symbol, side, opening time and price are those of one deal, the first entry. */
  lemma {:induction false} OpeningIsFirstEntry(ds: seq<Deal>) returns (i: int)
    requires ds != []
    ensures Opening(ds, i)
    ensures var s := GetDealFromTicket(Some(ds)).value;
      && s.symbol == ds[i].symbol && s.isBuy == ds[i].isBuy && s.openTime == ds[i].time && s.openPrice == ds[i].price
      && (ds[i].entry != 0 ==> s.volume == ds[i].volume)
      && (!s.closed ==> s.comment == ds[i].comment)
  {
    var places := SortIsStable(ds);
    var rows := SortByTime(ds);
    SortKeepsDeals(ds);
    var k := FirstEntryAt(rows);
    var n := if Entries(rows) == [] then 0 else k;
    i := places[n];
    forall j | 0 <= j < |ds| && j != i && (Entries(rows) == [] || ds[j].entry == 0) ensures Earlier(ds, i, j) {
      assert j in places;
      var a :| 0 <= a < |places| && places[a] == j;
      assert rows[a] == ds[j];
    }
    forall j | 0 <= j < |ds| && Entries(rows) == [] ensures ds[j].entry != 0 {
      assert j in places;
      var a :| 0 <= a < |places| && places[a] == j;
      assert rows[a] == ds[j];
    }
  }

  lemma {:induction false} LastExitOf(ds: seq<Deal>, rows: seq<Deal>, places: seq<int>) returns (i: int)
    requires InOrder(ds, rows, places) && forall x :: x in places <==> 0 <= x < |ds|
    ensures Exits(rows) == [] ==> forall j :: 0 <= j < |ds| ==> !(1 <= ds[j].entry <= 3)
    ensures Exits(rows) != [] ==> Closing(ds, i) && Exits(rows)[|Exits(rows)| - 1] == ds[i]
  {
    var k := LastExitAt(rows);
    i := if k >= 0 then places[k] else -1;
    forall j | 0 <= j < |ds| && 1 <= ds[j].entry <= 3 ensures k >= 0 && (j != i ==> Earlier(ds, j, i)) {
      assert j in places;
      var a :| 0 <= a < |places| && places[a] == j;
      assert rows[a] == ds[j];
    }
  }

  /** Closing time, price and comment are those of one deal, the last exit; without one the position is open. */
  lemma {:induction false} ClosingIsLastExit(ds: seq<Deal>) returns (i: int)
    requires ds != []
    ensures var s := GetDealFromTicket(Some(ds)).value;
      if exists j :: 0 <= j < |ds| && 1 <= ds[j].entry <= 3
      then Closing(ds, i) && s.closed && s.closeTime == Some(ds[i].time) && s.closePrice == Some(ds[i].price)
           && s.comment == ds[i].comment
      else !s.closed && s.closeTime == None && s.closePrice == None
  {
    var places := SortIsStable(ds);
    SortKeepsDeals(ds);
    i := LastExitOf(ds, SortByTime(ds), places);
  }

  /** Without deals there is nothing to sum up. */
  lemma NoDealsNoSummary(deals: Option<seq<Deal>>)
    ensures GetDealFromTicket(deals).None? <==> deals == None || deals == Some([])
  {
  }
}
