/**
 Waiting for the truth about a fill: the deal that executed a close, and the price of a
 market order that was acknowledged before it was priced. Time is in milliseconds.
 */
module FillConfirmation {
  import opened Wrappers

  /** A price, volume or ticket of zero means "not reported". */
  datatype Deal = Deal(ticket: int, order: int, entry: int, price: real, volume: real, timeMsc: int)

  /** What the terminal says on one lookup. */
  datatype Answer = Raises | Deals(named: Option<seq<Deal>>, ofPosition: Option<seq<Deal>>)

  predicate ReducesPosition(d: Deal) {
    1 <= d.entry <= 3 && d.price != 0.0
  }

  /** The deals that may have executed the close, in history order. */
  function Closing(ds: seq<Deal>, orderTicket: int): seq<Deal> {
    if ds == [] then []
    else if ReducesPosition(ds[0]) && (orderTicket == 0 || ds[0].order == orderTicket) then
      [ds[0]] + Closing(ds[1..], orderTicket)
    else Closing(ds[1..], orderTicket)
  }

  /** The first of the newest deals. */
  function Newest(ds: seq<Deal>): Option<Deal> {
    if ds == [] then None
    else
      var later := Newest(ds[1..]);
      if later.Some? && later.value.timeMsc > ds[0].timeMsc then later else Some(ds[0])
  }

  function ClosingDeal(a: Answer, orderTicket: int, dealTicket: int): Option<Deal>
    requires a.Deals?
  {
    if dealTicket != 0 && a.named.Some? && a.named.value != [] && a.named.value[0].price != 0.0 then Some(a.named.value[0])
    else Newest(Closing(if a.ofPosition.Some? then a.ofPosition.value else [], orderTicket))
  }

  /** `d` closed the position: right kind, priced, of the order if one is given. */
  predicate Qualifies(d: Deal, orderTicket: int) {
    1 <= d.entry <= 3 && d.price != 0.0 && (orderTicket == 0 || d.order == orderTicket)
  }

  /** `ds[i]` is the newest qualifying deal, the first one if several are equally new. */
  predicate NewestAt(ds: seq<Deal>, orderTicket: int, i: int) {
    && 0 <= i < |ds| && Qualifies(ds[i], orderTicket)
    && (forall j :: 0 <= j < |ds| && Qualifies(ds[j], orderTicket) ==> ds[j].timeMsc <= ds[i].timeMsc)
    && (forall j :: 0 <= j < i && Qualifies(ds[j], orderTicket) ==> ds[j].timeMsc < ds[i].timeMsc)
  }

  lemma {:induction false} NewestClosing(ds: seq<Deal>, orderTicket: int)
    ensures var r := Newest(Closing(ds, orderTicket));
      && (r.None? ==> forall j :: 0 <= j < |ds| ==> !Qualifies(ds[j], orderTicket))
      && (r.Some? ==> exists i :: NewestAt(ds, orderTicket, i) && ds[i] == r.value)
  {
    if ds != [] {
      var rest := ds[1..];
      NewestClosing(rest, orderTicket);
      var later := Newest(Closing(rest, orderTicket));
      if Qualifies(ds[0], orderTicket) {
        assert Closing(ds, orderTicket)[1..] == Closing(rest, orderTicket);
      }
      if later.Some? {
        var k :| NewestAt(rest, orderTicket, k) && rest[k] == later.value;
        if Qualifies(ds[0], orderTicket) && ds[0].timeMsc >= later.value.timeMsc {
          assert NewestAt(ds, orderTicket, 0) by {
            forall j | 0 <= j < |ds| && Qualifies(ds[j], orderTicket) ensures ds[j].timeMsc <= ds[0].timeMsc {
              assert j > 0 ==> ds[j] == rest[j - 1];
            }
          }
        } else {
          assert NewestAt(ds, orderTicket, k + 1) by {
            forall j | 0 <= j < |ds| && Qualifies(ds[j], orderTicket) ensures ds[j].timeMsc <= ds[k + 1].timeMsc {
              assert j > 0 ==> ds[j] == rest[j - 1];
            }
            forall j | 0 <= j < k + 1 && Qualifies(ds[j], orderTicket) ensures ds[j].timeMsc < ds[k + 1].timeMsc {
              assert j > 0 ==> ds[j] == rest[j - 1];
            }
          }
        }
      } else if Qualifies(ds[0], orderTicket) {
        assert NewestAt(ds, orderTicket, 0);
      }
    }
  }

  function Found(a: Answer, orderTicket: int, dealTicket: int): Option<Deal> {
    if a.Raises? then None else ClosingDeal(a, orderTicket, dealTicket)
  }

  /**
   A deal is taken exactly from one of two places: the deal the result named, if it is
   priced, or else the newest qualifying deal of the position. A lookup that raises finds none.
   */
  lemma ClosingDealIsRight(a: Answer, orderTicket: int, dealTicket: int)
    ensures var r := Found(a, orderTicket, dealTicket);
      if a.Raises? then r.None?
      else
        var history := if a.ofPosition.Some? then a.ofPosition.value else [];
        if dealTicket != 0 && a.named.Some? && a.named.value != [] && a.named.value[0].price != 0.0
        then r == Some(a.named.value[0])
        else if exists j :: 0 <= j < |history| && Qualifies(history[j], orderTicket)
        then exists i :: NewestAt(history, orderTicket, i) && r == Some(history[i])
        else r.None?
  {
    if a.Deals? {
      NewestClosing(if a.ofPosition.Some? then a.ofPosition.value else [], orderTicket);
    }
  }

  // ---------------------------------------------------------------------------------------
  // Polling
  // ---------------------------------------------------------------------------------------

  function CeilDiv(a: int, b: int): int
    requires b > 0
  {
    if a <= 0 then 0 else (a + b - 1) / b
  }

  lemma CeilDivRoundsUp(a: int, b: int)
    requires b > 0
    ensures a <= 0 ==> CeilDiv(a, b) == 0
    ensures a > 0 ==> (CeilDiv(a, b) - 1) * b < a <= CeilDiv(a, b) * b
  {
  }

  lemma MulCancels(a: int, b: int, c: int)
    requires c > 0
    ensures a * c < b * c <==> a < b
  {
  }

  /** `n` whole pauses that fit strictly inside the timeout are fewer than its ceiling in pauses. */
  lemma PausesFit(n: int, pause: int, timeout: int)
    requires pause > 0 && 0 <= n && n * pause < timeout
    ensures n + 1 <= CeilDiv(timeout, pause)
  {
    var c := CeilDiv(timeout, pause);
    assert timeout <= c * pause;
    assert n * pause < c * pause;
    MulCancels(n, c, pause);
  }

  /** What `n` lookups cost, pauses apart. */
  function Spent(spent: nat -> nat, n: nat): nat {
    if n == 0 then 0 else Spent(spent, n - 1) + spent(n - 1)
  }

  lemma {:induction false} SpentGrows(spent: nat -> nat, m: nat, n: nat)
    requires m <= n
    ensures Spent(spent, m) <= Spent(spent, n)
  {
    if m < n {
      SpentGrows(spent, m, n - 1);
    }
  }

  /** The clock since the start, after `n` lookups and `pauses` pauses. */
  function Clock(spent: nat -> nat, n: nat, pause: int, pauses: nat): int {
    Spent(spent, n) + pauses * pause
  }

  /** The clock after `i` whole rounds and one more lookup. */
  function ClockAt(spent: nat -> nat, pause: int, i: nat): int {
    Clock(spent, i + 1, pause, i)
  }

  /** How many rounds fit before the deadline; without a pause, the clock gets there after `enough`. */
  function MostRounds(timeout: int, pause: int, enough: nat): int {
    if pause > 0 then CeilDiv(timeout, pause) else if pause == 0 then enough else 0
  }

  /** While the deadline is ahead, another round fits. */
  lemma RoundFits(spent: nat -> nat, n: nat, timeout: int, pause: int, pauses: nat, enough: nat)
    requires pause >= 0 && pauses <= n && Clock(spent, n, pause, pauses) < timeout
    requires pause == 0 ==> Spent(spent, enough) >= timeout
    ensures pauses < MostRounds(timeout, pause, enough)
    ensures pause == 0 ==> n < enough
  {
    if pause > 0 {
      PausesFit(pauses, pause, timeout);
    } else if enough <= n {
      SpentGrows(spent, enough, n);
    }
  }

  /** SleepRaises: a negative pause, which `time.sleep` refuses. */
  datatype Source = OrderSend | FromDeal | FromPosition | Unresolved | SleepRaises

  /** The mutable result dictionary of a close or an order. */
  class FillResult {
    var price: real
    var deal: int
    var order: int
    var volume: real

    constructor (price: real, deal: int, order: int, volume: real)
      ensures this.price == price && this.deal == deal && this.order == order && this.volume == volume
    {
      this.price, this.deal, this.order, this.volume := price, deal, order, volume;
    }
  }

  /**
   `answers(i)` is the i-th lookup and `spent(i)` what it and any oversleeping cost in
   milliseconds on top of the pause that follows it. Without a pause the wait ends only
   because lookups take time: `enough` of them reach the deadline.
   */
  method ConfirmClose(result: FillResult, answers: nat -> Answer, spent: nat -> nat, timeout: int, pause: int,
                      ghost enough: nat)
    returns (source: Source, lookups: nat)
    requires pause == 0 ==> Spent(spent, enough) >= timeout
    modifies result
    ensures source.OrderSend? <==> old(result.price) != 0.0 && old(result.deal) != 0
    ensures source.OrderSend? ==> lookups == 0
    ensures !source.FromPosition?
    ensures !source.FromDeal? ==>
      result.price == old(result.price) && result.deal == old(result.deal) && result.volume == old(result.volume)
    ensures result.order == old(result.order)
    ensures lookups <= MostRounds(timeout, pause, enough) + 1
    ensures !source.OrderSend? ==> lookups >= 1
    ensures forall i: nat :: i < lookups - 1 ==> Found(answers(i), old(result.order), old(result.deal)).None?
    ensures forall i: nat :: i < lookups - 1 ==> ClockAt(spent, pause, i) < timeout
    ensures source.Unresolved? || source.SleepRaises? ==>
      Found(answers(lookups - 1), old(result.order), old(result.deal)).None?
    ensures source.Unresolved? ==> ClockAt(spent, pause, lookups - 1) >= timeout
    ensures source.SleepRaises? ==> pause < 0 && lookups == 1 && spent(0) < timeout
    ensures source.FromDeal? ==>
      var d := Found(answers(lookups - 1), old(result.order), old(result.deal));
      && d.Some? && result.price == d.value.price && result.deal == d.value.ticket
      && result.volume == if old(result.volume) == 0.0 then d.value.volume else old(result.volume)
  {
    lookups := 0;
    if result.price != 0.0 && result.deal != 0 {
      return OrderSend, 0;
    }
    var elapsed := 0;
    while true
      invariant result.price == old(result.price) && result.deal == old(result.deal)
      invariant result.volume == old(result.volume) && result.order == old(result.order)
      invariant elapsed == Clock(spent, lookups, pause, lookups)
      invariant lookups <= MostRounds(timeout, pause, enough) && (pause == 0 ==> lookups <= enough)
      invariant forall i: nat :: i < lookups ==> ClockAt(spent, pause, i) < timeout
      invariant forall i: nat :: i < lookups ==> Found(answers(i), result.order, result.deal).None?
      decreases if pause == 0 then enough - lookups else timeout - elapsed
    {
      var deal := Found(answers(lookups), result.order, result.deal);
      elapsed := elapsed + spent(lookups);
      lookups := lookups + 1;
      assert elapsed == ClockAt(spent, pause, lookups - 1);
      if deal.Some? {
        result.price := deal.value.price;
        result.deal := deal.value.ticket;
        if result.volume == 0.0 {
          result.volume := deal.value.volume;
        }
        return FromDeal, lookups;
      }
      if elapsed >= timeout {
        return Unresolved, lookups;
      }
      if pause < 0 {
        return SleepRaises, lookups;
      }
      RoundFits(spent, lookups, timeout, pause, lookups - 1, enough);
      elapsed := elapsed + pause;
    }
  }

  /** A confirmed close always carries a price. */
  lemma FoundIsPriced(a: Answer, orderTicket: int, dealTicket: int)
    requires Found(a, orderTicket, dealTicket).Some?
    ensures Found(a, orderTicket, dealTicket).value.price != 0.0
  {
    ClosingDealIsRight(a, orderTicket, dealTicket);
  }

  // ---------------------------------------------------------------------------------------
  // The same wait for a market order
  // ---------------------------------------------------------------------------------------

  /** One lookup for an order: the first deal of its ticket and the open price of its position. */
  datatype FillAnswer = FillRaises | Fill(deal: Option<Deal>, openPrice: Option<real>)

  function FillSource(a: FillAnswer, dealTicket: int, orderTicket: int): Source {
    if a.FillRaises? then Unresolved
    else if dealTicket != 0 && a.deal.Some? && a.deal.value.price != 0.0 then FromDeal
    else if orderTicket != 0 && a.openPrice.Some? && a.openPrice.value != 0.0 then FromPosition
    else Unresolved
  }

  /** A priced deal of the acknowledged ticket comes first, then a position that carries an open price. */
  lemma DealBeforePosition(deal: Option<Deal>, openPrice: Option<real>, dealTicket: int, orderTicket: int)
    ensures FillSource(FillRaises, dealTicket, orderTicket) == Unresolved
    ensures var priced := dealTicket != 0 && (exists d :: deal == Some(d) && d.price != 0.0);
      var held := orderTicket != 0 && openPrice != None && openPrice != Some(0.0);
      FillSource(Fill(deal, openPrice), dealTicket, orderTicket)
      == if priced then FromDeal else if held then FromPosition else Unresolved
  {
    assert deal.Some? ==> deal == Some(deal.value);
  }

  /** The order pauses before each lookup, so it makes one lookup fewer. */
  method ResolveAsyncFill(result: FillResult, answers: nat -> FillAnswer, spent: nat -> nat, timeout: int, pause: int,
                          ghost enough: nat)
    returns (source: Source, lookups: nat)
    requires pause == 0 ==> Spent(spent, enough) >= timeout
    modifies result
    ensures !source.OrderSend?
    ensures lookups <= MostRounds(timeout, pause, enough)
    ensures result.deal == old(result.deal) && result.order == old(result.order)
    ensures source.Unresolved? || source.SleepRaises? ==>
      && result.price == old(result.price) && result.volume == old(result.volume)
      && forall i: nat :: i < lookups ==> FillSource(answers(i), old(result.deal), old(result.order)).Unresolved?
    ensures forall n: nat :: n < lookups ==> Clock(spent, n, pause, n) < timeout
    ensures source.Unresolved? ==> Clock(spent, lookups, pause, lookups) >= timeout
    ensures source.SleepRaises? <==> pause < 0 < timeout
    ensures source.FromDeal? || source.FromPosition? ==>
      && lookups >= 1 && source == FillSource(answers(lookups - 1), old(result.deal), old(result.order))
      && forall i: nat :: i < lookups - 1 ==> FillSource(answers(i), old(result.deal), old(result.order)).Unresolved?
    ensures source.FromDeal? ==>
      && result.price == answers(lookups - 1).deal.value.price != 0.0
      && result.volume == if old(result.volume) == 0.0 then answers(lookups - 1).deal.value.volume else old(result.volume)
    ensures source.FromPosition? ==>
      result.price == answers(lookups - 1).openPrice.value != 0.0 && result.volume == old(result.volume)
  {
    lookups := 0;
    var elapsed := 0;
    while elapsed < timeout
      invariant elapsed == Clock(spent, lookups, pause, lookups)
      invariant lookups <= MostRounds(timeout, pause, enough) || lookups == 0
      invariant pause < 0 ==> lookups == 0
      invariant result.price == old(result.price) && result.volume == old(result.volume)
      invariant result.deal == old(result.deal) && result.order == old(result.order)
      invariant forall n: nat :: n < lookups ==> Clock(spent, n, pause, n) < timeout
      invariant forall i: nat :: i < lookups ==> FillSource(answers(i), result.deal, result.order).Unresolved?
      decreases if pause == 0 then enough - lookups else timeout - elapsed
    {
      if pause < 0 {
        return SleepRaises, lookups;
      }
      RoundFits(spent, lookups, timeout, pause, lookups, enough);
      elapsed := elapsed + pause + spent(lookups);
      var a := answers(lookups);
      source := FillSource(a, result.deal, result.order);
      lookups := lookups + 1;
      assert elapsed == Clock(spent, lookups, pause, lookups);
      if source.FromDeal? {
        result.price := a.deal.value.price;
        if result.volume == 0.0 {
          result.volume := a.deal.value.volume;
        }
        return;
      }
      if source.FromPosition? {
        result.price := a.openPrice.value;
        return;
      }
    }
    source := Unresolved;
  }
}
