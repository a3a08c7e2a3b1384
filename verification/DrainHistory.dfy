/** The drain history of a liquidation address (bridge-xyz.service.ts): load all pages, add up the
    amounts per day, and total them. Amounts are exact here; only NaN is kept from the number type. */
module DrainHistory {
  import opened Prelude

  /** Number.parseFloat */
  datatype Amount = NaN | Finite(value: real)

  /** `day` is the formatted creation date, missing when the date does not parse. */
  datatype Drain = Drain(id: string, day: Option<string>, amount: Amount)

  datatype DayAmount = DayAmount(date: string, amount: Amount)

  function Plus(a: Amount, b: Amount): Amount {
    if a.NaN? || b.NaN? then NaN else Finite(a.value + b.value)
  }

  /** Zero and NaN are falsy. */
  predicate TruthyAmount(a: Amount) {
    a.Finite? && a.value != 0.0
  }

  // ---------------------------------------------------------------- one day

  /** One drain more on a day that may have an entry already: a falsy total is replaced, not added to. */
  function Accumulate(total: Option<Amount>, amount: Amount): Amount {
    if total.Some? && TruthyAmount(total.value) then Plus(total.value, amount) else amount
  }

  function DayTotal(drains: seq<Drain>): Option<Amount> {
    if drains == [] then None else Some(Accumulate(DayTotal(drains[..|drains| - 1]), Last(drains).amount))
  }

  /** The sum of the finite amounts. */
  function Sum(drains: seq<Drain>): real {
    if drains == [] then 0.0
    else Sum(drains[..|drains| - 1]) + if Last(drains).amount.Finite? then Last(drains).amount.value else 0.0
  }

  /** The number of drains up to and including the last one that is not a number. */
  function UpToNaN(drains: seq<Drain>): (n: nat)
    ensures n <= |drains|
    ensures n > 0 ==> drains[n - 1].amount.NaN?
    ensures forall i :: n <= i < |drains| ==> drains[i].amount.Finite?
  {
    if drains == [] then 0 else if Last(drains).amount.NaN? then |drains| else UpToNaN(drains[..|drains| - 1])
  }

  lemma {:induction false} SumConcat(xs: seq<Drain>, ys: seq<Drain>)
    ensures Sum(xs + ys) == Sum(xs) + Sum(ys)
  {
    if ys == [] {
      assert xs + ys == xs;
    } else {
      SumConcat(xs, ys[..|ys| - 1]);
      assert (xs + ys)[..|xs + ys| - 1] == xs + ys[..|ys| - 1];
    }
  }

  /** A total that passes through zero loses nothing, but one that was NaN does: a day's total is what
      came after the last amount that is not a number. */
  lemma {:induction false} DayTotalSinceNaN(drains: seq<Drain>)
    requires drains != []
    ensures var n := UpToNaN(drains);
      DayTotal(drains) == Some(if n == |drains| then NaN else Finite(Sum(drains[n..])))
  {
    var before := drains[..|drains| - 1];
    var n := UpToNaN(drains);
    if n < |drains| {
      assert drains[n..][..|drains| - n - 1] == before[n..];
      if before != [] { DayTotalSinceNaN(before); }
    }
  }

  /** So a day's total is the sum of its amounts exactly when it does not end in NaN and what came
      before its last NaN cancels out; in particular whenever all amounts are numbers. */
  lemma {:induction false} DayConserves(drains: seq<Drain>)
    requires drains != []
    ensures var n := UpToNaN(drains);
      DayTotal(drains) == Some(Finite(Sum(drains))) <==> n < |drains| && Sum(drains[..n]) == 0.0
  {
    var n := UpToNaN(drains);
    DayTotalSinceNaN(drains);
    SumConcat(drains[..n], drains[n..]);
    assert drains == drains[..n] + drains[n..];
  }

  // ---------------------------------------------------------------- grouping by day

  /** The dictionary: its keys in order of insertion, and its values. */
  datatype Grouped = Grouped(days: seq<string>, totals: map<string, Amount>)

  function AddDrain(g: Grouped, drain: Drain): Grouped {
    match drain.day
    case None => g
    case Some(day) =>
      var total := if day in g.totals then Some(g.totals[day]) else None;
      Grouped(if day in g.totals then g.days else g.days + [day], g.totals[day := Accumulate(total, drain.amount)])
  }

  function GroupByDay(drains: seq<Drain>): Grouped {
    if drains == [] then Grouped([], map[]) else AddDrain(GroupByDay(drains[..|drains| - 1]), Last(drains))
  }

  function OnDay(drains: seq<Drain>, day: string): seq<Drain> {
    Filter(drains, (d: Drain) => d.day == Some(day))
  }

  function Dated(drains: seq<Drain>): seq<Drain> {
    Filter(drains, (d: Drain) => d.day.Some?)
  }

  /** Every day that occurs is listed once, with the total of exactly its own drains in order. */
  lemma {:induction false} GroupsAreDays(drains: seq<Drain>)
    ensures var g := GroupByDay(drains);
      && Distinct(g.days) && (forall day :: day in g.days <==> day in g.totals)
      && (forall day :: (if day in g.totals then Some(g.totals[day]) else None) == DayTotal(OnDay(drains, day)))
  {
    if drains != [] {
      var before, x := drains[..|drains| - 1], Last(drains);
      GroupsAreDays(before);
      var g := GroupByDay(drains);
      forall day ensures (if day in g.totals then Some(g.totals[day]) else None) == DayTotal(OnDay(drains, day)) {
        FilterSnoc(drains, (d: Drain) => d.day == Some(day));
        var kept := OnDay(before, day);
        assert (kept + [x])[..|kept|] == kept;
      }
    }
  }

  /** Days are listed in the order in which they first occur: more drains only add days at the end. */
  lemma {:induction false} DaysInOrder(drains: seq<Drain>, k: nat)
    requires k <= |drains|
    ensures GroupByDay(drains[..k]).days <= GroupByDay(drains).days
    ensures k < |drains| && drains[k].day.Some? ==> drains[k].day.value in GroupByDay(drains[..k + 1]).days
  {
    if k == |drains| {
      assert drains[..k] == drains;
    } else {
      var before := drains[..|drains| - 1];
      assert before[..k] == drains[..k] && drains[..k + 1][..k] == drains[..k];
      DaysInOrder(before, k);
      GroupsAreDays(drains[..k]);
    }
  }

  function SumOfDays(days: seq<string>, drains: seq<Drain>): real {
    if days == [] then 0.0 else SumOfDays(days[..|days| - 1], drains) + Sum(OnDay(drains, Last(days)))
  }

  lemma {:induction false} SumSnoc(drains: seq<Drain>, x: Drain)
    ensures Sum(drains + [x]) == Sum(drains) + Sum([x])
  {
    SumConcat(drains, [x]);
  }

  /** One drain more is counted once if its day is among the days. */
  lemma {:induction false} OneMoreDrain(days: seq<string>, drains: seq<Drain>)
    requires drains != [] && Distinct(days)
    ensures SumOfDays(days, drains) ==
      SumOfDays(days, drains[..|drains| - 1]) +
        if Last(drains).day.Some? && Last(drains).day.value in days then Sum([Last(drains)]) else 0.0
  {
    if days != [] {
      var day, before, x := Last(days), drains[..|drains| - 1], Last(drains);
      OneMoreDrain(days[..|days| - 1], drains);
      FilterSnoc(drains, (d: Drain) => d.day == Some(day));
      SumSnoc(OnDay(before, day), x);
      assert days == days[..|days| - 1] + [day];
      assert day !in days[..|days| - 1];
    }
  }

  lemma {:induction false} NoDrains(days: seq<string>)
    ensures SumOfDays(days, []) == 0.0
  {
    if days != [] { NoDrains(days[..|days| - 1]); }
  }

  /** Splitting by day neither loses nor repeats money: over any distinct days that cover the drains. */
  lemma {:induction false} DaysConserve(days: seq<string>, drains: seq<Drain>)
    requires Distinct(days) && forall d :: d in drains && d.day.Some? ==> d.day.value in days
    ensures SumOfDays(days, drains) == Sum(Dated(drains))
  {
    if drains == [] {
      NoDrains(days);
    } else {
      var before, x := drains[..|drains| - 1], Last(drains);
      assert forall d :: d in before ==> d in drains;
      assert x in drains;
      DaysConserve(days, before);
      OneMoreDrain(days, drains);
      FilterSnoc(drains, (d: Drain) => d.day.Some?);
      SumSnoc(Dated(before), x);
    }
  }

  // ---------------------------------------------------------------- the answer

  function DayList(g: Grouped): seq<DayAmount>
    requires forall day :: day in g.days ==> day in g.totals
  {
    seq(|g.days|, i requires 0 <= i < |g.days| => DayAmount(g.days[i], g.totals[g.days[i]]))
  }

  function TotalTransferred(list: seq<DayAmount>): Amount {
    if list == [] then Finite(0.0) else Plus(TotalTransferred(list[..|list| - 1]), Last(list).amount)
  }

  ghost predicate AllNumbers(drains: seq<Drain>) {
    forall d :: d in drains ==> d.amount.Finite?
  }

  /** What a day loses: its amounts up to the last one that is not a number. */
  function Forgotten(drains: seq<Drain>): real {
    Sum(drains[..UpToNaN(drains)])
  }

  function ForgottenOn(days: seq<string>, drains: seq<Drain>): real {
    if days == [] then 0.0 else ForgottenOn(days[..|days| - 1], drains) + Forgotten(OnDay(drains, Last(days)))
  }

  predicate EndsInNaN(drains: seq<Drain>) {
    drains != [] && Last(drains).amount.NaN?
  }

  predicate SomeDayEndsInNaN(days: seq<string>, drains: seq<Drain>) {
    exists i :: 0 <= i < |days| && EndsInNaN(OnDay(drains, days[i]))
  }

  lemma {:induction false} DayTotalIs(drains: seq<Drain>)
    requires drains != []
    ensures DayTotal(drains) == Some(if EndsInNaN(drains) then NaN else Finite(Sum(drains) - Forgotten(drains)))
  {
    hide DayTotal, Sum;
    var n := UpToNaN(drains);
    DayTotalSinceNaN(drains);
    assert drains == drains[..n] + drains[n..];
    SumConcat(drains[..n], drains[n..]);
    assert n == |drains| <==> EndsInNaN(drains);
  }

  ghost predicate IsTotalOf(amount: Amount, drains: seq<Drain>) {
    amount == if EndsInNaN(drains) then NaN else Finite(Sum(drains) - Forgotten(drains))
  }

  lemma {:induction false} TotalOfDays(drains: seq<Drain>, list: seq<DayAmount>, days: seq<string>, n: nat)
    requires n <= |list| == |days|
    requires forall i {:trigger days[i]} :: 0 <= i < |days| ==> IsTotalOf(list[i].amount, OnDay(drains, days[i]))
    ensures TotalTransferred(list[..n]) ==
      if SomeDayEndsInNaN(days[..n], drains) then NaN
      else Finite(SumOfDays(days[..n], drains) - ForgottenOn(days[..n], drains))
  {
    hide OnDay, Sum, Forgotten, EndsInNaN;
    if n > 0 {
      TotalOfDays(drains, list, days, n - 1);
      assert list[..n][..n - 1] == list[..n - 1] && days[..n][..n - 1] == days[..n - 1];
      assert Last(days[..n]) == days[n - 1];
      SomeDaySnoc(days[..n], drains);
    }
  }

  lemma {:induction false} SomeDaySnoc(days: seq<string>, drains: seq<Drain>)
    requires days != []
    ensures SomeDayEndsInNaN(days, drains) <==>
      SomeDayEndsInNaN(days[..|days| - 1], drains) || EndsInNaN(OnDay(drains, Last(days)))
  {
    hide OnDay, EndsInNaN;
    var before := days[..|days| - 1];
    if SomeDayEndsInNaN(before, drains) {
      var i :| 0 <= i < |before| && EndsInNaN(OnDay(drains, before[i]));
      assert days[i] == before[i];
    }
    if SomeDayEndsInNaN(days, drains) {
      var i :| 0 <= i < |days| && EndsInNaN(OnDay(drains, days[i]));
      assert i < |before| ==> before[i] == days[i];
    }
  }

  /** The grand total of any history: NaN if some day ends in NaN, and otherwise the sum of all drains with
      a valid date, less what the days forgot. So it is that sum exactly if no day ends in NaN and what
      they forgot cancels out. */
  lemma {:induction false} GrandTotal(drains: seq<Drain>)
    ensures var g := GroupByDay(drains);
      && (forall day :: day in g.days ==> day in g.totals)
      && TotalTransferred(DayList(g)) ==
           (if SomeDayEndsInNaN(g.days, drains) then NaN else Finite(Sum(Dated(drains)) - ForgottenOn(g.days, drains)))
      && (TotalTransferred(DayList(g)) == Finite(Sum(Dated(drains))) <==>
           !SomeDayEndsInNaN(g.days, drains) && ForgottenOn(g.days, drains) == 0.0)
  {
    hide OnDay, Sum, DayTotal, GroupByDay, Dated, SumOfDays, TotalTransferred, IsTotalOf, ForgottenOn, SomeDayEndsInNaN;
    var g := GroupByDay(drains);
    GroupsAreDays(drains);
    var list, n := DayList(g), |g.days|;
    forall i {:trigger g.days[i]} | 0 <= i < n ensures IsTotalOf(list[i].amount, OnDay(drains, g.days[i])) {
      EntryIsTotal(drains, i);
    }
    forall d | d in drains && d.day.Some? ensures d.day.value in g.days {
      DayOccurs(drains, d);
    }
    TotalOfDays(drains, list, g.days, n);
    assert list[..n] == list && g.days[..n] == g.days;
    DaysConserve(g.days, drains);
  }

  lemma {:induction false} EntryIsTotal(drains: seq<Drain>, i: nat)
    requires i < |GroupByDay(drains).days|
    ensures var g := GroupByDay(drains);
      g.days[i] in g.totals && IsTotalOf(g.totals[g.days[i]], OnDay(drains, g.days[i]))
  {
    hide OnDay, Sum, GroupByDay, Forgotten, EndsInNaN;
    GroupsAreDays(drains);
    var day := GroupByDay(drains).days[i];
    assert day in GroupByDay(drains).days;
    DayTotalIs(OnDay(drains, day));
  }

  lemma {:induction false} NumbersForgetNothing(drains: seq<Drain>, day: string)
    requires AllNumbers(Dated(drains))
    ensures !EndsInNaN(OnDay(drains, day)) && Forgotten(OnDay(drains, day)) == 0.0
  {
    var on := OnDay(drains, day);
    forall i | 0 <= i < |on| ensures on[i].amount.Finite? {
      FilterMember(drains, (d: Drain) => d.day == Some(day), on[i]);
      FilterMember(drains, (d: Drain) => d.day.Some?, on[i]);
    }
  }

  lemma {:induction false} NothingForgotten(days: seq<string>, drains: seq<Drain>)
    requires AllNumbers(Dated(drains))
    ensures ForgottenOn(days, drains) == 0.0
  {
    if days != [] {
      NothingForgotten(days[..|days| - 1], drains);
      NumbersForgetNothing(drains, Last(days));
    }
  }

  /** In particular, when every dated amount is a number, the day list has distinct days, each with the sum
      of its own drains, and the grand total is the sum of all drains with a valid date. */
  lemma {:induction false} HistoryConserves(drains: seq<Drain>)
    requires AllNumbers(Dated(drains))
    ensures var g := GroupByDay(drains);
      && Distinct(g.days) && (forall day :: day in g.days ==> day in g.totals)
      && (forall i :: 0 <= i < |g.days| ==>
            DayList(g)[i] == DayAmount(g.days[i], Finite(Sum(OnDay(drains, g.days[i])))))
      && TotalTransferred(DayList(g)) == Finite(Sum(Dated(drains)))
  {
    hide OnDay, Sum, GroupByDay, Dated, TotalTransferred, AllNumbers, EndsInNaN, Forgotten, ForgottenOn;
    var g := GroupByDay(drains);
    GroupsAreDays(drains);
    GrandTotal(drains);
    NothingForgotten(g.days, drains);
    forall i | 0 <= i < |g.days| ensures DayList(g)[i] == DayAmount(g.days[i], Finite(Sum(OnDay(drains, g.days[i])))) {
      EntryIsTotal(drains, i);
      NumbersForgetNothing(drains, g.days[i]);
    }
    forall i | 0 <= i < |g.days| ensures !EndsInNaN(OnDay(drains, g.days[i])) {
      NumbersForgetNothing(drains, g.days[i]);
    }
  }

  lemma {:induction false} DayOccurs(drains: seq<Drain>, d: Drain)
    requires d in drains && d.day.Some?
    ensures d.day.value in GroupByDay(drains).days
  {
    GroupsAreDays(drains);
    FilterMember(drains, (e: Drain) => e.day == d.day, d);
    FilterMember(drains, (e: Drain) => e.day == Some(d.day.value), d);
  }

  /** An amount that is not a number in between makes the day forget what came before it. */
  lemma {:induction false} NaNForgets()
    ensures var drains := [Drain("1", Some("2024/01/01"), Finite(5.0)), Drain("2", Some("2024/01/01"), NaN),
                           Drain("3", Some("2024/01/01"), Finite(2.0))];
      DayTotal(drains) == Some(Finite(2.0)) && Sum(drains) == 7.0
  {
    var day := Some("2024/01/01");
    var a, b, c := Drain("1", day, Finite(5.0)), Drain("2", day, NaN), Drain("3", day, Finite(2.0));
    assert [a, b, c][..2] == [a, b] && [a, b][..1] == [a];
    assert DayTotal([a, b]) == Some(NaN);
    assert Sum([a]) == 5.0 && Sum([a, b]) == 5.0;
  }

  // ---------------------------------------------------------------- the service

  /** Position after the item with the id; ids of the history are distinct and not empty. */
  function After(history: seq<Drain>, cursor: Option<string>): (p: nat)
    ensures p <= |history|
  {
    if cursor.None? || cursor.value == "" || history == [] then 0
    else if history[0].id == cursor.value then 1
    else var p := After(history[1..], cursor); if p == 0 then 0 else p + 1
  }

  /** No id is empty or occurs twice. */
  ghost predicate ProperIds(history: seq<Drain>) {
    && (forall i :: 0 <= i < |history| ==> history[i].id != "")
    && (forall i, j :: 0 <= i < j < |history| ==> history[i].id != history[j].id)
  }

  /** So the page after an item starts directly behind it. */
  lemma {:induction false} AfterItem(history: seq<Drain>, i: nat)
    requires ProperIds(history) && i < |history|
    ensures After(history, Some(history[i].id)) == i + 1
  {
    if i > 0 { AfterItem(history[1..], i - 1); }
  }

  class BridgeXyzService {
    /** All drains of the address, in the order in which paging walks through them. */
    const history: seq<Drain>

    constructor (history: seq<Drain>)
      ensures this.history == history
    {
      this.history := history;
    }

    /** The contract of the drains endpoint: the next segment after the cursor, of any positive length. */
    method GetLiqAddressDrainHistoryPaginated(endingBeforeId: Option<string>) returns (list: seq<Drain>)
      ensures var p := After(history, endingBeforeId);
        |list| <= |history| - p && list == history[p..p + |list|] && (p < |history| ==> list != [])
    {
      var p := After(history, endingBeforeId);
      if p == |history| { return []; }
      var n: nat :| 0 < n <= |history| - p;
      list := history[p..p + n];
    }

    method TransformTransactions(transactions: seq<Drain>) returns (list: seq<DayAmount>)
      ensures var g := GroupByDay(transactions);
        (forall day :: day in g.days ==> day in g.totals) && list == DayList(g)
    {
      var days: seq<string>, groupedByDate: map<string, Amount> := [], map[];
      for i := 0 to |transactions|
        invariant Grouped(days, groupedByDate) == GroupByDay(transactions[..i])
      {
        assert transactions[..i + 1][..i] == transactions[..i];
        var transaction := transactions[i];
        if transaction.day.Some? {
          var formattedDate := transaction.day.value;
          if formattedDate in groupedByDate && TruthyAmount(groupedByDate[formattedDate]) {
            groupedByDate := groupedByDate[formattedDate := Plus(groupedByDate[formattedDate], transaction.amount)];
          } else {
            if formattedDate !in groupedByDate { days := days + [formattedDate]; }
            groupedByDate := groupedByDate[formattedDate := transaction.amount];
          }
        }
      }
      assert transactions[..|transactions|] == transactions;
      GroupsAreDays(transactions);
      list := seq(|days|, k requires 0 <= k < |days| && days[k] in groupedByDate =>
        DayAmount(days[k], groupedByDate[days[k]]));
    }

    /** All pages are loaded: every drain once, in order. The loop stops because each page moves on. */
    method GetLiqAddressDrainHistory() returns (list: seq<DayAmount>, totalTransferred: Amount)
      requires ProperIds(history)
      ensures var g := GroupByDay(history);
        (forall day :: day in g.days ==> day in g.totals) && list == DayList(g)
      ensures totalTransferred == TotalTransferred(list)
      ensures var days := GroupByDay(history).days;
        totalTransferred ==
          if SomeDayEndsInNaN(days, history) then NaN else Finite(Sum(Dated(history)) - ForgottenOn(days, history))
    {
      var endingBeforeId: Option<string> := None;
      var txFullHistoryList: seq<Drain> := [];
      while true
        invariant |txFullHistoryList| <= |history| && txFullHistoryList == history[..|txFullHistoryList|]
        invariant After(history, endingBeforeId) == |txFullHistoryList|
        decreases |history| - |txFullHistoryList|
      {
        var page := GetLiqAddressDrainHistoryPaginated(endingBeforeId);
        if page == [] { break; }
        endingBeforeId := Some(Last(page).id);
        assert Last(page) == history[|txFullHistoryList| + |page| - 1];
        AfterItem(history, |txFullHistoryList| + |page| - 1);
        txFullHistoryList := txFullHistoryList + page;
      }
      assert txFullHistoryList == history;
      list := TransformTransactions(txFullHistoryList);
      totalTransferred := Finite(0.0);
      for k := 0 to |list|
        invariant totalTransferred == TotalTransferred(list[..k])
      {
        assert list[..k + 1][..k] == list[..k];
        totalTransferred := Plus(totalTransferred, list[k].amount);
      }
      assert list[..|list|] == list;
      GrandTotal(history);
    }
  }
}
