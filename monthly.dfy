/** The monthly profit and loss of the summary page (`monthlyPL` in
    src/app/riepilogo/page.tsx): every day that has closed-bet profit or a
    regular adjustment becomes a row holding both amounts and their sum; the
    rows are grouped by month, each month carrying the three running sums,
    and months and days come out newest first. */
module Monthly {
  import opened Common
  import opened Seqs
  import opened OrderedMap
  import opened Keyed
  import opened Sorting
  import opened Text
  import opened Calendar
  import opened Legs
  import opened Bets
  import opened Balances
  import opened Summary

  // ----- The days -----

  /** `daySet.add(d)`: a `Set` keeps its elements once, in insertion order. */
  function SetAdd(s: seq<string>, d: string): seq<string>
  {
    if d in s then s else s + [d]
  }

  /** `for (const d of m.keys()) daySet.add(d)`. */
  function AddKeys<V>(s: seq<string>, m: seq<Entry<V>>): seq<string>
  {
    if m == [] then s else SetAdd(AddKeys(s, m[..|m| - 1]), m[|m| - 1].key)
  }

  /** The day set: the keys of `betProfitByDay`, then those of `adjByDay`. */
  function DaySetOf(bet: seq<Entry<real>>, adj: seq<Entry<real>>): seq<string>
  {
    AddKeys(AddKeys([], bet), adj)
  }

  /** The two loops that fill `daySet`. */
  method DaySet(bet: seq<Entry<real>>, adj: seq<Entry<real>>) returns (s: seq<string>)
    ensures s == DaySetOf(bet, adj)
  {
    s := [];
    for i := 0 to |bet|
      invariant s == AddKeys([], bet[..i])
    {
      assert bet[..i + 1][..i] == bet[..i];
      var d := bet[i].key;
      if d !in s {
        s := s + [d];
      }
    }
    assert bet[..|bet|] == bet;
    ghost var s0 := s;
    for i := 0 to |adj|
      invariant s == AddKeys(s0, adj[..i])
    {
      assert adj[..i + 1][..i] == adj[..i];
      var d := adj[i].key;
      if d !in s {
        s := s + [d];
      }
    }
    assert adj[..|adj|] == adj;
  }

  /** Adding the keys of a map to a set gives the union, each element once. */
  lemma {:induction false} AddKeysOk<V>(s: seq<string>, m: seq<Entry<V>>)
    requires NoDup(s)
    ensures NoDup(AddKeys(s, m))
    ensures (set d | d in AddKeys(s, m)) == (set d | d in s) + Keys(m)
  {
    if m != [] {
      var p := m[..|m| - 1];
      var t := AddKeys(s, p);
      var d := m[|m| - 1].key;
      AddKeysOk(s, p);
      KeysSnoc(m);
      if d !in t {
        ElemsSnoc(t, d);
      }
    }
  }

  function Self(d: string): string { d }

  /** `Array.from(daySet).sort((a, b) => (a < b ? 1 : -1))`. */
  function DayListOf(bet: seq<Entry<real>>, adj: seq<Entry<real>>): seq<string>
  {
    SortBy(DaySetOf(bet, adj), Self, Later)
  }

  /** The day list holds every key of either map, once, newest first. */
  lemma DayListOk(bet: seq<Entry<real>>, adj: seq<Entry<real>>)
    ensures (set d | d in DayListOf(bet, adj)) == Keys(bet) + Keys(adj)
    ensures forall i, j :: 0 <= i < j < |DayListOf(bet, adj)| ==> Later(DayListOf(bet, adj)[i], DayListOf(bet, adj)[j])
  {
    var s := DaySetOf(bet, adj);
    var ds := DayListOf(bet, adj);
    AddKeysOk([], bet);
    AddKeysOk(AddKeys([], bet), adj);
    assert (set d | d in ds) == (set d | d in s) by {
      forall d ensures d in ds <==> d in s {
        assert d in ds <==> d in multiset(ds);
      }
    }
    assert DistinctBy(s, Self);
    SortByDistinct(s, Self, Later, Self);
    LaterIsStrictTotal();
    SortBySorted(s, Self, Later);
    StrictlySorted(ds, Self, Later);
  }

  // ----- The month map -----

  /** One row of a month: the day, its total, its bet profit and its adjustments. */
  datatype PLDay = PLDay(dayISO: string, total: real, bet: real, adj: real)

  /** The value `monthMap` keeps per month start. */
  datatype PLMonth = PLMonth(monthTotal: real, monthBet: real, monthAdj: real, days: seq<PLDay>)

  /** One month of the result: `{ monthStart, ...m, days }`. */
  datatype PLRow = PLRow(monthStart: string, monthTotal: real, monthBet: real, monthAdj: real, days: seq<PLDay>)

  function DayISO(d: PLDay): string { d.dayISO }
  function DayTotalOf(d: PLDay): real { d.total }
  function DayBet(d: PLDay): real { d.bet }
  function DayAdj(d: PLDay): real { d.adj }

  /** The row of `day`: `betProfitByDay.get(day) ?? 0`, `adjByDay.get(day) ?? 0`
      and their sum. */
  function DayRow(day: string, bet: seq<Entry<real>>, adj: seq<Entry<real>>): PLDay
  {
    var b := Get(bet, day).GetOr(0.0);
    var a := Get(adj, day).GetOr(0.0);
    PLDay(day, b + a, b, a)
  }

  const EmptyMonth := PLMonth(0.0, 0.0, 0.0, [])

  /** A month after `m.monthTotal += total; m.monthBet += bet; m.monthAdj += adj;
      m.days.push(row)`. */
  function WithDay(m: PLMonth, r: PLDay): PLMonth
  {
    PLMonth(m.monthTotal + r.total, m.monthBet + r.bet, m.monthAdj + r.adj, m.days + [r])
  }

  /** One iteration: the month of the row, created empty when missing, takes the row. */
  function AddDay(mm: seq<Entry<PLMonth>>, r: PLDay): seq<Entry<PLMonth>>
  {
    var k := MonthKey(r.dayISO);
    Put(mm, k, WithDay(Get(mm, k).GetOr(EmptyMonth), r))
  }

  /** The month map after the loop has run over `ds`. */
  function MonthMapOf(ds: seq<string>, bet: seq<Entry<real>>, adj: seq<Entry<real>>): seq<Entry<PLMonth>>
  {
    if ds == [] then [] else AddDay(MonthMapOf(ds[..|ds| - 1], bet, adj), DayRow(ds[|ds| - 1], bet, adj))
  }

  /** The loop of `monthlyPL` over `dayList` that fills `monthMap`. */
  method MonthMap(ds: seq<string>, bet: seq<Entry<real>>, adj: seq<Entry<real>>) returns (mm: seq<Entry<PLMonth>>)
    ensures mm == MonthMapOf(ds, bet, adj)
  {
    mm := [];
    for i := 0 to |ds|
      invariant mm == MonthMapOf(ds[..i], bet, adj)
    {
      assert ds[..i + 1][..i] == ds[..i];
      ghost var mm0 := mm;
      var day := ds[i];
      var b := Get(bet, day).GetOr(0.0);
      var a := Get(adj, day).GetOr(0.0);
      var total := b + a;
      var monthStart := MonthKey(day);
      if Get(mm, monthStart).None? {
        mm := Put(mm, monthStart, EmptyMonth);
        PutTwice(mm0, monthStart, EmptyMonth, EmptyMonth);
      }
      var m := Get(mm, monthStart).value;
      var r := PLDay(day, total, b, a);
      m := PLMonth(m.monthTotal + total, m.monthBet + b, m.monthAdj + a, m.days + [r]);
      mm := Put(mm, monthStart, m);
      assert mm == AddDay(mm0, DayRow(day, bet, adj)) by {
        PutTwice(mm0, monthStart, EmptyMonth, m);
      }
    }
    assert ds[..|ds|] == ds;
  }

  function EntryDays(e: Entry<PLMonth>): seq<PLDay> { e.value.days }

  /** Every day row of every month of the map. */
  function MapDays(mm: seq<Entry<PLMonth>>): seq<PLDay> { FlatMap(mm, EntryDays) }

  /** The rows of the days `ds`, in their order. */
  function DayRows(ds: seq<string>, bet: seq<Entry<real>>, adj: seq<Entry<real>>): seq<PLDay>
  {
    seq(|ds|, i requires 0 <= i < |ds| => DayRow(ds[i], bet, adj))
  }

  lemma DayRowsSnoc(ds: seq<string>, bet: seq<Entry<real>>, adj: seq<Entry<real>>)
    requires ds != []
    ensures DayRows(ds, bet, adj) == DayRows(ds[..|ds| - 1], bet, adj) + [DayRow(ds[|ds| - 1], bet, adj)]
  {
  }

  /** What a month of start `k` holds: at least one day, only days of month
      `k`, each once and each the row of its day, and the three running sums
      of its days. */
  predicate MonthHolds(k: string, days: seq<PLDay>, total: real, betSum: real, adjSum: real,
                       bet: seq<Entry<real>>, adj: seq<Entry<real>>)
  {
    && days != []
    && DistinctBy(days, DayISO)
    && (forall j :: 0 <= j < |days| ==> MonthKey(days[j].dayISO) == k && days[j] == DayRow(days[j].dayISO, bet, adj))
    && total == SumOf(days, DayTotalOf)
    && betSum == SumOf(days, DayBet)
    && adjSum == SumOf(days, DayAdj)
  }

  predicate EntryHolds(e: Entry<PLMonth>, bet: seq<Entry<real>>, adj: seq<Entry<real>>)
  {
    MonthHolds(e.key, e.value.days, e.value.monthTotal, e.value.monthBet, e.value.monthAdj, bet, adj)
  }

  /** The month map: one entry per month, each holding what it should. */
  predicate MapHolds(mm: seq<Entry<PLMonth>>, bet: seq<Entry<real>>, adj: seq<Entry<real>>)
  {
    && Valid(mm)
    && forall i :: 0 <= i < |mm| ==> EntryHolds(mm[i], bet, adj)
  }

  /** A month, empty or well formed, that takes the row of a new day of its month. */
  lemma WithDayHolds(k: string, m: PLMonth, r: PLDay, bet: seq<Entry<real>>, adj: seq<Entry<real>>)
    requires m == EmptyMonth || MonthHolds(k, m.days, m.monthTotal, m.monthBet, m.monthAdj, bet, adj)
    requires MonthKey(r.dayISO) == k && r == DayRow(r.dayISO, bet, adj)
    requires forall j :: 0 <= j < |m.days| ==> m.days[j].dayISO != r.dayISO
    ensures EntryHolds(Entry(k, WithDay(m, r)), bet, adj)
  {
    var days := m.days + [r];
    SumOfAppend(m.days, r, DayTotalOf);
    SumOfAppend(m.days, r, DayBet);
    SumOfAppend(m.days, r, DayAdj);
    forall i, j | 0 <= i < j < |days| ensures DayISO(days[i]) != DayISO(days[j]) {
      assert days[i] == m.days[i];
    }
    forall j | 0 <= j < |days|
      ensures MonthKey(days[j].dayISO) == k && days[j] == DayRow(days[j].dayISO, bet, adj)
    {
      if j < |m.days| { assert days[j] == m.days[j]; }
    }
  }

  /** A day not yet in the map goes into its month, and the map's rows grow by it. */
  lemma AddDayOk(mm: seq<Entry<PLMonth>>, d: string, bet: seq<Entry<real>>, adj: seq<Entry<real>>)
    requires MapHolds(mm, bet, adj)
    requires forall x :: x in MapDays(mm) ==> x.dayISO != d
    ensures MapHolds(AddDay(mm, DayRow(d, bet, adj)), bet, adj)
    ensures multiset(MapDays(AddDay(mm, DayRow(d, bet, adj)))) == multiset(MapDays(mm)) + multiset{DayRow(d, bet, adj)}
  {
    var r := DayRow(d, bet, adj);
    var k := MonthKey(d);
    var m := Get(mm, k).GetOr(EmptyMonth);
    var e := Entry(k, WithDay(m, r));
    var r' := AddDay(mm, r);
    GetSpec(mm, k);
    PutKeys(mm, k, e.value);
    PutPlace(mm, k, e.value);
    if k in Keys(mm) {
      var i := FindBy(mm, KeyOf, k);
      assert mm[i].key == k && m == mm[i].value;
      assert EntryHolds(mm[i], bet, adj);
      forall j | 0 <= j < |m.days| ensures m.days[j].dayISO != d {
        FlatMapMember(mm, EntryDays, m.days[j]);
      }
      WithDayHolds(k, m, r, bet, adj);
      assert r' == mm[i := e];
      forall j | 0 <= j < |r'| ensures EntryHolds(r'[j], bet, adj) {
        if j != i { assert r'[j] == mm[j]; }
      }
      assert multiset(EntryDays(e)) == multiset(EntryDays(mm[i])) + multiset{r};
      FlatMapGrow(mm, i, e, EntryDays, r);
    } else {
      assert m == EmptyMonth;
      WithDayHolds(k, m, r, bet, adj);
      assert r' == mm + [e];
      forall j | 0 <= j < |r'| ensures EntryHolds(r'[j], bet, adj) {
        if j < |mm| { assert r'[j] == mm[j]; }
      }
      FlatMapAppend(mm, e, EntryDays);
    }
  }

  /** A day outside `p` has no row in a map that holds the rows of `p`. */
  lemma FreshDay(mm: seq<Entry<PLMonth>>, p: seq<string>, d: string, bet: seq<Entry<real>>, adj: seq<Entry<real>>)
    requires multiset(MapDays(mm)) == multiset(DayRows(p, bet, adj))
    requires d !in p
    ensures forall x :: x in MapDays(mm) ==> x.dayISO != d
  {
    forall x | x in MapDays(mm) ensures x.dayISO != d {
      assert x in multiset(DayRows(p, bet, adj));
      var k :| 0 <= k < |p| && DayRows(p, bet, adj)[k] == x;
    }
  }

  /** Over a list of distinct days the month map holds, month by month, the
      rows of exactly those days. */
  lemma {:induction false} MonthMapOk(ds: seq<string>, bet: seq<Entry<real>>, adj: seq<Entry<real>>)
    requires NoDup(ds)
    ensures MapHolds(MonthMapOf(ds, bet, adj), bet, adj)
    ensures multiset(MapDays(MonthMapOf(ds, bet, adj))) == multiset(DayRows(ds, bet, adj))
  {
    if ds != [] {
      var p, d := ds[..|ds| - 1], ds[|ds| - 1];
      var mm := MonthMapOf(p, bet, adj);
      assert forall k :: 0 <= k < |p| ==> p[k] == ds[k];
      MonthMapOk(p, bet, adj);
      FreshDay(mm, p, d, bet, adj);
      AddDayOk(mm, d, bet, adj);
      DayRowsSnoc(ds, bet, adj);
    }
  }

  // ----- The result -----

  /** `{ monthStart, ...m, days: m.days.sort((a, b) => (a.dayISO < b.dayISO ? 1 : -1)) }`. */
  function RowOf(e: Entry<PLMonth>): PLRow
  {
    PLRow(e.key, e.value.monthTotal, e.value.monthBet, e.value.monthAdj, SortBy(e.value.days, DayISO, Later))
  }

  function RowsOf(months: seq<Entry<PLMonth>>): seq<PLRow>
  {
    seq(|months|, i requires 0 <= i < |months| => RowOf(months[i]))
  }

  /** What `monthlyPL` returns: the month map's entries sorted by month start,
      newest first, each with its days sorted newest first. */
  function MonthlyPLOf(bet: seq<Entry<real>>, adj: seq<Entry<real>>): seq<PLRow>
  {
    RowsOf(SortBy(MonthMapOf(DayListOf(bet, adj), bet, adj), KeyOf, Later))
  }

  /** `monthlyPL`, from `betProfitByDay` and `adjByDay`. */
  method MonthlyPL(bet: seq<Entry<real>>, adj: seq<Entry<real>>) returns (rows: seq<PLRow>)
    ensures rows == MonthlyPLOf(bet, adj)
  {
    var daySet := DaySet(bet, adj);
    var dayList := SortBy(daySet, Self, Later);
    var monthMap := MonthMap(dayList, bet, adj);
    var months := SortBy(monthMap, KeyOf, Later);
    rows := RowsOf(months);
  }

  function RowDays(r: PLRow): seq<PLDay> { r.days }

  /** Every day row of every month of the result. */
  function AllDays(rows: seq<PLRow>): seq<PLDay> { FlatMap(rows, RowDays) }

  predicate RowHolds(r: PLRow, bet: seq<Entry<real>>, adj: seq<Entry<real>>)
  {
    MonthHolds(r.monthStart, r.days, r.monthTotal, r.monthBet, r.monthAdj, bet, adj)
  }

  predicate DaysDescending(r: PLRow)
  {
    forall j, k :: 0 <= j < k < |r.days| ==> Later(r.days[j].dayISO, r.days[k].dayISO)
  }

  /** Sorting a month's days keeps what it holds and puts them newest first. */
  lemma RowOfOk(e: Entry<PLMonth>, bet: seq<Entry<real>>, adj: seq<Entry<real>>)
    requires EntryHolds(e, bet, adj)
    ensures RowOf(e).monthStart == e.key
    ensures RowHolds(RowOf(e), bet, adj) && DaysDescending(RowOf(e))
    ensures multiset(RowOf(e).days) == multiset(e.value.days)
  {
    var days := e.value.days;
    var ds := SortBy(days, DayISO, Later);
    SortByDistinct(days, DayISO, Later, DayISO);
    SortBySum(days, DayISO, Later, DayTotalOf);
    SortBySum(days, DayISO, Later, DayBet);
    SortBySum(days, DayISO, Later, DayAdj);
    LaterIsStrictTotal();
    SortBySorted(days, DayISO, Later);
    StrictlySorted(ds, DayISO, Later);
    forall j | 0 <= j < |ds| ensures MonthKey(ds[j].dayISO) == e.key && ds[j] == DayRow(ds[j].dayISO, bet, adj) {
      assert ds[j] in multiset(days);
    }
  }

  /** A month's total is its bet profit plus its adjustments. */
  lemma MonthTotalSplits(k: string, days: seq<PLDay>, total: real, betSum: real, adjSum: real,
                         bet: seq<Entry<real>>, adj: seq<Entry<real>>)
    requires MonthHolds(k, days, total, betSum, adjSum, bet, adj)
    ensures total == betSum + adjSum
  {
    forall x | x in days ensures DayBet(x) == DayTotalOf(x) - DayAdj(x) {
      var j :| 0 <= j < |days| && days[j] == x;
    }
    SumOfDifference(days, DayTotalOf, DayAdj, DayBet);
  }

  /** The months of `monthlyPL`: newest first, each holding its bet profit,
      its adjustments and their sum, with its days newest first; their day
      rows together are the rows of the day list. */
  lemma MonthlyPLOk(bet: seq<Entry<real>>, adj: seq<Entry<real>>)
    ensures forall i, j :: 0 <= i < j < |MonthlyPLOf(bet, adj)| ==>
              Later(MonthlyPLOf(bet, adj)[i].monthStart, MonthlyPLOf(bet, adj)[j].monthStart)
    ensures forall i :: 0 <= i < |MonthlyPLOf(bet, adj)| ==>
              RowHolds(MonthlyPLOf(bet, adj)[i], bet, adj) && DaysDescending(MonthlyPLOf(bet, adj)[i])
    ensures multiset(AllDays(MonthlyPLOf(bet, adj))) == multiset(DayRows(DayListOf(bet, adj), bet, adj))
  {
    var ds := DayListOf(bet, adj);
    DayListOk(bet, adj);
    LaterIsStrictTotal();
    assert NoDup(ds);
    var mm := MonthMapOf(ds, bet, adj);
    MonthMapOk(ds, bet, adj);
    var months := SortBy(mm, KeyOf, Later);
    SortByDistinct(mm, KeyOf, Later, KeyOf);
    SortBySorted(mm, KeyOf, Later);
    StrictlySorted(months, KeyOf, Later);
    SortByFlatMap(mm, KeyOf, Later, EntryDays);
    var rows := RowsOf(months);
    forall i | 0 <= i < |rows|
      ensures rows[i].monthStart == months[i].key
      ensures RowHolds(rows[i], bet, adj) && DaysDescending(rows[i])
      ensures multiset(RowDays(rows[i])) == multiset(EntryDays(months[i]))
    {
      assert months[i] in multiset(mm);
      RowOfOk(months[i], bet, adj);
    }
    FlatMapPointwise(rows, RowDays, months, EntryDays);
  }

  /** Rows that are, as a bag, the rows of `ds` are the rows of the days of `ds`. */
  lemma RowsOfDays(all: seq<PLDay>, ds: seq<string>, bet: seq<Entry<real>>, adj: seq<Entry<real>>)
    requires multiset(all) == multiset(DayRows(ds, bet, adj))
    ensures forall x :: x in all <==> x.dayISO in ds && x == DayRow(x.dayISO, bet, adj)
  {
    forall x ensures x in all <==> x.dayISO in ds && x == DayRow(x.dayISO, bet, adj) {
      assert x in all <==> x in multiset(DayRows(ds, bet, adj));
      if x in all {
        var k :| 0 <= k < |ds| && DayRows(ds, bet, adj)[k] == x;
      }
      if x.dayISO in ds && x == DayRow(x.dayISO, bet, adj) {
        var k :| 0 <= k < |ds| && ds[k] == x.dayISO;
        assert DayRows(ds, bet, adj)[k] == x;
      }
    }
  }

  /** The days of `monthlyPL` are exactly the days that either map has, each
      showing that day's bet profit, its adjustments and their sum. */
  lemma MonthlyPLDays(bet: seq<Entry<real>>, adj: seq<Entry<real>>)
    ensures forall x :: x in AllDays(MonthlyPLOf(bet, adj)) <==>
              x.dayISO in Keys(bet) + Keys(adj) && x == DayRow(x.dayISO, bet, adj)
  {
    var ds := DayListOf(bet, adj);
    MonthlyPLOk(bet, adj);
    DayListOk(bet, adj);
    RowsOfDays(AllDays(MonthlyPLOf(bet, adj)), ds, bet, adj);
    assert forall d :: d in ds <==> d in Keys(bet) + Keys(adj);
  }

  /** No day shows up twice in `monthlyPL`. */
  lemma MonthlyPLDaysOnce(bet: seq<Entry<real>>, adj: seq<Entry<real>>)
    ensures forall i, j, i', j' ::
              && 0 <= i < |MonthlyPLOf(bet, adj)| && 0 <= j < |MonthlyPLOf(bet, adj)[i].days|
              && 0 <= i' < |MonthlyPLOf(bet, adj)| && 0 <= j' < |MonthlyPLOf(bet, adj)[i'].days|
              && MonthlyPLOf(bet, adj)[i].days[j].dayISO == MonthlyPLOf(bet, adj)[i'].days[j'].dayISO
              ==> i == i' && j == j'
  {
    var rows := MonthlyPLOf(bet, adj);
    MonthlyPLOk(bet, adj);
    LaterIsStrictTotal();
    forall i, j, i', j' |
      && 0 <= i < |rows| && 0 <= j < |rows[i].days| && 0 <= i' < |rows| && 0 <= j' < |rows[i'].days|
      && rows[i].days[j].dayISO == rows[i'].days[j'].dayISO
      ensures i == i' && j == j'
    {
      assert RowHolds(rows[i], bet, adj) && RowHolds(rows[i'], bet, adj);
      assert rows[i].monthStart == rows[i'].monthStart;
    }
  }

  /** Every month's total in `monthlyPL` is its bet profit plus its adjustments. */
  lemma MonthlyPLTotals(bet: seq<Entry<real>>, adj: seq<Entry<real>>)
    ensures forall i :: 0 <= i < |MonthlyPLOf(bet, adj)| ==>
              MonthlyPLOf(bet, adj)[i].monthTotal == MonthlyPLOf(bet, adj)[i].monthBet + MonthlyPLOf(bet, adj)[i].monthAdj
  {
    var rows := MonthlyPLOf(bet, adj);
    MonthlyPLOk(bet, adj);
    forall i | 0 <= i < |rows| ensures rows[i].monthTotal == rows[i].monthBet + rows[i].monthAdj {
      assert RowHolds(rows[i], bet, adj);
      MonthTotalSplits(rows[i].monthStart, rows[i].days, rows[i].monthTotal, rows[i].monthBet, rows[i].monthAdj, bet, adj);
    }
  }

  // ----- Column totals -----

  /** `m.get(d) ?? 0`, as a column over days. */
  function Lookup(m: seq<Entry<real>>): string -> real
  {
    (d: string) => Get(m, d).GetOr(0.0)
  }

  function Indicator(k: string, v: real): string -> real
  {
    (d: string) => if d == k then v else 0.0
  }

  lemma {:induction false} SumOfIndicator(ds: seq<string>, k: string, v: real)
    requires NoDup(ds)
    ensures SumOf(ds, Indicator(k, v)) == if k in ds then v else 0.0
  {
    if ds != [] {
      var p, d := ds[..|ds| - 1], ds[|ds| - 1];
      assert forall i :: 0 <= i < |p| ==> p[i] == ds[i];
      SumOfIndicator(p, k, v);
      assert ds == p + [d];
    }
  }

  /** The last entry of a map adds its value at its own key and nowhere else. */
  lemma LookupSnoc(m: seq<Entry<real>>)
    requires Valid(m) && m != []
    ensures Valid(m[..|m| - 1])
    ensures forall d :: Lookup(m[..|m| - 1])(d) == Lookup(m)(d) - Indicator(m[|m| - 1].key, m[|m| - 1].value)(d)
  {
    var p, e := m[..|m| - 1], m[|m| - 1];
    assert forall i :: 0 <= i < |p| ==> p[i] == m[i];
    assert e.key !in Keys(p);
    PutPlace(p, e.key, e.value);
    assert Put(p, e.key, e.value) == m;
    forall d ensures Lookup(p)(d) == Lookup(m)(d) - Indicator(e.key, e.value)(d) {
      PutGet(p, e.key, e.value, d);
    }
  }

  /** Looking up, once each, the days of a list that covers a map's keys adds up the map. */
  lemma {:induction false} SumOfLookups(ds: seq<string>, m: seq<Entry<real>>)
    requires NoDup(ds) && Valid(m)
    requires forall k :: k in Keys(m) ==> k in ds
    ensures SumOf(ds, Lookup(m)) == SumOf(m, Val)
  {
    if m != [] {
      var p, e := m[..|m| - 1], m[|m| - 1];
      LookupSnoc(m);
      KeysSnoc(m);
      SumOfLookups(ds, p);
      SumOfDifference(ds, Lookup(m), Indicator(e.key, e.value), Lookup(p));
      SumOfIndicator(ds, e.key, e.value);
    } else {
      SumOfNonNegative(ds, Lookup(m));
    }
  }

  function RowBet(r: PLRow): real { r.monthBet }
  function RowAdj(r: PLRow): real { r.monthAdj }

  /** A column of the months adds up to the map it was looked up in. */
  lemma ColumnAddsUp(rows: seq<PLRow>, ds: seq<string>, bet: seq<Entry<real>>, adj: seq<Entry<real>>,
                     m: seq<Entry<real>>, dayCol: PLDay -> real, rowCol: PLRow -> real)
    requires NoDup(ds) && Valid(m) && forall k :: k in Keys(m) ==> k in ds
    requires multiset(AllDays(rows)) == multiset(DayRows(ds, bet, adj))
    requires forall i :: 0 <= i < |rows| ==> rowCol(rows[i]) == SumOf(rows[i].days, dayCol)
    requires forall i :: 0 <= i < |ds| ==> dayCol(DayRow(ds[i], bet, adj)) == Get(m, ds[i]).GetOr(0.0)
    ensures SumOf(rows, rowCol) == SumOf(m, Val)
  {
    var dr := DayRows(ds, bet, adj);
    SumOfFlatMap(rows, RowDays, dayCol, rowCol);
    SumOfPermutation(AllDays(rows), dr, dayCol);
    SumOfPointwise(dr, dayCol, ds, Lookup(m));
    SumOfLookups(ds, m);
  }

  /** The monthly bet profits of `monthlyPL` add up to all of `betProfitByDay`,
      and the monthly adjustments to all of `adjByDay`. */
  lemma MonthlyPLColumns(bet: seq<Entry<real>>, adj: seq<Entry<real>>)
    requires Valid(bet) && Valid(adj)
    ensures SumOf(MonthlyPLOf(bet, adj), RowBet) == SumOf(bet, Val)
    ensures SumOf(MonthlyPLOf(bet, adj), RowAdj) == SumOf(adj, Val)
  {
    var rows := MonthlyPLOf(bet, adj);
    var ds := DayListOf(bet, adj);
    MonthlyPLOk(bet, adj);
    DayListOk(bet, adj);
    LaterIsStrictTotal();
    assert NoDup(ds);
    assert forall i :: 0 <= i < |rows| ==> RowHolds(rows[i], bet, adj);
    assert forall k :: k in Keys(bet) ==> k in ds;
    assert forall k :: k in Keys(adj) ==> k in ds;
    ColumnAddsUp(rows, ds, bet, adj, bet, DayBet, RowBet);
    ColumnAddsUp(rows, ds, bet, adj, adj, DayAdj, RowAdj);
  }

  /** On the summary page, the monthly bet profits add up to the profit of
      all closed bets, and the monthly adjustments to all regular adjustments. */
  lemma MonthlyPLAddsUp(bets: seq<Bet>, byBet: seq<Entry<seq<BetLeg>>>, adjs: seq<Adjustment>, localDay: string -> string)
    ensures SumOf(MonthlyPLOf(BetProfitByDayOf(bets, byBet), AdjByDayOf(adjs, localDay)), RowBet)
         == SumOf(ClosedOf(bets, byBet), Profit)
    ensures SumOf(MonthlyPLOf(BetProfitByDayOf(bets, byBet), AdjByDayOf(adjs, localDay)), RowAdj)
         == SumOf(RegularAdjustments(adjs), AdjAmount)
  {
    BetProfitByDayGet(bets, byBet, "");
    AdjByDayGet(adjs, localDay, "");
    MonthlyPLColumns(BetProfitByDayOf(bets, byBet), AdjByDayOf(adjs, localDay));
  }
}
