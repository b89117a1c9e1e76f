/** The month/day calendar grouping of the dashboard: dated signed amounts
    are put into month buckets, and inside them into day buckets, each
    bucket carrying the running sum of its amounts; months and days come out
    newest first. `groupMonthDay` in src/app/page.tsx and `closedGrouped` in
    src/app/scommesse/page.tsx are the same loop over different records. */
module Calendar {
  import opened Seqs
  import opened Sorting
  import opened Text

  /** `monthKeyFromDay` / `monthStartFromDay`: `dayISO.slice(0, 7) + "-01"`. */
  function MonthKey(day: string): string
  {
    (if |day| <= 7 then day else day[..7]) + "-01"
  }

  /** Two days share a month key exactly when they share their first seven
      characters ("YYYY-MM"); a month key has the shape "YYYY-MM-01" and is
      its own month key. */
  lemma MonthKeyProperties(a: string, b: string)
    requires |a| >= 7 && |b| >= 7
    ensures MonthKey(a) == MonthKey(b) <==> a[..7] == b[..7]
    ensures |MonthKey(a)| == 10 && MonthKey(a)[..7] == a[..7] && MonthKey(a)[7..] == "-01"
    ensures MonthKey(MonthKey(a)) == MonthKey(a)
  {
    if MonthKey(a) == MonthKey(b) {
      assert a[..7] == MonthKey(a)[..7] && b[..7] == MonthKey(b)[..7];
    }
    assert MonthKey(a)[..7] == a[..7];
  }

  datatype Day<T> = Day(dayISO: string, dayTotal: real, items: seq<T>)
  datatype Month<T> = Month(monthStart: string, monthTotal: real, days: seq<Day<T>>)

  function DayKey<T>(d: Day<T>): string { d.dayISO }
  function DayTotal<T>(d: Day<T>): real { d.dayTotal }
  function DayItems<T>(d: Day<T>): seq<T> { d.items }
  function MonthStart<T>(m: Month<T>): string { m.monthStart }
  function MonthTotal<T>(m: Month<T>): real { m.monthTotal }
  function MonthItems<T>(m: Month<T>): seq<T> { FlatMap(m.days, DayItems) }

  /** Every item of every bucket, month by month and day by day. */
  function AllItems<T>(ms: seq<Month<T>>): seq<T> { FlatMap(ms, MonthItems) }

  /** The sum of the month totals. */
  function GrandTotal<T>(ms: seq<Month<T>>): real { SumOf(ms, MonthTotal) }

  /** A day bucket holds at least one item, only items of its day, and the
      sum of their amounts. */
  predicate DayOk<T>(d: Day<T>, dayOf: T -> string, amountOf: T -> real)
  {
    && d.items != []
    && (forall k :: 0 <= k < |d.items| ==> dayOf(d.items[k]) == d.dayISO)
    && d.dayTotal == SumOf(d.items, amountOf)
  }

  /** The day buckets of month `monthStart`: one per day, each of that month. */
  predicate DaysOk<T>(days: seq<Day<T>>, monthStart: string, dayOf: T -> string, amountOf: T -> real)
  {
    && DistinctBy(days, DayKey)
    && forall j :: 0 <= j < |days| ==> MonthKey(days[j].dayISO) == monthStart && DayOk(days[j], dayOf, amountOf)
  }

  /** A month bucket holds at least one day, and its total is the sum of its day totals. */
  predicate MonthOk<T>(m: Month<T>, dayOf: T -> string, amountOf: T -> real)
  {
    && m.days != []
    && DaysOk(m.days, m.monthStart, dayOf, amountOf)
    && m.monthTotal == SumOf(m.days, DayTotal)
  }

  /** The shape every grouping result has: one bucket per month. */
  predicate Buckets<T>(ms: seq<Month<T>>, dayOf: T -> string, amountOf: T -> real)
  {
    && DistinctBy(ms, MonthStart)
    && forall i :: 0 <= i < |ms| ==> MonthOk(ms[i], dayOf, amountOf)
  }

  /** The days of a month bucket, newest first. */
  predicate DaysNewestFirst<T>(m: Month<T>)
  {
    forall j, k :: 0 <= j < k < |m.days| ==> Later(m.days[j].dayISO, m.days[k].dayISO)
  }

  /** Months newest first, and inside each month days newest first. */
  predicate Descending<T>(ms: seq<Month<T>>)
  {
    && (forall i, j :: 0 <= i < j < |ms| ==> Later(ms[i].monthStart, ms[j].monthStart))
    && forall i :: 0 <= i < |ms| ==> DaysNewestFirst(ms[i])
  }

  /** The day part of one loop iteration: `m.days.get(dayISO)`, created empty
      when missing, is grown by the item. */
  function AddToDays<T>(days: seq<Day<T>>, it: T, dayOf: T -> string, amountOf: T -> real): seq<Day<T>>
  {
    var day := dayOf(it);
    var di := FindBy(days, DayKey, day);
    if di < |days| then days[di := GrownDay(days[di], it, amountOf)]
    else days + [GrownDay(Day(day, 0.0, []), it, amountOf)]
  }

  /** A day bucket that has received `it`: the amount added, the item pushed. */
  function GrownDay<T>(d: Day<T>, it: T, amountOf: T -> real): Day<T>
  {
    Day(d.dayISO, d.dayTotal + amountOf(it), d.items + [it])
  }

  /** One iteration of the grouping loop over `it`: `map.get(monthStart)`,
      created empty when missing, is grown by the item. */
  function AddItem<T>(ms: seq<Month<T>>, it: T, dayOf: T -> string, amountOf: T -> real): seq<Month<T>>
  {
    var monthStart := MonthKey(dayOf(it));
    var mi := FindBy(ms, MonthStart, monthStart);
    if mi < |ms| then ms[mi := Grown(ms[mi], it, dayOf, amountOf)]
    else ms + [Grown(Month(monthStart, 0.0, []), it, dayOf, amountOf)]
  }

  /** A month bucket that has received `it`: the amount added to its total
      and the item to its days. */
  function Grown<T>(m: Month<T>, it: T, dayOf: T -> string, amountOf: T -> real): Month<T>
  {
    Month(m.monthStart, m.monthTotal + amountOf(it), AddToDays(m.days, it, dayOf, amountOf))
  }

  /** The buckets after the loop has run over all of `items`, in the order the
      `Map`s first saw each month and day. */
  function Bucketed<T>(items: seq<T>, dayOf: T -> string, amountOf: T -> real): seq<Month<T>>
  {
    if items == [] then []
    else AddItem(Bucketed(items[..|items| - 1], dayOf, amountOf), items[|items| - 1], dayOf, amountOf)
  }

  /** The loop of `groupMonthDay` (and of `closedGrouped`) that fills the month and day maps. */
  method Bucket<T>(items: seq<T>, dayOf: T -> string, amountOf: T -> real) returns (months: seq<Month<T>>)
    ensures months == Bucketed(items, dayOf, amountOf)
  {
    months := [];
    var i := 0;
    while i < |items|
      invariant 0 <= i <= |items|
      invariant months == Bucketed(items[..i], dayOf, amountOf)
    {
      months := BucketOne(months, items[i], dayOf, amountOf);
      BucketedSnoc(items, i, dayOf, amountOf);
      i := i + 1;
    }
    assert items[..i] == items;
  }

  /** One pass of that loop's body: the month bucket of the item (created
      when missing) gets the amount added to its total, and its day bucket
      (created when missing) gets the amount and the item pushed. */
  method BucketOne<T>(months: seq<Month<T>>, it: T, dayOf: T -> string, amountOf: T -> real)
    returns (r: seq<Month<T>>)
    ensures r == AddItem(months, it, dayOf, amountOf)
  {
    var dayISO := dayOf(it);
    var monthStart := MonthKey(dayISO);
    var amt := amountOf(it);

    var mi := FindBy(months, MonthStart, monthStart);
    var m := if mi < |months| then months[mi] else Month(monthStart, 0.0, []);
    ghost var m0 := m;
    m := m.(monthTotal := m.monthTotal + amt);

    var di := FindBy(m.days, DayKey, dayISO);
    var d := if di < |m.days| then m.days[di] else Day(dayISO, 0.0, []);
    d := d.(dayTotal := d.dayTotal + amt, items := d.items + [it]);
    m := m.(days := if di < |m.days| then m.days[di := d] else m.days + [d]);
    assert m == Grown(m0, it, dayOf, amountOf);

    r := if mi < |months| then months[mi := m] else months + [m];
  }

  lemma BucketedSnoc<T>(items: seq<T>, i: int, dayOf: T -> string, amountOf: T -> real)
    requires 0 <= i < |items|
    ensures Bucketed(items[..i + 1], dayOf, amountOf) == AddItem(Bucketed(items[..i], dayOf, amountOf), items[i], dayOf, amountOf)
  {
    assert items[..i + 1][..i] == items[..i];
  }

  /** A day bucket after one more item of its day. */
  lemma GrownDayOk<T>(d: Day<T>, it: T, dayOf: T -> string, amountOf: T -> real)
    requires d.dayISO == dayOf(it)
    requires d.items == [] ==> d.dayTotal == 0.0
    requires d.items != [] ==> DayOk(d, dayOf, amountOf)
    ensures DayOk(GrownDay(d, it, amountOf), dayOf, amountOf)
  {
    SumOfAppend(d.items, it, amountOf);
  }

  lemma DaysOkUpdate<T>(days: seq<Day<T>>, i: int, d: Day<T>, monthStart: string, dayOf: T -> string, amountOf: T -> real)
    requires DaysOk(days, monthStart, dayOf, amountOf)
    requires 0 <= i < |days| && d.dayISO == days[i].dayISO
    requires DayOk(d, dayOf, amountOf)
    ensures DaysOk(days[i := d], monthStart, dayOf, amountOf)
  {
    var r := days[i := d];
    forall j, k | 0 <= j < k < |r| ensures DayKey(r[j]) != DayKey(r[k]) {
      assert DayKey(r[j]) == DayKey(days[j]) && DayKey(r[k]) == DayKey(days[k]);
    }
  }

  lemma DaysOkAppend<T>(days: seq<Day<T>>, d: Day<T>, monthStart: string, dayOf: T -> string, amountOf: T -> real)
    requires DaysOk(days, monthStart, dayOf, amountOf)
    requires forall j :: 0 <= j < |days| ==> DayKey(days[j]) != d.dayISO
    requires MonthKey(d.dayISO) == monthStart && DayOk(d, dayOf, amountOf)
    ensures DaysOk(days + [d], monthStart, dayOf, amountOf)
  {
    var r := days + [d];
    forall j, k | 0 <= j < k < |r| ensures DayKey(r[j]) != DayKey(r[k]) {
      assert r[j] == days[j];
    }
  }

  lemma AddToDaysOk<T>(days: seq<Day<T>>, monthStart: string, it: T, dayOf: T -> string, amountOf: T -> real)
    requires DaysOk(days, monthStart, dayOf, amountOf)
    requires MonthKey(dayOf(it)) == monthStart
    ensures DaysOk(AddToDays(days, it, dayOf, amountOf), monthStart, dayOf, amountOf)
    ensures AddToDays(days, it, dayOf, amountOf) != []
    ensures SumOf(AddToDays(days, it, dayOf, amountOf), DayTotal) == SumOf(days, DayTotal) + amountOf(it)
    ensures multiset(FlatMap(AddToDays(days, it, dayOf, amountOf), DayItems))
         == multiset(FlatMap(days, DayItems)) + multiset{it}
  {
    var di := FindBy(days, DayKey, dayOf(it));
    if di < |days| {
      var d' := GrownDay(days[di], it, amountOf);
      assert DayOk(days[di], dayOf, amountOf);
      GrownDayOk(days[di], it, dayOf, amountOf);
      DaysOkUpdate(days, di, d', monthStart, dayOf, amountOf);
      SumOfUpdate(days, di, d', DayTotal);
      FlatMapGrow(days, di, d', DayItems, it);
    } else {
      var d' := GrownDay(Day(dayOf(it), 0.0, []), it, amountOf);
      GrownDayOk(Day(dayOf(it), 0.0, []), it, dayOf, amountOf);
      DaysOkAppend(days, d', monthStart, dayOf, amountOf);
      SumOfAppend(days, d', DayTotal);
      FlatMapAppend(days, d', DayItems);
    }
  }


  lemma BucketsUpdate<T>(ms: seq<Month<T>>, i: int, m: Month<T>, dayOf: T -> string, amountOf: T -> real)
    requires Buckets(ms, dayOf, amountOf)
    requires 0 <= i < |ms| && m.monthStart == ms[i].monthStart
    requires MonthOk(m, dayOf, amountOf)
    ensures Buckets(ms[i := m], dayOf, amountOf)
  {
    var r := ms[i := m];
    forall j, k | 0 <= j < k < |r| ensures MonthStart(r[j]) != MonthStart(r[k]) {
      assert MonthStart(r[j]) == MonthStart(ms[j]) && MonthStart(r[k]) == MonthStart(ms[k]);
    }
  }

  lemma BucketsAppend<T>(ms: seq<Month<T>>, m: Month<T>, dayOf: T -> string, amountOf: T -> real)
    requires Buckets(ms, dayOf, amountOf)
    requires forall j :: 0 <= j < |ms| ==> MonthStart(ms[j]) != m.monthStart
    requires MonthOk(m, dayOf, amountOf)
    ensures Buckets(ms + [m], dayOf, amountOf)
  {
    var r := ms + [m];
    forall j, k | 0 <= j < k < |r| ensures MonthStart(r[j]) != MonthStart(r[k]) {
      assert r[j] == ms[j];
    }
  }

  /** A month bucket after one more item of its month. */
  lemma GrownMonthOk<T>(m: Month<T>, it: T, dayOf: T -> string, amountOf: T -> real)
    requires m.monthStart == MonthKey(dayOf(it))
    requires m.days == [] ==> m.monthTotal == 0.0
    requires m.days != [] ==> MonthOk(m, dayOf, amountOf)
    ensures MonthOk(Grown(m, it, dayOf, amountOf), dayOf, amountOf)
    ensures multiset(MonthItems(Grown(m, it, dayOf, amountOf))) == multiset(MonthItems(m)) + multiset{it}
  {
    AddToDaysOk(m.days, m.monthStart, it, dayOf, amountOf);
  }

  lemma AddToExistingMonthOk<T>(ms: seq<Month<T>>, mi: int, it: T, dayOf: T -> string, amountOf: T -> real)
    requires Buckets(ms, dayOf, amountOf)
    requires 0 <= mi < |ms| && ms[mi].monthStart == MonthKey(dayOf(it))
    ensures Buckets(ms[mi := Grown(ms[mi], it, dayOf, amountOf)], dayOf, amountOf)
    ensures GrandTotal(ms[mi := Grown(ms[mi], it, dayOf, amountOf)]) == GrandTotal(ms) + amountOf(it)
    ensures multiset(AllItems(ms[mi := Grown(ms[mi], it, dayOf, amountOf)])) == multiset(AllItems(ms)) + multiset{it}
  {
    var m := ms[mi];
    var m' := Grown(m, it, dayOf, amountOf);
    assert MonthOk(m, dayOf, amountOf);
    GrownMonthOk(m, it, dayOf, amountOf);
    BucketsUpdate(ms, mi, m', dayOf, amountOf);
    SumOfUpdate(ms, mi, m', MonthTotal);
    FlatMapGrow(ms, mi, m', MonthItems, it);
  }

  lemma AddNewMonthOk<T>(ms: seq<Month<T>>, it: T, dayOf: T -> string, amountOf: T -> real)
    requires Buckets(ms, dayOf, amountOf)
    requires forall j :: 0 <= j < |ms| ==> MonthStart(ms[j]) != MonthKey(dayOf(it))
    ensures Buckets(ms + [Grown(Month(MonthKey(dayOf(it)), 0.0, []), it, dayOf, amountOf)], dayOf, amountOf)
    ensures GrandTotal(ms + [Grown(Month(MonthKey(dayOf(it)), 0.0, []), it, dayOf, amountOf)]) == GrandTotal(ms) + amountOf(it)
    ensures multiset(AllItems(ms + [Grown(Month(MonthKey(dayOf(it)), 0.0, []), it, dayOf, amountOf)]))
         == multiset(AllItems(ms)) + multiset{it}
  {
    var m := Month(MonthKey(dayOf(it)), 0.0, []);
    var m' := Grown(m, it, dayOf, amountOf);
    GrownMonthOk(m, it, dayOf, amountOf);
    assert multiset(MonthItems(m)) == multiset{};
    BucketsAppend(ms, m', dayOf, amountOf);
    SumOfAppend(ms, m', MonthTotal);
    FlatMapAppend(ms, m', MonthItems);
  }

  lemma AddItemOk<T>(ms: seq<Month<T>>, it: T, dayOf: T -> string, amountOf: T -> real)
    requires Buckets(ms, dayOf, amountOf)
    ensures Buckets(AddItem(ms, it, dayOf, amountOf), dayOf, amountOf)
    ensures GrandTotal(AddItem(ms, it, dayOf, amountOf)) == GrandTotal(ms) + amountOf(it)
    ensures multiset(AllItems(AddItem(ms, it, dayOf, amountOf))) == multiset(AllItems(ms)) + multiset{it}
  {
    var mi := FindBy(ms, MonthStart, MonthKey(dayOf(it)));
    if mi < |ms| {
      AddToExistingMonthOk(ms, mi, it, dayOf, amountOf);
    } else {
      AddNewMonthOk(ms, it, dayOf, amountOf);
    }
  }


  /** The loop's buckets partition its input: they are well formed, they hold
      exactly the input items, and their totals add up to the input's sum. */
  lemma {:induction false} BucketedOk<T>(items: seq<T>, dayOf: T -> string, amountOf: T -> real)
    ensures Buckets(Bucketed(items, dayOf, amountOf), dayOf, amountOf)
    ensures multiset(AllItems(Bucketed(items, dayOf, amountOf))) == multiset(items)
    ensures GrandTotal(Bucketed(items, dayOf, amountOf)) == SumOf(items, amountOf)
  {
    if items != [] {
      var p, x := items[..|items| - 1], items[|items| - 1];
      var ms := Bucketed(p, dayOf, amountOf);
      assert Bucketed(items, dayOf, amountOf) == AddItem(ms, x, dayOf, amountOf);
      assert SumOf(items, amountOf) == SumOf(p, amountOf) + amountOf(x);
      BucketedOk(p, dayOf, amountOf);
      AddItemOk(ms, x, dayOf, amountOf);
      MultisetSnoc(items);
    }
  }

  /** `Array.from(payload.days.entries()).sort((a, b) => (a[0] < b[0] ? 1 : -1))`. */
  function SortDays<T>(m: Month<T>): Month<T>
  {
    m.(days := SortBy(m.days, DayKey, Later))
  }

  /** Every month with its days sorted newest first. */
  function DaysSorted<T>(ms: seq<Month<T>>): seq<Month<T>>
  {
    seq(|ms|, i requires 0 <= i < |ms| => SortDays(ms[i]))
  }

  /** Months sorted newest first, each with its days sorted newest first:
      the shape `closedGrouped` returns. */
  function Arranged<T>(ms: seq<Month<T>>): seq<Month<T>>
  {
    SortBy(DaysSorted(ms), MonthStart, Later)
  }

  lemma SortDaysOk<T>(m: Month<T>, dayOf: T -> string, amountOf: T -> real)
    requires MonthOk(m, dayOf, amountOf)
    ensures SortDays(m).monthStart == m.monthStart && SortDays(m).monthTotal == m.monthTotal
    ensures MonthOk(SortDays(m), dayOf, amountOf)
    ensures multiset(MonthItems(SortDays(m))) == multiset(MonthItems(m))
    ensures DaysNewestFirst(SortDays(m))
  {
    var ds := SortBy(m.days, DayKey, Later);
    SortByDistinct(m.days, DayKey, Later, DayKey);
    SortBySum(m.days, DayKey, Later, DayTotal);
    SortByFlatMap(m.days, DayKey, Later, DayItems);
    LaterIsStrictTotal();
    SortBySorted(m.days, DayKey, Later);
    StrictlySorted(ds, DayKey, Later);
    forall j | 0 <= j < |ds| ensures MonthKey(ds[j].dayISO) == m.monthStart && DayOk(ds[j], dayOf, amountOf) {
      assert ds[j] in multiset(m.days);
    }
  }

  lemma DaysSortedOk<T>(ms: seq<Month<T>>, dayOf: T -> string, amountOf: T -> real)
    requires Buckets(ms, dayOf, amountOf)
    ensures Buckets(DaysSorted(ms), dayOf, amountOf)
    ensures forall i :: 0 <= i < |DaysSorted(ms)| ==> DaysNewestFirst(DaysSorted(ms)[i])
    ensures multiset(AllItems(DaysSorted(ms))) == multiset(AllItems(ms))
    ensures GrandTotal(DaysSorted(ms)) == GrandTotal(ms)
  {
    var ms1 := DaysSorted(ms);
    forall i | 0 <= i < |ms|
      ensures ms1[i].monthStart == ms[i].monthStart && ms1[i].monthTotal == ms[i].monthTotal
      ensures MonthOk(ms1[i], dayOf, amountOf)
      ensures multiset(MonthItems(ms1[i])) == multiset(MonthItems(ms[i]))
      ensures DaysNewestFirst(ms1[i])
    {
      SortDaysOk(ms[i], dayOf, amountOf);
    }
    assert DistinctBy(ms1, MonthStart) by {
      forall i, j | 0 <= i < j < |ms1| ensures MonthStart(ms1[i]) != MonthStart(ms1[j]) {
        assert MonthStart(ms1[i]) == MonthStart(ms[i]) && MonthStart(ms1[j]) == MonthStart(ms[j]);
      }
    }
    FlatMapPointwise(ms1, MonthItems, ms, MonthItems);
    SumOfPointwise(ms1, MonthTotal, ms, MonthTotal);
  }

  /** Sorting months and days keeps the buckets intact and puts them newest first. */
  lemma ArrangedOk<T>(ms: seq<Month<T>>, dayOf: T -> string, amountOf: T -> real)
    requires Buckets(ms, dayOf, amountOf)
    ensures Buckets(Arranged(ms), dayOf, amountOf)
    ensures Descending(Arranged(ms))
    ensures multiset(AllItems(Arranged(ms))) == multiset(AllItems(ms))
    ensures GrandTotal(Arranged(ms)) == GrandTotal(ms)
  {
    var ms1 := DaysSorted(ms);
    DaysSortedOk(ms, dayOf, amountOf);
    var ms2 := SortBy(ms1, MonthStart, Later);
    SortByDistinct(ms1, MonthStart, Later, MonthStart);
    SortBySum(ms1, MonthStart, Later, MonthTotal);
    SortByFlatMap(ms1, MonthStart, Later, MonthItems);
    LaterIsStrictTotal();
    SortBySorted(ms1, MonthStart, Later);
    StrictlySorted(ms2, MonthStart, Later);
    MonthsPermuted(ms1, ms2, dayOf, amountOf);
  }

  /** A reordering of well-formed months with sorted days has the same. */
  lemma MonthsPermuted<T>(ms1: seq<Month<T>>, ms2: seq<Month<T>>, dayOf: T -> string, amountOf: T -> real)
    requires multiset(ms1) == multiset(ms2)
    requires forall i :: 0 <= i < |ms1| ==> MonthOk(ms1[i], dayOf, amountOf) && DaysNewestFirst(ms1[i])
    ensures forall i :: 0 <= i < |ms2| ==> MonthOk(ms2[i], dayOf, amountOf) && DaysNewestFirst(ms2[i])
  {
    forall i | 0 <= i < |ms2| ensures MonthOk(ms2[i], dayOf, amountOf) && DaysNewestFirst(ms2[i]) {
      assert ms2[i] in multiset(ms1);
      var k :| 0 <= k < |ms1| && ms1[k] == ms2[i];
    }
  }

  /** Every item sits in the bucket of its own day, under the month of that
      day, and no day or month has two buckets. */
  lemma BucketOfItem<T>(ms: seq<Month<T>>, dayOf: T -> string, amountOf: T -> real, x: T)
    requires Buckets(ms, dayOf, amountOf)
    requires x in AllItems(ms)
    ensures exists i, j :: 0 <= i < |ms| && 0 <= j < |ms[i].days| && x in ms[i].days[j].items
    ensures forall i, j :: 0 <= i < |ms| && 0 <= j < |ms[i].days| && x in ms[i].days[j].items ==>
              ms[i].days[j].dayISO == dayOf(x) && ms[i].monthStart == MonthKey(dayOf(x))
    ensures forall i, j, i', j' ::
              (0 <= i < |ms| && 0 <= j < |ms[i].days| && x in ms[i].days[j].items &&
               0 <= i' < |ms| && 0 <= j' < |ms[i'].days| && x in ms[i'].days[j'].items) ==> i == i' && j == j'
  {
    FlatMapMember(ms, MonthItems, x);
    var i :| 0 <= i < |ms| && x in MonthItems(ms[i]);
    FlatMapMember(ms[i].days, DayItems, x);
    var j :| 0 <= j < |ms[i].days| && x in ms[i].days[j].items;
    forall i, j | 0 <= i < |ms| && 0 <= j < |ms[i].days| && x in ms[i].days[j].items
      ensures ms[i].days[j].dayISO == dayOf(x) && ms[i].monthStart == MonthKey(dayOf(x))
    {
      assert DayOk(ms[i].days[j], dayOf, amountOf);
    }
  }

  /** `d.items.sort((x, y) => time(y) - time(x))`: latest item first. */
  function SortItems<T>(d: Day<T>, timeOf: T -> int): Day<T>
  {
    d.(items := SortBy(d.items, timeOf, After))
  }

  /** `a` is a later timestamp than `b`. */
  predicate After(a: int, b: int) { a > b }

  function SortItemsOfMonth<T>(m: Month<T>, timeOf: T -> int): Month<T>
  {
    m.(days := seq(|m.days|, j requires 0 <= j < |m.days| => SortItems(m.days[j], timeOf)))
  }

  /** The buckets with the items of every day sorted latest first. */
  function WithItemsByTime<T>(ms: seq<Month<T>>, timeOf: T -> int): seq<Month<T>>
  {
    seq(|ms|, i requires 0 <= i < |ms| => SortItemsOfMonth(ms[i], timeOf))
  }

  lemma SortItemsOfMonthOk<T>(m: Month<T>, dayOf: T -> string, amountOf: T -> real, timeOf: T -> int)
    requires MonthOk(m, dayOf, amountOf)
    ensures MonthOk(SortItemsOfMonth(m, timeOf), dayOf, amountOf)
    ensures multiset(MonthItems(SortItemsOfMonth(m, timeOf))) == multiset(MonthItems(m))
    ensures forall j, a, b :: 0 <= j < |m.days| && 0 <= a < b < |SortItemsOfMonth(m, timeOf).days[j].items| ==>
              timeOf(SortItemsOfMonth(m, timeOf).days[j].items[a]) >= timeOf(SortItemsOfMonth(m, timeOf).days[j].items[b])
  {
    var m' := SortItemsOfMonth(m, timeOf);
    assert StrictOrder(After);
    forall j | 0 <= j < |m.days|
      ensures DayOk(m'.days[j], dayOf, amountOf)
      ensures multiset(DayItems(m'.days[j])) == multiset(DayItems(m.days[j]))
      ensures forall a, b :: 0 <= a < b < |m'.days[j].items| ==> timeOf(m'.days[j].items[a]) >= timeOf(m'.days[j].items[b])
    {
      var d := m.days[j];
      SortBySum(d.items, timeOf, After, amountOf);
      SortBySorted(d.items, timeOf, After);
      var s := SortBy(d.items, timeOf, After);
      forall k | 0 <= k < |s| ensures dayOf(s[k]) == d.dayISO {
        assert s[k] in multiset(d.items);
      }
    }
    assert DistinctBy(m'.days, DayKey);
    SumOfPointwise(m'.days, DayTotal, m.days, DayTotal);
    FlatMapPointwise(m'.days, DayItems, m.days, DayItems);
  }

  /** Sorting items touches no key: months and days keep their keys and places. */
  lemma WithItemsByTimeKeys<T>(ms: seq<Month<T>>, timeOf: T -> int)
    ensures |WithItemsByTime(ms, timeOf)| == |ms|
    ensures forall i :: 0 <= i < |ms| ==>
              && WithItemsByTime(ms, timeOf)[i].monthStart == ms[i].monthStart
              && |WithItemsByTime(ms, timeOf)[i].days| == |ms[i].days|
              && forall j :: 0 <= j < |ms[i].days| ==> WithItemsByTime(ms, timeOf)[i].days[j].dayISO == ms[i].days[j].dayISO
  {
  }

  lemma WithItemsByTimeDescending<T>(ms: seq<Month<T>>, timeOf: T -> int)
    requires Descending(ms)
    ensures Descending(WithItemsByTime(ms, timeOf))
  {
    var ms' := WithItemsByTime(ms, timeOf);
    WithItemsByTimeKeys(ms, timeOf);
    forall i, j | 0 <= i < j < |ms'| ensures Later(ms'[i].monthStart, ms'[j].monthStart) {
      assert Later(ms[i].monthStart, ms[j].monthStart);
    }
    forall i | 0 <= i < |ms'| ensures DaysNewestFirst(ms'[i]) {
      assert DaysNewestFirst(ms[i]);
      forall j, k | 0 <= j < k < |ms'[i].days| ensures Later(ms'[i].days[j].dayISO, ms'[i].days[k].dayISO) {
        assert Later(ms[i].days[j].dayISO, ms[i].days[k].dayISO);
      }
    }
  }

  /** Sorting the items of each day keeps the buckets, their order and their
      totals, and puts the items of every day latest first. */
  lemma WithItemsByTimeOk<T>(ms: seq<Month<T>>, dayOf: T -> string, amountOf: T -> real, timeOf: T -> int)
    requires Buckets(ms, dayOf, amountOf)
    requires Descending(ms)
    ensures Buckets(WithItemsByTime(ms, timeOf), dayOf, amountOf)
    ensures Descending(WithItemsByTime(ms, timeOf))
    ensures multiset(AllItems(WithItemsByTime(ms, timeOf))) == multiset(AllItems(ms))
    ensures GrandTotal(WithItemsByTime(ms, timeOf)) == GrandTotal(ms)
    ensures ItemsLatestFirst(WithItemsByTime(ms, timeOf), timeOf)
  {
    var ms' := WithItemsByTime(ms, timeOf);
    WithItemsByTimeDescending(ms, timeOf);
    forall i | 0 <= i < |ms|
      ensures MonthOk(ms'[i], dayOf, amountOf)
      ensures multiset(MonthItems(ms'[i])) == multiset(MonthItems(ms[i]))
      ensures forall j, a, b :: 0 <= j < |ms'[i].days| && 0 <= a < b < |ms'[i].days[j].items| ==>
                timeOf(ms'[i].days[j].items[a]) >= timeOf(ms'[i].days[j].items[b])
    {
      assert ms'[i] == SortItemsOfMonth(ms[i], timeOf);
      assert MonthOk(ms[i], dayOf, amountOf);
      SortItemsOfMonthOk(ms[i], dayOf, amountOf, timeOf);
    }
    assert DistinctBy(ms', MonthStart) by {
      forall i, j | 0 <= i < j < |ms'| ensures MonthStart(ms'[i]) != MonthStart(ms'[j]) {
        assert ms'[i].monthStart == ms[i].monthStart && ms'[j].monthStart == ms[j].monthStart;
      }
    }
    FlatMapPointwise(ms', MonthItems, ms, MonthItems);
    SumOfPointwise(ms', MonthTotal, ms, MonthTotal);
  }

  /** Inside every day, items have non-increasing timestamps. */
  predicate ItemsLatestFirst<T>(ms: seq<Month<T>>, timeOf: T -> int)
  {
    forall i, j, a, b :: 0 <= i < |ms| && 0 <= j < |ms[i].days| && 0 <= a < b < |ms[i].days[j].items| ==>
      timeOf(ms[i].days[j].items[a]) >= timeOf(ms[i].days[j].items[b])
  }

  /** `groupMonthDay(items, getISODateTime, getSignedAmount)`: the calendar
      of `items`, months and days newest first, items of a day latest first.
      `dayOf` is the local calendar day of an item and `timeOf` its instant. */
  method GroupMonthDay<T>(items: seq<T>, dayOf: T -> string, amountOf: T -> real, timeOf: T -> int)
    returns (months: seq<Month<T>>)
    ensures months == WithItemsByTime(Arranged(Bucketed(items, dayOf, amountOf)), timeOf)
    ensures Buckets(months, dayOf, amountOf)
    ensures Descending(months)
    ensures ItemsLatestFirst(months, timeOf)
    ensures multiset(AllItems(months)) == multiset(items)
    ensures GrandTotal(months) == SumOf(items, amountOf)
  {
    var buckets := Bucket(items, dayOf, amountOf);
    BucketedOk(items, dayOf, amountOf);
    ArrangedOk(buckets, dayOf, amountOf);
    WithItemsByTimeOk(Arranged(buckets), dayOf, amountOf, timeOf);
    months := WithItemsByTime(Arranged(buckets), timeOf);
  }
}
