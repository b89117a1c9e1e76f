/** The partner equity of the summary page (src/app/riepilogo/page.tsx):
    cash paid in and units minted per partner, their totals, and the table
    that splits the current capital between the partners pro quota. */
module Equity {
  import opened Common
  import opened Seqs
  import opened Sorting
  import opened OrderedMap
  import opened Keyed
  import opened Tally

  datatype Partner = Partner(id: string, name: string)

  datatype EquityEvent = EquityEvent(
    id: string, createdAt: string, partnerId: string, cashIn: real, unitsMinted: real, note: Option<string>)

  function PartnerOf(ev: EquityEvent): string { ev.partnerId }
  function CashIn(ev: EquityEvent): real { ev.cashIn }
  function Units(ev: EquityEvent): real { ev.unitsMinted }

  /** `partners.map((p) => p.id)`. */
  function PartnerIds(partners: seq<Partner>): (r: seq<string>)
    ensures |r| == |partners| && forall i :: 0 <= i < |partners| ==> r[i] == partners[i].id
  {
    if partners == [] then [] else PartnerIds(partners[..|partners| - 1]) + [partners[|partners| - 1].id]
  }

  // ----- Sums per partner -----

  /** The map `byPartner` builds; `first` is `cashIn` and `second` is `units`. */
  function ByPartnerOf(partners: seq<Partner>, events: seq<EquityEvent>): seq<Entry<Pair>>
  {
    Tallied(Zeroed(PartnerIds(partners)), events, PartnerOf, CashIn, Units)
  }

  /** `byPartner`: every partner starts at zero, then every event adds its
      cash and units to its partner. */
  method ByPartner(partners: seq<Partner>, events: seq<EquityEvent>) returns (m: seq<Entry<Pair>>)
    ensures m == ByPartnerOf(partners, events)
  {
    m := TallyByKey(PartnerIds(partners), events, PartnerOf, CashIn, Units);
  }

  /** One entry per partner and per partner an event names, holding the sums
      of that partner's events; the entries add up to all events. */
  lemma ByPartnerOk(partners: seq<Partner>, events: seq<EquityEvent>)
    ensures Valid(ByPartnerOf(partners, events))
    ensures Keys(ByPartnerOf(partners, events)) == (set k | k in PartnerIds(partners)) + RowKeys(events, PartnerOf)
    ensures forall k :: k in Keys(ByPartnerOf(partners, events)) ==>
              Get(ByPartnerOf(partners, events), k)
              == Some(Pair(SumWhere(events, PartnerOf, k, CashIn), SumWhere(events, PartnerOf, k, Units)))
    ensures SumOf(ByPartnerOf(partners, events), First) == SumOf(events, CashIn)
    ensures SumOf(ByPartnerOf(partners, events), Second) == SumOf(events, Units)
  {
    TallyOk(PartnerIds(partners), events, PartnerOf, CashIn, Units);
  }

  /** `totalUnits`: a loop over the values of `byPartner`. */
  method TotalUnits(byPartner: seq<Entry<Pair>>) returns (s: real)
    ensures s == SumOf(byPartner, Second)
  {
    s := 0.0;
    for i := 0 to |byPartner|
      invariant s == SumOf(byPartner[..i], Second)
    {
      s := s + byPartner[i].value.second;
      assert byPartner[..i + 1][..i] == byPartner[..i];
    }
    assert byPartner[..|byPartner|] == byPartner;
  }

  /** `totalCashIn`: a loop over the values of `byPartner`. */
  method TotalCashIn(byPartner: seq<Entry<Pair>>) returns (s: real)
    ensures s == SumOf(byPartner, First)
  {
    s := 0.0;
    for i := 0 to |byPartner|
      invariant s == SumOf(byPartner[..i], First)
    {
      s := s + byPartner[i].value.first;
      assert byPartner[..i + 1][..i] == byPartner[..i];
    }
    assert byPartner[..|byPartner|] == byPartner;
  }

  // ----- The pro-quota table -----

  datatype TableRow = TableRow(
    id: string, name: string, cashIn: real, quota: real, capitalProQuota: real, gainProQuota: real)

  function RowId(r: TableRow): string { r.id }
  function Quota(r: TableRow): real { r.quota }
  function RowCashIn(r: TableRow): real { r.cashIn }
  function CapitalProQuota(r: TableRow): real { r.capitalProQuota }
  function GainProQuota(r: TableRow): real { r.gainProQuota }

  /** A partner's share of the units; no share at all while no units exist. */
  function QuotaOf(units: real, totalUnits: real): real
  {
    if totalUnits > 0.0 then units / totalUnits else 0.0
  }

  /** A row is built as `RowOf` builds it: its capital is its share of the
      capital, and its gain that capital less its cash. */
  predicate RowConsistent(r: TableRow, capital: real)
  {
    r.capitalProQuota == capital * r.quota && r.gainProQuota == r.capitalProQuota - r.cashIn
  }

  /** The row of one partner. */
  function RowOf(p: Partner, byPartner: seq<Entry<Pair>>, totalUnits: real, capital: real): TableRow
  {
    var v := Get(byPartner, p.id).GetOr(Zero);
    var quota := QuotaOf(v.second, totalUnits);
    TableRow(p.id, p.name, v.first, quota, capital * quota, capital * quota - v.first)
  }

  /** `partners.map(...)`. */
  function Rows(partners: seq<Partner>, byPartner: seq<Entry<Pair>>, totalUnits: real, capital: real): (r: seq<TableRow>)
    ensures |r| == |partners|
    ensures forall i :: 0 <= i < |partners| ==> r[i] == RowOf(partners[i], byPartner, totalUnits, capital)
  {
    if partners == [] then []
    else Rows(partners[..|partners| - 1], byPartner, totalUnits, capital) + [RowOf(partners[|partners| - 1], byPartner, totalUnits, capital)]
  }

  /** `(a, b) => b.quota - a.quota`: the larger share first. */
  predicate Larger(a: real, b: real) { a > b }

  /** `table`. */
  function Table(partners: seq<Partner>, byPartner: seq<Entry<Pair>>, totalUnits: real, capital: real): seq<TableRow>
  {
    SortBy(Rows(partners, byPartner, totalUnits, capital), Quota, Larger)
  }

  /** The table has one row per partner, the largest share first. */
  lemma TableShape(partners: seq<Partner>, byPartner: seq<Entry<Pair>>, totalUnits: real, capital: real)
    ensures |Table(partners, byPartner, totalUnits, capital)| == |partners|
    ensures multiset(Table(partners, byPartner, totalUnits, capital)) == multiset(Rows(partners, byPartner, totalUnits, capital))
    ensures forall i :: 0 <= i < |partners| ==>
              RowOf(partners[i], byPartner, totalUnits, capital) in Table(partners, byPartner, totalUnits, capital)
    ensures forall i, j :: 0 <= i < j < |partners| ==>
              Table(partners, byPartner, totalUnits, capital)[i].quota >= Table(partners, byPartner, totalUnits, capital)[j].quota
  {
    var rows := Rows(partners, byPartner, totalUnits, capital);
    var t := Table(partners, byPartner, totalUnits, capital);
    assert StrictOrder(Larger);
    SortBySorted(rows, Quota, Larger);
    assert |t| == |rows| == |partners|;
    forall i, j | 0 <= i < j < |partners| ensures t[i].quota >= t[j].quota {
      assert !Larger(Quota(t[j]), Quota(t[i]));
    }
    forall i | 0 <= i < |partners| ensures RowOf(partners[i], byPartner, totalUnits, capital) in t {
      assert rows[i] in multiset(rows);
    }
  }

  /** A share times all units gives back the units it is the share of, and
      taking the share is scaling by one over all units. */
  lemma QuotaOfTotal(units: real, totalUnits: real)
    ensures totalUnits > 0.0 ==> QuotaOf(units, totalUnits) * totalUnits == units
    ensures totalUnits <= 0.0 ==> QuotaOf(units, totalUnits) == 0.0
  {
  }

  /** The entry of a listed partner in `byPartner` sums that partner's events. */
  lemma ByPartnerGet(partners: seq<Partner>, events: seq<EquityEvent>, i: int)
    requires 0 <= i < |partners|
    ensures Get(ByPartnerOf(partners, events), partners[i].id)
         == Some(Pair(SumWhere(events, PartnerOf, partners[i].id, CashIn), SumWhere(events, PartnerOf, partners[i].id, Units)))
  {
    ByPartnerOk(partners, events);
    assert PartnerIds(partners)[i] == partners[i].id;
    assert partners[i].id in Keys(ByPartnerOf(partners, events));
  }

  /** The row of a partner whose entry holds `cash` and `units`. */
  lemma RowOfEntry(p: Partner, bp: seq<Entry<Pair>>, total: real, capital: real, cash: real, units: real)
    requires Get(bp, p.id) == Some(Pair(cash, units))
    ensures RowOf(p, bp, total, capital).id == p.id && RowOf(p, bp, total, capital).name == p.name
    ensures RowOf(p, bp, total, capital).cashIn == cash
    ensures RowOf(p, bp, total, capital).quota == QuotaOf(units, total)
    ensures RowConsistent(RowOf(p, bp, total, capital), capital)
  {
  }

  /** Each row of the table from `byPartner`: the partner's cash, the
      partner's share of all units minted, that share of the capital, and
      that share less the cash as the gain; no shares while no units exist. */
  lemma RowOfEvents(partners: seq<Partner>, events: seq<EquityEvent>, capital: real, i: int)
    requires 0 <= i < |partners|
    ensures var r := RowOf(partners[i], ByPartnerOf(partners, events), SumOf(events, Units), capital);
      && r.id == partners[i].id && r.name == partners[i].name
      && r.cashIn == SumWhere(events, PartnerOf, partners[i].id, CashIn)
      && (SumOf(events, Units) > 0.0 ==> r.quota * SumOf(events, Units) == SumWhere(events, PartnerOf, partners[i].id, Units))
      && (SumOf(events, Units) <= 0.0 ==> r.quota == 0.0 && r.capitalProQuota == 0.0)
      && RowConsistent(r, capital)
  {
    var bp, total := ByPartnerOf(partners, events), SumOf(events, Units);
    var cash, units := SumWhere(events, PartnerOf, partners[i].id, CashIn), SumWhere(events, PartnerOf, partners[i].id, Units);
    ByPartnerGet(partners, events, i);
    RowOfEntry(partners[i], bp, total, capital, cash, units);
    QuotaOfTotal(units, total);
    if total <= 0.0 {
      CapitalOfNoShare(RowOf(partners[i], bp, total, capital), capital);
    }
  }

  lemma CapitalOfNoShare(r: TableRow, capital: real)
    requires RowConsistent(r, capital) && r.quota == 0.0
    ensures r.capitalProQuota == 0.0
  {
  }

  /** The sum of `f` over the events of a partner, as a function of the partner. */
  function PartnerSum(events: seq<EquityEvent>, f: EquityEvent -> real): Partner -> real
  {
    (p: Partner) => SumWhere(events, PartnerOf, p.id, f)
  }

  /** Summing per partner is summing per partner id. */
  lemma {:induction false} PartnerSumOverKeys(partners: seq<Partner>, events: seq<EquityEvent>, f: EquityEvent -> real)
    ensures SumOf(partners, PartnerSum(events, f)) == SumOverKeys(PartnerIds(partners), events, PartnerOf, f)
  {
    if partners != [] {
      var p := partners[..|partners| - 1];
      PartnerSumOverKeys(p, events, f);
      var ids := PartnerIds(partners);
      assert ids[..|ids| - 1] == PartnerIds(p);
    }
  }

  /** Each partner's share of `total` units, as a function of the partner. */
  function PartnerShare(events: seq<EquityEvent>, total: real): Partner -> real
  {
    (p: Partner) => QuotaOf(SumWhere(events, PartnerOf, p.id, Units), total)
  }

  /** Over the rows of partners whose entries in `bp` sum their events: the
      shares add up to the units the partners minted over all units, and
      the cash to what they paid in. */
  lemma RowsSums(partners: seq<Partner>, events: seq<EquityEvent>, bp: seq<Entry<Pair>>, total: real, capital: real)
    requires total > 0.0
    requires forall i :: 0 <= i < |partners| ==>
               Get(bp, partners[i].id) == Some(Pair(PartnerSum(events, CashIn)(partners[i]), PartnerSum(events, Units)(partners[i])))
    ensures SumOf(Rows(partners, bp, total, capital), Quota) == SumOf(partners, PartnerSum(events, Units)) / total
    ensures SumOf(Rows(partners, bp, total, capital), RowCashIn) == SumOf(partners, PartnerSum(events, CashIn))
  {
    var rows := Rows(partners, bp, total, capital);
    var cash, units, share := PartnerSum(events, CashIn), PartnerSum(events, Units), PartnerShare(events, total);
    forall i | 0 <= i < |partners|
      ensures RowCashIn(rows[i]) == cash(partners[i]) && Quota(rows[i]) == share(partners[i])
    {
      RowOfEntry(partners[i], bp, total, capital, cash(partners[i]), units(partners[i]));
    }
    SumOfPointwise(rows, RowCashIn, partners, cash);
    SumOfPointwise(rows, Quota, partners, share);
    SumOfDivided(partners, units, share, total);
  }

  /** The shares of the rows add up to 1 and their cash to all cash paid in,
      when every event belongs to a listed partner, each listed once, and
      units exist. */
  lemma {:induction false} RowsSplit(partners: seq<Partner>, events: seq<EquityEvent>, capital: real)
    requires NoDup(PartnerIds(partners))
    requires forall i :: 0 <= i < |events| ==> events[i].partnerId in PartnerIds(partners)
    requires SumOf(events, Units) > 0.0
    ensures SumOf(Rows(partners, ByPartnerOf(partners, events), SumOf(events, Units), capital), Quota) == 1.0
    ensures SumOf(Rows(partners, ByPartnerOf(partners, events), SumOf(events, Units), capital), RowCashIn)
         == SumOf(events, CashIn)
  {
    var bp := ByPartnerOf(partners, events);
    var total := SumOf(events, Units);
    forall i | 0 <= i < |partners|
      ensures Get(bp, partners[i].id) == Some(Pair(PartnerSum(events, CashIn)(partners[i]), PartnerSum(events, Units)(partners[i])))
    {
      ByPartnerGet(partners, events, i);
    }
    RowsSums(partners, events, bp, total, capital);
    DivSelf(total);
    PartnerSumOverKeys(partners, events, CashIn);
    PartnerSumOverKeys(partners, events, Units);
    SumOverKeysCovers(PartnerIds(partners), events, PartnerOf, CashIn);
    SumOverKeysCovers(PartnerIds(partners), events, PartnerOf, Units);
  }

  /** Every row `Rows` builds is consistent. */
  lemma RowsConsistent(partners: seq<Partner>, bp: seq<Entry<Pair>>, total: real, capital: real)
    ensures forall i :: 0 <= i < |partners| ==> RowConsistent(Rows(partners, bp, total, capital)[i], capital)
  {
  }

  /** Over consistent rows, the capital column is the capital times the
      share column. */
  lemma CapitalColumn(rows: seq<TableRow>, capital: real)
    requires forall i :: 0 <= i < |rows| ==> RowConsistent(rows[i], capital)
    ensures SumOf(rows, CapitalProQuota) == capital * SumOf(rows, Quota)
  {
    SumOfScaled(rows, Quota, CapitalProQuota, capital);
  }

  /** Over consistent rows, the gain column is the capital column less the cash. */
  lemma GainColumn(rows: seq<TableRow>, capital: real)
    requires forall i :: 0 <= i < |rows| ==> RowConsistent(rows[i], capital)
    ensures SumOf(rows, GainProQuota) == SumOf(rows, CapitalProQuota) - SumOf(rows, RowCashIn)
  {
    forall r | r in rows ensures GainProQuota(r) == CapitalProQuota(r) - RowCashIn(r) {
      var i :| 0 <= i < |rows| && rows[i] == r;
    }
    SumOfDifference(rows, CapitalProQuota, RowCashIn, GainProQuota);
  }

  lemma DivSelf(t: real)
    requires t != 0.0
    ensures t / t == 1.0
  {
  }

  /** When every event belongs to a listed partner, each listed once, and
      units exist: the shares add up to 1, the capital is split exactly, and
      the gains add up to the overall profit `capital - totalCashIn`. */
  lemma {:induction false} TableSplitsCapital(partners: seq<Partner>, events: seq<EquityEvent>, capital: real)
    requires NoDup(PartnerIds(partners))
    requires forall i :: 0 <= i < |events| ==> events[i].partnerId in PartnerIds(partners)
    requires SumOf(events, Units) > 0.0
    ensures var t := Table(partners, ByPartnerOf(partners, events), SumOf(events, Units), capital);
      && SumOf(t, Quota) == 1.0
      && SumOf(t, CapitalProQuota) == capital
      && SumOf(t, GainProQuota) == capital - SumOf(events, CashIn)
  {
    var rows := Rows(partners, ByPartnerOf(partners, events), SumOf(events, Units), capital);
    RowsSplit(partners, events, capital);
    RowsConsistent(partners, ByPartnerOf(partners, events), SumOf(events, Units), capital);
    CapitalColumn(rows, capital);
    GainColumn(rows, capital);
    SortBySum(rows, Quota, Larger, Quota);
    SortBySum(rows, Quota, Larger, CapitalProQuota);
    SortBySum(rows, Quota, Larger, GainProQuota);
  }

  /** What the equity part of the page shows. */
  datatype Overview = Overview(
    byPartner: seq<Entry<Pair>>, totalUnits: real, totalCashIn: real, overallProfit: real, table: seq<TableRow>)

  /** `byPartner`, `totalUnits`, `totalCashIn`, `overallProfit` and `table`
      in the order the page derives them; `capital` is read from the
      backend. The totals are the sums over all events. */
  method EquityOverview(partners: seq<Partner>, events: seq<EquityEvent>, capital: real) returns (r: Overview)
    ensures r.byPartner == ByPartnerOf(partners, events)
    ensures r.totalUnits == SumOf(events, Units)
    ensures r.totalCashIn == SumOf(events, CashIn)
    ensures r.overallProfit == capital - SumOf(events, CashIn)
    ensures r.table == Table(partners, r.byPartner, r.totalUnits, capital)
  {
    var byPartner := ByPartner(partners, events);
    var totalUnits := TotalUnits(byPartner);
    var totalCashIn := TotalCashIn(byPartner);
    ByPartnerOk(partners, events);
    r := Overview(byPartner, totalUnits, totalCashIn, capital - totalCashIn, Table(partners, byPartner, totalUnits, capital));
  }
}
