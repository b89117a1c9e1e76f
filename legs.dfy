/** Bets and their legs, as both the bets page (src/app/scommesse/page.tsx)
    and the summary page (src/app/riepilogo/page.tsx) read them: the legs of
    each bet in creation order, and the settlement of a bet from its legs. */
module Legs {
  import opened Common
  import opened Seqs
  import opened Text
  import opened Sorting
  import opened OrderedMap
  import opened Keyed

  datatype LegStatus = Open | Win | Loss

  datatype Bet = Bet(id: string, matchDate: string, matchTime: string, note: Option<string>, createdAt: string)

  datatype BetLeg = BetLeg(
    id: string, betId: string, accountId: string, stake: real, odds: real, status: LegStatus, createdAt: string)

  function BetIdOf(l: BetLeg): string { l.betId }

  // ----- Legs per bet -----

  /** What the leg comparator looks at: creation time first, then id. */
  datatype LegKey = LegKey(createdAt: string, id: string)

  function OrderKey(l: BetLeg): LegKey { LegKey(l.createdAt, l.id) }

  /** The comparator of `legsByBet`: `created_at` with `<`, ties broken by the id. */
  predicate LegBefore(a: LegKey, b: LegKey)
  {
    LexLess(a.createdAt, b.createdAt) || (a.createdAt == b.createdAt && LexLess(a.id, b.id))
  }

  /** The comparator is a strict order that ranks any two different keys. */
  lemma LegBeforeIsStrictTotal()
    ensures StrictOrder(LegBefore)
    ensures forall a, b :: a != b ==> LegBefore(a, b) || LegBefore(b, a)
  {
    forall a ensures !LegBefore(a, a) {
      LexLessIrreflexive(a.createdAt);
      LexLessIrreflexive(a.id);
    }
    forall a, b, c | LegBefore(a, b) && LegBefore(b, c) ensures LegBefore(a, c) {
      if LexLess(a.createdAt, b.createdAt) && LexLess(b.createdAt, c.createdAt) {
        LexLessTransitive(a.createdAt, b.createdAt, c.createdAt);
      } else if a.createdAt == b.createdAt && b.createdAt == c.createdAt {
        LexLessTransitive(a.id, b.id, c.id);
      }
    }
    forall a, b | a != b ensures LegBefore(a, b) || LegBefore(b, a) {
      if a.createdAt != b.createdAt {
        LexLessTotal(a.createdAt, b.createdAt);
      } else {
        LexLessTotal(a.id, b.id);
      }
    }
  }

  /** `arr.sort(...)` with that comparator. */
  function SortLegs(legs: seq<BetLeg>): seq<BetLeg>
  {
    SortBy(legs, OrderKey, LegBefore)
  }

  /** Every bucket of the map sorted, keys and their order untouched. */
  function SortedBuckets(m: seq<Entry<seq<BetLeg>>>): seq<Entry<seq<BetLeg>>>
  {
    seq(|m|, k requires 0 <= k < |m| => Entry(m[k].key, SortLegs(m[k].value)))
  }

  /** The map `legsByBet` builds: the legs pushed under their bet, then each bucket sorted. */
  function LegsByBetOf(legs: seq<BetLeg>): seq<Entry<seq<BetLeg>>>
  {
    SortedBuckets(Listed(legs, BetIdOf))
  }

  /** `legsByBet` (the same code on both pages): a loop pushing every leg
      into the bucket of its bet, then a loop sorting every bucket. */
  method LegsByBet(legs: seq<BetLeg>) returns (m: seq<Entry<seq<BetLeg>>>)
    ensures m == LegsByBetOf(legs)
  {
    m := [];
    var i := 0;
    while i < |legs|
      invariant 0 <= i <= |legs|
      invariant m == Listed(legs[..i], BetIdOf)
    {
      var leg := legs[i];
      var arr := Get(m, leg.betId).GetOr([]);
      arr := arr + [leg];
      m := Put(m, leg.betId, arr);
      assert legs[..i + 1][..i] == legs[..i];
      i := i + 1;
    }
    assert legs[..i] == legs;
    ghost var m0 := m;
    var k := 0;
    while k < |m|
      invariant 0 <= k <= |m| && |m| == |m0|
      invariant forall j :: 0 <= j < k ==> m[j] == Entry(m0[j].key, SortLegs(m0[j].value))
      invariant forall j :: k <= j < |m| ==> m[j] == m0[j]
    {
      // `m.set(betId, arr)` on a key the map holds replaces that entry in place.
      m := m[k := Entry(m[k].key, SortLegs(m[k].value))];
      k := k + 1;
    }
    assert forall j :: 0 <= j < |m| ==> m[j] == SortedBuckets(m0)[j];
  }

  /** Sorting buckets keeps the keys, and the bucket of each key is the old one sorted. */
  lemma SortedBucketsGet(m: seq<Entry<seq<BetLeg>>>, b: string)
    requires Valid(m)
    ensures Valid(SortedBuckets(m)) && Keys(SortedBuckets(m)) == Keys(m)
    ensures Get(SortedBuckets(m), b).GetOr([]) == SortLegs(Get(m, b).GetOr([]))
  {
    var r := SortedBuckets(m);
    assert forall j :: 0 <= j < |m| ==> r[j].key == m[j].key;
    assert Keys(r) == Keys(m);
    GetSpec(m, b);
    GetSpec(r, b);
    if b !in Keys(m) {
      assert SortLegs([]) == [];
    }
  }

  /** The bucket of bet `b` holds exactly the legs of `b`, in ascending
      `(created_at, id)` order, and there is a bucket for every bet a leg names. */
  lemma LegsByBetGet(legs: seq<BetLeg>, b: string)
    ensures Valid(LegsByBetOf(legs)) && Keys(LegsByBetOf(legs)) == RowKeys(legs, BetIdOf)
    ensures Get(LegsByBetOf(legs), b).GetOr([]) == SortLegs(Where(legs, BetIdOf, b))
    ensures SortedBy(Get(LegsByBetOf(legs), b).GetOr([]), OrderKey, LegBefore)
    ensures forall x :: multiset(Get(LegsByBetOf(legs), b).GetOr([]))[x] == if x.betId == b then multiset(legs)[x] else 0
  {
    ListedOk(legs, BetIdOf);
    ListedGet(legs, BetIdOf, b);
    SortedBucketsGet(Listed(legs, BetIdOf), b);
    LegBeforeIsStrictTotal();
    SortBySorted(Where(legs, BetIdOf, b), OrderKey, LegBefore);
    forall x {
      WhereCount(legs, BetIdOf, b, x);
    }
  }

  // ----- Settlement of one bet -----

  function Stake(l: BetLeg): real { l.stake }

  /** What a leg pays back: stake times odds for a win, nothing otherwise. */
  function Payout(l: BetLeg): real { if l.status == Win then l.stake * l.odds else 0.0 }

  /** What a leg gains or loses. */
  function Net(l: BetLeg): real { Payout(l) - l.stake }

  /** `bl.every((x) => x.status !== "open")`. */
  predicate AllSettled(bl: seq<BetLeg>)
  {
    forall i :: 0 <= i < |bl| ==> bl[i].status != Open
  }

  datatype BetSummary = BetSummary(
    bet: Bet, legs: seq<BetLeg>, isClosed: bool, stakeTotal: real, payoutTotal: real, profit: real)

  /** The summary of bet `b` with legs `bl`, or nothing for a bet without legs. */
  function Summarize(b: Bet, bl: seq<BetLeg>): (r: Option<BetSummary>)
    ensures r.None? <==> bl == []
    ensures r.Some? ==> r.value.bet == b && r.value.legs == bl
    ensures r.Some? ==> (r.value.isClosed <==> forall i :: 0 <= i < |bl| ==> bl[i].status != Open)
  {
    if bl == [] then None
    else
      Some(BetSummary(b, bl, AllSettled(bl), SumOf(bl, Stake), SumOf(bl, Payout), SumOf(bl, Payout) - SumOf(bl, Stake)))
  }

  predicate IsWin(l: BetLeg) { l.status == Win }

  /** What a winning leg pays back. */
  function WinAmount(l: BetLeg): real { l.stake * l.odds }

  /** The payouts of all legs add up to stake times odds over the winning legs alone. */
  lemma {:induction false} PayoutOfWins(bl: seq<BetLeg>)
    ensures SumOf(bl, Payout) == SumOf(Select(bl, IsWin, true), WinAmount)
  {
    if bl != [] {
      var p, x := bl[..|bl| - 1], bl[|bl| - 1];
      PayoutOfWins(p);
      if IsWin(x) {
        SumOfAppend(Select(p, IsWin, true), x, WinAmount);
      }
    }
  }

  /** The payout of a bet is stake times odds summed over its winning legs,
      and its profit that payout less all stakes, which is what its legs
      gain or lose leg by leg; when every leg lost, the bet lost its whole
      stake and paid nothing back. */
  lemma ProfitOfLegs(b: Bet, bl: seq<BetLeg>)
    requires bl != []
    ensures Summarize(b, bl).value.stakeTotal == SumOf(bl, Stake)
    ensures Summarize(b, bl).value.payoutTotal == SumOf(Select(bl, IsWin, true), WinAmount)
    ensures Summarize(b, bl).value.profit == SumOf(Select(bl, IsWin, true), WinAmount) - SumOf(bl, Stake)
    ensures Summarize(b, bl).value.profit == SumOf(bl, Net)
    ensures (forall i :: 0 <= i < |bl| ==> bl[i].status == Loss) ==>
              Summarize(b, bl).value.payoutTotal == 0.0 && Summarize(b, bl).value.profit == -SumOf(bl, Stake)
  {
    PayoutOfWins(bl);
    SumOfDifference(bl, Payout, Stake, Net);
    SumOfNonNegative(bl, Payout);
  }

  /** With no negative stake or odds, no bet loses more than its stake. */
  lemma ProfitAtLeastMinusStake(b: Bet, bl: seq<BetLeg>)
    requires bl != []
    requires forall i :: 0 <= i < |bl| ==> bl[i].stake >= 0.0 && bl[i].odds >= 0.0
    ensures Summarize(b, bl).value.profit >= -Summarize(b, bl).value.stakeTotal
  {
    forall i | 0 <= i < |bl| ensures Payout(bl[i]) >= 0.0 {
      if bl[i].status == Win {
        assert bl[i].stake * bl[i].odds >= 0.0;
      }
    }
    SumOfNonNegative(bl, Payout);
  }

  // ----- Summaries of all bets -----

  /** The summary of `b` from the legs map. */
  function SummaryOf(b: Bet, byBet: seq<Entry<seq<BetLeg>>>): Option<BetSummary>
  {
    Summarize(b, Get(byBet, b.id).GetOr([]))
  }

  /** The summary of `b` as a list of zero or one element. */
  function SummaryList(b: Bet, byBet: seq<Entry<seq<BetLeg>>>): seq<BetSummary>
  {
    if SummaryOf(b, byBet).Some? then [SummaryOf(b, byBet).value] else []
  }

  /** `summaries`: one summary per bet that has legs, in the order of `bets`. */
  function Summaries(bets: seq<Bet>, byBet: seq<Entry<seq<BetLeg>>>): seq<BetSummary>
  {
    if bets == [] then [] else Summaries(bets[..|bets| - 1], byBet) + SummaryList(bets[|bets| - 1], byBet)
  }

  /** Every summary is the summary of one of the bets, built from that bet's
      legs, which are never empty. */
  lemma {:induction false} SummariesSound(bets: seq<Bet>, byBet: seq<Entry<seq<BetLeg>>>)
    ensures |Summaries(bets, byBet)| <= |bets|
    ensures forall s :: s in Summaries(bets, byBet) ==>
              s.bet in bets && s.legs != [] && SummaryOf(s.bet, byBet) == Some(s)
  {
    if bets != [] {
      var p := bets[..|bets| - 1];
      SummariesSound(p, byBet);
      assert bets == p + [bets[|bets| - 1]];
    }
  }

  /** Every bet with legs has its summary among the summaries. */
  lemma {:induction false} SummariesComplete(bets: seq<Bet>, byBet: seq<Entry<seq<BetLeg>>>, i: int)
    requires 0 <= i < |bets| && Get(byBet, bets[i].id).GetOr([]) != []
    ensures SummaryOf(bets[i], byBet).value in Summaries(bets, byBet)
  {
    var p := bets[..|bets| - 1];
    if i < |p| {
      assert bets[i] == p[i];
      SummariesComplete(p, byBet, i);
    }
  }
}
