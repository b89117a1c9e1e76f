/** The daily figures of the summary page (src/app/riepilogo/page.tsx): the
    profit of the closed bets per match day, and the regular balance
    adjustments per local day of their creation. */
module Summary {
  import opened Common
  import opened Seqs
  import opened OrderedMap
  import opened Keyed
  import opened Legs
  import opened Bets
  import opened Balances

  // ----- Profit of closed bets per match day -----

  /** The closed summaries of `bets`: bets that have legs, all settled. */
  function ClosedOf(bets: seq<Bet>, byBet: seq<Entry<seq<BetLeg>>>): seq<BetSummary>
  {
    Closed(Summaries(bets, byBet))
  }

  /** `legsByBet.get(b.id) ?? []`. */
  function LegsOf(b: Bet, byBet: seq<Entry<seq<BetLeg>>>): seq<BetLeg>
  {
    Get(byBet, b.id).GetOr([])
  }

  /** One bet of `betProfitByDay`: a bet without legs or with an open leg
      leaves the map as it is; any other adds `payoutTotal - stakeTotal` to
      its match day. */
  function BetStep(m: seq<Entry<real>>, b: Bet, byBet: seq<Entry<seq<BetLeg>>>): seq<Entry<real>>
  {
    var legs := LegsOf(b, byBet);
    if legs == [] || !AllSettled(legs) then m
    else AddTo(m, b.matchDate, SumOf(legs, Payout) - SumOf(legs, Stake))
  }

  /** The map `betProfitByDay` builds, bet after bet. */
  function BetProfitByDayOf(bets: seq<Bet>, byBet: seq<Entry<seq<BetLeg>>>): seq<Entry<real>>
  {
    if bets == [] then [] else BetStep(BetProfitByDayOf(bets[..|bets| - 1], byBet), bets[|bets| - 1], byBet)
  }

  /** `betProfitByDay`: bets without legs and bets with an open leg are
      skipped; every other bet adds its profit to its match day. */
  method BetProfitByDay(bets: seq<Bet>, byBet: seq<Entry<seq<BetLeg>>>) returns (m: seq<Entry<real>>)
    ensures m == BetProfitByDayOf(bets, byBet)
  {
    m := [];
    for i := 0 to |bets|
      invariant m == BetProfitByDayOf(bets[..i], byBet)
    {
      var b := bets[i];
      assert bets[..i + 1][..i] == bets[..i] && bets[..i + 1][i] == b;
      ghost var m0 := m;
      var legs := Get(byBet, b.id).GetOr([]);
      if |legs| == 0 {
        assert m == BetStep(m0, b, byBet);
        continue;
      }
      var isClosed := AllSettled(legs);
      if !isClosed {
        assert m == BetStep(m0, b, byBet);
        continue;
      }
      var stakeTotal := SumOf(legs, Stake);
      var payoutTotal := SumOf(legs, Payout);
      var profit := payoutTotal - stakeTotal;
      var day := b.matchDate;
      m := AddTo(m, day, profit);
      assert m == BetStep(m0, b, byBet);
    }
    assert bets[..|bets|] == bets;
  }

  lemma BetStepAdds(m: seq<Entry<real>>, b: Bet, byBet: seq<Entry<seq<BetLeg>>>, legs: seq<BetLeg>)
    requires legs == LegsOf(b, byBet) && legs != [] && AllSettled(legs)
    ensures BetStep(m, b, byBet) == AddTo(m, b.matchDate, SumOf(legs, Payout) - SumOf(legs, Stake))
  {
  }

  lemma BetStepSkips(m: seq<Entry<real>>, b: Bet, byBet: seq<Entry<seq<BetLeg>>>, legs: seq<BetLeg>)
    requires legs == LegsOf(b, byBet) && (legs == [] || !AllSettled(legs))
    ensures BetStep(m, b, byBet) == m
  {
  }

  lemma SettledStep(m: seq<Entry<real>>, m': seq<Entry<real>>, b: Bet, byBet: seq<Entry<seq<BetLeg>>>,
                    legs: seq<BetLeg>, day: string, profit: real)
    requires legs == LegsOf(b, byBet) && legs != [] && AllSettled(legs)
    requires m == m' && day == b.matchDate && profit == SumOf(legs, Payout) - SumOf(legs, Stake)
    ensures BetStep(m, b, byBet) == AddTo(m', day, profit)
  {
    BetStepAdds(m, b, byBet, legs);
    AddToCongruent(m, m', b.matchDate, day, SumOf(legs, Payout) - SumOf(legs, Stake), profit);
  }

  /** One bet adds to the profit of the closed summaries so far exactly what
      its own summary adds when it is closed. */
  lemma BetStepSummed(m: seq<Entry<real>>, c: seq<BetSummary>, b: Bet, byBet: seq<Entry<seq<BetLeg>>>)
    requires m == Summed(Select(c, IsClosedOf, true), MatchDay, Profit)
    ensures BetStep(m, b, byBet) == Summed(Select(c + SummaryList(b, byBet), IsClosedOf, true), MatchDay, Profit)
  {
    var legs := LegsOf(b, byBet);
    if legs != [] {
      var s := Summarize(b, legs).value;
      assert SummaryList(b, byBet) == [s];
      assert c + SummaryList(b, byBet) == c + [s];
      SummedSelectSnoc(c, s, IsClosedOf, true, MatchDay, Profit);
      assert IsClosedOf(s) == AllSettled(legs);
      if AllSettled(legs) {
        SettledStep(m, Summed(Select(c, IsClosedOf, true), MatchDay, Profit), b, byBet, legs, MatchDay(s), Profit(s));
        assert BetStep(m, b, byBet) == Summed(Select(c + [s], IsClosedOf, true), MatchDay, Profit);
      } else {
        BetStepSkips(m, b, byBet, legs);
        assert BetStep(m, b, byBet) == Summed(Select(c + [s], IsClosedOf, true), MatchDay, Profit);
      }
      assert Summed(Select(c + SummaryList(b, byBet), IsClosedOf, true), MatchDay, Profit)
          == Summed(Select(c + [s], IsClosedOf, true), MatchDay, Profit);
    } else {
      BetStepSkips(m, b, byBet, legs);
      assert c + SummaryList(b, byBet) == c;
    }
  }

  /** The map `betProfitByDay` builds holds the profit of every closed bet
      added under its match day: the bets the loop skips are exactly the
      ones without a closed summary. */
  lemma {:induction false} BetProfitByDaySummed(bets: seq<Bet>, byBet: seq<Entry<seq<BetLeg>>>)
    ensures BetProfitByDayOf(bets, byBet) == Summed(ClosedOf(bets, byBet), MatchDay, Profit)
  {
    if bets != [] {
      var p, b := bets[..|bets| - 1], bets[|bets| - 1];
      BetProfitByDaySummed(p, byBet);
      BetStepSummed(BetProfitByDayOf(p, byBet), Summaries(p, byBet), b, byBet);
    }
  }

  /** Every day of `betProfitByDay` is the match day of a closed bet and holds
      the profit of the closed bets of that match day; the days together hold
      the profit of all closed bets. */
  lemma BetProfitByDayGet(bets: seq<Bet>, byBet: seq<Entry<seq<BetLeg>>>, day: string)
    ensures Valid(BetProfitByDayOf(bets, byBet))
    ensures Keys(BetProfitByDayOf(bets, byBet)) == RowKeys(ClosedOf(bets, byBet), MatchDay)
    ensures Get(BetProfitByDayOf(bets, byBet), day)
         == if day in RowKeys(ClosedOf(bets, byBet), MatchDay)
            then Some(SumWhere(ClosedOf(bets, byBet), MatchDay, day, Profit)) else None
    ensures SumOf(BetProfitByDayOf(bets, byBet), Val) == SumOf(ClosedOf(bets, byBet), Profit)
  {
    BetProfitByDaySummed(bets, byBet);
    SummedOk(ClosedOf(bets, byBet), MatchDay, Profit);
    SummedGet(ClosedOf(bets, byBet), MatchDay, Profit, day);
  }

  /** The closed summaries are the summaries of the bets that have legs, all
      of them settled. */
  lemma ClosedOfSpec(bets: seq<Bet>, byBet: seq<Entry<seq<BetLeg>>>)
    ensures forall s :: s in ClosedOf(bets, byBet) ==>
              s.bet in bets && s.legs != [] && AllSettled(s.legs) && SummaryOf(s.bet, byBet) == Some(s)
    ensures forall i :: 0 <= i < |bets| && Get(byBet, bets[i].id).GetOr([]) != []
                        && AllSettled(Get(byBet, bets[i].id).GetOr([])) ==>
              SummaryOf(bets[i], byBet).value in ClosedOf(bets, byBet)
  {
    SummariesSound(bets, byBet);
    var sums := Summaries(bets, byBet);
    forall s | s in ClosedOf(bets, byBet)
      ensures s.bet in bets && s.legs != [] && AllSettled(s.legs) && SummaryOf(s.bet, byBet) == Some(s)
    {
      assert s in sums && s.isClosed;
    }
    forall i | 0 <= i < |bets| && Get(byBet, bets[i].id).GetOr([]) != [] && AllSettled(Get(byBet, bets[i].id).GetOr([]))
      ensures SummaryOf(bets[i], byBet).value in ClosedOf(bets, byBet)
    {
      SummariesComplete(bets, byBet, i);
      var k :| 0 <= k < |sums| && sums[k] == SummaryOf(bets[i], byBet).value;
    }
  }

  // ----- Regular adjustments per day -----

  /** The day an adjustment counts for: `toLocalDayISO(created_at)`, with the
      local calendar given as `localDay`. */
  function AdjDay(localDay: string -> string): Adjustment -> string
  {
    (a: Adjustment) => localDay(a.createdAt)
  }

  function AdjAmount(a: Adjustment): real { a.amount }

  /** The map `adjByDay` builds: every regular adjustment added under its day. */
  function AdjByDayOf(adjs: seq<Adjustment>, localDay: string -> string): seq<Entry<real>>
  {
    Summed(RegularAdjustments(adjs), AdjDay(localDay), AdjAmount)
  }

  /** One more adjustment adds its amount to its day unless it is a baseline reset. */
  lemma AdjByDayOfSnoc(adjs: seq<Adjustment>, i: int, localDay: string -> string)
    requires 0 <= i < |adjs|
    ensures AdjByDayOf(adjs[..i + 1], localDay)
         == if IsBaselineAdjustment(adjs[i].note) then AdjByDayOf(adjs[..i], localDay)
            else AddTo(AdjByDayOf(adjs[..i], localDay), localDay(adjs[i].createdAt), adjs[i].amount)
  {
    assert adjs[..i + 1] == adjs[..i] + [adjs[i]];
    SummedSelectSnoc(adjs[..i], adjs[i], IsBaseline, false, AdjDay(localDay), AdjAmount);
  }

  /** `adjByDay`: baseline resets are skipped; every other adjustment adds its
      amount to its day. */
  method AdjByDay(adjs: seq<Adjustment>, localDay: string -> string) returns (m: seq<Entry<real>>)
    ensures m == AdjByDayOf(adjs, localDay)
  {
    m := [];
    for i := 0 to |adjs|
      invariant m == AdjByDayOf(adjs[..i], localDay)
    {
      var a := adjs[i];
      AdjByDayOfSnoc(adjs, i, localDay);
      if IsBaselineAdjustment(a.note) {
        continue;
      }
      var day := localDay(a.createdAt);
      AddToCongruent(m, AdjByDayOf(adjs[..i], localDay), day, localDay(a.createdAt), a.amount, a.amount);
      m := AddTo(m, day, a.amount);
    }
    assert adjs[..|adjs|] == adjs;
  }

  /** Every day of `adjByDay` holds the amounts of the regular adjustments of
      that day; no baseline reset counts, and the days together hold all
      regular adjustments. */
  lemma AdjByDayGet(adjs: seq<Adjustment>, localDay: string -> string, day: string)
    ensures Valid(AdjByDayOf(adjs, localDay))
    ensures Keys(AdjByDayOf(adjs, localDay)) == RowKeys(RegularAdjustments(adjs), AdjDay(localDay))
    ensures Get(AdjByDayOf(adjs, localDay), day)
         == if day in RowKeys(RegularAdjustments(adjs), AdjDay(localDay))
            then Some(SumWhere(RegularAdjustments(adjs), AdjDay(localDay), day, AdjAmount)) else None
    ensures SumOf(AdjByDayOf(adjs, localDay), Val) == SumOf(RegularAdjustments(adjs), AdjAmount)
    ensures forall i :: 0 <= i < |RegularAdjustments(adjs)| ==> !IsBaselineAdjustment(RegularAdjustments(adjs)[i].note)
  {
    SummedOk(RegularAdjustments(adjs), AdjDay(localDay), AdjAmount);
    SummedGet(RegularAdjustments(adjs), AdjDay(localDay), AdjAmount, day);
    AdjustmentSplit(adjs, []);
  }
}
