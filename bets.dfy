/** The bets page (src/app/scommesse/page.tsx): the split of bet summaries
    into bets still running and closed bets, the calendar of closed-bet
    profit, the checks run before a bet or a leg is saved, the edits of the
    draft legs of a new bet, and the local update when a leg is settled. */
module Bets {
  import opened Common
  import opened Seqs
  import opened Sorting
  import opened Keyed
  import opened Calendar
  import opened Legs

  // ----- Running and closed bets -----

  function IsClosedOf(s: BetSummary): bool { s.isClosed }

  /** `(a, b) => toTs(a.bet) - toTs(b.bet)`: the earlier match first. */
  predicate Earlier(a: int, b: int) { a < b }

  /** `inProgress`: the bets with an open leg, the nearest match first.
      `tsOf` is the instant of a bet's match (`toTs`). */
  function InProgress(sums: seq<BetSummary>, tsOf: Bet -> int): seq<BetSummary>
  {
    SortBy(Select(sums, IsClosedOf, false), (s: BetSummary) => tsOf(s.bet), Earlier)
  }

  /** `closed`: the bets whose legs are all settled, in their order. */
  function Closed(sums: seq<BetSummary>): seq<BetSummary>
  {
    Select(sums, IsClosedOf, true)
  }

  /** Every summary is in exactly one of the two lists, the running ones
      with the nearest match first. */
  lemma InProgressAndClosed(sums: seq<BetSummary>, tsOf: Bet -> int)
    ensures multiset(InProgress(sums, tsOf)) + multiset(Closed(sums)) == multiset(sums)
    ensures |InProgress(sums, tsOf)| + |Closed(sums)| == |sums|
    ensures forall i :: 0 <= i < |InProgress(sums, tsOf)| ==> !InProgress(sums, tsOf)[i].isClosed
    ensures forall i :: 0 <= i < |Closed(sums)| ==> Closed(sums)[i].isClosed
    ensures forall i, j :: 0 <= i < j < |InProgress(sums, tsOf)| ==>
              tsOf(InProgress(sums, tsOf)[i].bet) <= tsOf(InProgress(sums, tsOf)[j].bet)
  {
    var running := Select(sums, IsClosedOf, false);
    var key := (s: BetSummary) => tsOf(s.bet);
    SelectPartition(sums, IsClosedOf);
    assert StrictOrder(Earlier);
    SortBySorted(running, key, Earlier);
    var r := InProgress(sums, tsOf);
    forall i | 0 <= i < |r| ensures !r[i].isClosed {
      assert r[i] in multiset(running);
    }
  }

  function MatchDay(s: BetSummary): string { s.bet.matchDate }
  function Profit(s: BetSummary): real { s.profit }

  /** `closedGrouped`: the profit of closed bets by month and by day of the
      match, months and days newest first. */
  method ClosedGrouped(closed: seq<BetSummary>) returns (months: seq<Month<BetSummary>>)
    ensures months == Arranged(Bucketed(closed, MatchDay, Profit))
    ensures Buckets(months, MatchDay, Profit)
    ensures Descending(months)
    ensures multiset(AllItems(months)) == multiset(closed)
    ensures GrandTotal(months) == SumOf(closed, Profit)
  {
    var buckets := Bucket(closed, MatchDay, Profit);
    BucketedOk(closed, MatchDay, Profit);
    ArrangedOk(buckets, MatchDay, Profit);
    months := Arranged(buckets);
  }

  // ----- Draft legs of a new bet -----

  datatype BetMode = Single | Surebet

  /** A leg being typed in. Stake and odds are the numbers `toNumber` reads
      from the two text boxes. */
  datatype LegDraft = LegDraft(accountId: string, stake: Num, odds: Num, status: LegStatus)

  /** A blank leg; `toNumber("")` is 0. */
  const BlankDraft := LegDraft("", Finite(0.0), Finite(0.0), Open)

  /** The legs a new bet starts with in each mode (the `betMode` effect). */
  function DraftsFor(mode: BetMode): (r: seq<LegDraft>)
    ensures mode == Single ==> |r| == 1
    ensures mode == Surebet ==> |r| == 2
    ensures forall i :: 0 <= i < |r| ==> r[i] == BlankDraft
  {
    if mode == Single then [BlankDraft] else [BlankDraft, BlankDraft]
  }

  /** `addNewLeg`. */
  function AddNewLeg(legs: seq<LegDraft>): (r: seq<LegDraft>)
    ensures |r| == |legs| + 1 && r[..|legs|] == legs && r[|legs|] == BlankDraft
  {
    legs + [BlankDraft]
  }

  /** The fields a `Partial<LegDraft>` patch sets. */
  datatype LegPatch = LegPatch(
    accountId: Option<string>, stake: Option<Num>, odds: Option<Num>, status: Option<LegStatus>)

  /** `{ ...x, ...patch }`. */
  function Patched(x: LegDraft, patch: LegPatch): (r: LegDraft)
    ensures r.accountId == patch.accountId.GetOr(x.accountId)
    ensures r.stake == patch.stake.GetOr(x.stake)
    ensures r.odds == patch.odds.GetOr(x.odds)
    ensures r.status == patch.status.GetOr(x.status)
  {
    LegDraft(
      if patch.accountId.Some? then patch.accountId.value else x.accountId,
      if patch.stake.Some? then patch.stake.value else x.stake,
      if patch.odds.Some? then patch.odds.value else x.odds,
      if patch.status.Some? then patch.status.value else x.status)
  }

  /** `updateNewLeg(i, patch)`: `prev.map((x, idx) => idx === i ? { ...x, ...patch } : x)`. */
  function UpdateNewLeg(legs: seq<LegDraft>, i: int, patch: LegPatch): (r: seq<LegDraft>)
    ensures |r| == |legs|
    ensures forall j :: 0 <= j < |legs| && j != i ==> r[j] == legs[j]
    ensures 0 <= i < |legs| ==> r[i] == Patched(legs[i], patch)
  {
    seq(|legs|, j requires 0 <= j < |legs| => if j == i then Patched(legs[j], patch) else legs[j])
  }

  /** Applying the same patch twice is applying it once, and a patch that
      sets nothing changes nothing. */
  lemma UpdateNewLegIdempotent(legs: seq<LegDraft>, i: int, patch: LegPatch)
    ensures UpdateNewLeg(UpdateNewLeg(legs, i, patch), i, patch) == UpdateNewLeg(legs, i, patch)
    ensures UpdateNewLeg(legs, i, LegPatch(None, None, None, None)) == legs
  {
  }

  /** `s.filter((_, idx) => idx !== i)`. */
  function DropIndex<X>(s: seq<X>, i: int): seq<X>
  {
    if s == [] then []
    else DropIndex(s[..|s| - 1], i) + (if |s| - 1 != i then [s[|s| - 1]] else [])
  }

  /** Dropping index `i` removes exactly that element and keeps the order of the rest. */
  lemma {:induction false} DropIndexSpec<X>(s: seq<X>, i: int)
    ensures DropIndex(s, i) == if 0 <= i < |s| then s[..i] + s[i + 1..] else s
  {
    if s != [] {
      var p := s[..|s| - 1];
      DropIndexSpec(p, i);
      if 0 <= i < |p| {
        assert p[..i] + p[i + 1..] + [s[|s| - 1]] == s[..i] + s[i + 1..];
      } else if i == |p| {
        assert s[..i] + s[i + 1..] == p;
      } else {
        assert p + [s[|s| - 1]] == s;
      }
    }
  }

  /** What `removeNewLeg` leaves: the new legs, and whether the page
      switches back to a single bet. */
  datatype Removal = Removal(legs: seq<LegDraft>, toSingle: bool)

  /** `removeNewLeg(i)`: the last leg is never removed. */
  function RemoveNewLeg(legs: seq<LegDraft>, i: int): (r: Removal)
    ensures |legs| <= 1 ==> r.legs == legs
    ensures |legs| > 1 ==> r.legs == if 0 <= i < |legs| then legs[..i] + legs[i + 1..] else legs
    ensures r.toSingle <==> |r.legs| == 1
  {
    DropIndexSpec(legs, i);
    var next := if |legs| <= 1 then legs else DropIndex(legs, i);
    Removal(next, |next| == 1)
  }

  /** Removing the leg just added gives back the legs before it. */
  lemma RemoveAddedLeg(legs: seq<LegDraft>)
    requires legs != []
    ensures RemoveNewLeg(AddNewLeg(legs), |legs|).legs == legs
    ensures RemoveNewLeg(AddNewLeg(legs), |legs|).toSingle <==> |legs| == 1
  {
    assert AddNewLeg(legs)[..|legs|] == legs;
  }

  /** The draft part of the page: the mode and the legs. */
  datatype Drafts = Drafts(mode: BetMode, legs: seq<LegDraft>)

  /** What the page holds after `removeNewLeg(i)`: the removal, then, when it
      switched the mode to single, the `betMode` effect, which runs on every
      change of mode and puts a new list of blank legs in place. */
  function AfterRemoval(d: Drafts, i: int): (r: Drafts)
    ensures r.mode == (if RemoveNewLeg(d.legs, i).toSingle then Single else d.mode)
    ensures r.mode != d.mode ==> r.legs == DraftsFor(Single)
    ensures r.mode == d.mode ==> r.legs == RemoveNewLeg(d.legs, i).legs
  {
    var rem := RemoveNewLeg(d.legs, i);
    var mode := if rem.toSingle then Single else d.mode;
    if mode != d.mode then Drafts(mode, DraftsFor(mode)) else Drafts(mode, rem.legs)
  }

  /** Removing one of two legs of a surebet leaves one blank leg: whatever
      was typed into the other leg is gone. */
  lemma RemovalBlanksSurebet(legs: seq<LegDraft>, i: int)
    requires |legs| == 2 && 0 <= i < 2
    ensures AfterRemoval(Drafts(Surebet, legs), i) == Drafts(Single, [BlankDraft])
    ensures RemoveNewLeg(legs, i).legs == [legs[1 - i]]
  {
    assert legs[..i] + legs[i + 1..] == [legs[1 - i]];
  }

  /** Two filled legs of a surebet: removing the first does not keep the second. */
  lemma RemovalLosesTypedLeg()
    ensures var kept := LegDraft("acc2", Finite(10.0), Finite(2.5), Open);
      var d := Drafts(Surebet, [LegDraft("acc1", Finite(10.0), Finite(2.0), Open), kept]);
      AfterRemoval(d, 0).legs != [kept]
  {
    var kept := LegDraft("acc2", Finite(10.0), Finite(2.5), Open);
    var d := Drafts(Surebet, [LegDraft("acc1", Finite(10.0), Finite(2.0), Open), kept]);
    RemovalBlanksSurebet(d.legs, 0);
    assert AfterRemoval(d, 0).legs[0] == BlankDraft != kept;
  }

  /** The removal as evidently intended: the mode follows the number of legs
      left, and the legs left are the ones the removal kept. */
  function AfterRemovalKept(d: Drafts, i: int): (r: Drafts)
    ensures r.legs == RemoveNewLeg(d.legs, i).legs
    ensures r.mode == Single <==> |r.legs| == 1 || d.mode == Single
    ensures |d.legs| > 1 && 0 <= i < |d.legs| ==> r.legs == d.legs[..i] + d.legs[i + 1..]
  {
    var rem := RemoveNewLeg(d.legs, i);
    Drafts(if rem.toSingle then Single else d.mode, rem.legs)
  }

  /** With the corrected removal, dropping the leg just added gives back the
      legs before it, and the two removals agree whenever the mode stays. */
  lemma AfterRemovalKeptOk(d: Drafts, i: int)
    requires d.legs != []
    ensures AfterRemovalKept(Drafts(d.mode, AddNewLeg(d.legs)), |d.legs|).legs == d.legs
    ensures AfterRemoval(d, i).mode == d.mode ==> AfterRemoval(d, i) == AfterRemovalKept(d, i)
  {
    RemoveAddedLeg(d.legs);
  }

  // ----- Checks before saving -----

  /** What can be wrong with one leg, in the order the checks run. */
  datatype LegFault = NoAccount | BadStake | BadOdds

  /** A stake must be a finite number above 0. */
  predicate StakeOk(stake: Num) { stake.Finite? && stake.v > 0.0 }

  /** Odds must be a finite number above 1. */
  predicate OddsOk(odds: Num) { odds.Finite? && odds.v > 1.0 }

  /** The first check one leg fails, if any. */
  function LegFaultOf(accountId: string, stake: Num, odds: Num): (r: Option<LegFault>)
    ensures r.None? <==> accountId != "" && StakeOk(stake) && OddsOk(odds)
    ensures r == Some(NoAccount) <==> accountId == ""
    ensures r == Some(BadStake) <==> accountId != "" && !StakeOk(stake)
    ensures r == Some(BadOdds) <==> accountId != "" && StakeOk(stake) && !OddsOk(odds)
  {
    if accountId == "" then Some(NoAccount)
    else if !StakeOk(stake) then Some(BadStake)
    else if !OddsOk(odds) then Some(BadOdds)
    else None
  }

  predicate DraftOk(l: LegDraft) { LegFaultOf(l.accountId, l.stake, l.odds).None? }

  /** The messages of `saveNewBet`; `leg` is the 1-based number of the leg. */
  datatype NewBetError = MissingDateTime | NoLegs | SurebetNeedsTwo | LegError(leg: nat, fault: LegFault)

  /** Date, time and the number of legs pass. */
  predicate HeaderOk(date: string, time: string, mode: BetMode, legs: seq<LegDraft>)
  {
    date != "" && time != "" && |legs| >= 1 && (mode == Surebet ==> |legs| >= 2)
  }

  /** The checks of `saveNewBet`, which run before anything is written:
      date and time, then the number of legs, then leg by leg the first
      fault of the first faulty leg. `None` means the bet is saved. */
  method ValidateNewBet(date: string, time: string, mode: BetMode, legs: seq<LegDraft>)
    returns (r: Option<NewBetError>)
    ensures (date == "" || time == "") ==> r == Some(MissingDateTime)
    ensures date != "" && time != "" && |legs| == 0 ==> r == Some(NoLegs)
    ensures date != "" && time != "" && mode == Surebet && |legs| == 1 ==> r == Some(SurebetNeedsTwo)
    ensures HeaderOk(date, time, mode, legs) ==> (r.None? <==> forall i :: 0 <= i < |legs| ==> DraftOk(legs[i]))
    ensures HeaderOk(date, time, mode, legs) && r.Some? ==>
              && r.value.LegError?
              && 1 <= r.value.leg <= |legs|
              && (forall j :: 0 <= j < r.value.leg - 1 ==> DraftOk(legs[j]))
              && LegFaultOf(legs[r.value.leg - 1].accountId, legs[r.value.leg - 1].stake, legs[r.value.leg - 1].odds)
                 == Some(r.value.fault)
  {
    if date == "" || time == "" {
      return Some(MissingDateTime);
    }
    if |legs| < 1 {
      return Some(NoLegs);
    }
    if mode == Surebet && |legs| < 2 {
      return Some(SurebetNeedsTwo);
    }
    for i := 0 to |legs|
      invariant forall j :: 0 <= j < i ==> DraftOk(legs[j])
    {
      var l := legs[i];
      if l.accountId == "" {
        return Some(LegError(i + 1, NoAccount));
      }
      if !l.stake.Finite? || l.stake.v <= 0.0 {
        return Some(LegError(i + 1, BadStake));
      }
      if !l.odds.Finite? || l.odds.v <= 1.0 {
        return Some(LegError(i + 1, BadOdds));
      }
    }
    return None;
  }

  /** A new bet whose legs are still blank is refused at its first leg for
      want of an account. */
  lemma BlankBetRefused(date: string, time: string, mode: BetMode)
    requires date != "" && time != ""
    ensures HeaderOk(date, time, mode, DraftsFor(mode))
    ensures !DraftOk(DraftsFor(mode)[0])
    ensures LegFaultOf(BlankDraft.accountId, BlankDraft.stake, BlankDraft.odds) == Some(NoAccount)
  {
  }

  /** The messages of `saveEditLeg`. */
  datatype EditLegError = NoLegId | EditFault(fault: LegFault)

  /** The checks of `saveEditLeg`: a leg must be chosen, then the same
      checks one leg of a new bet goes through. */
  function ValidateEditLeg(legId: string, accountId: string, stake: Num, odds: Num): (r: Option<EditLegError>)
    ensures r == Some(NoLegId) <==> legId == ""
    ensures legId != "" ==>
              (r.None? <==> LegFaultOf(accountId, stake, odds).None?) &&
              (r.Some? ==> r.value == EditFault(LegFaultOf(accountId, stake, odds).value))
  {
    if legId == "" then Some(NoLegId)
    else if accountId == "" then Some(EditFault(NoAccount))
    else if !stake.Finite? || stake.v <= 0.0 then Some(EditFault(BadStake))
    else if !odds.Finite? || odds.v <= 1.0 then Some(EditFault(BadOdds))
    else None
  }

  // ----- Settling a leg -----

  /** `x.id === legId ? { ...x, status } : x`. */
  function PatchLeg(x: BetLeg, legId: string, status: LegStatus): BetLeg
  {
    if x.id == legId then x.(status := status) else x
  }

  /** `legs.map(...)` with that patch. */
  function PatchLegs(legs: seq<BetLeg>, legId: string, status: LegStatus): (r: seq<BetLeg>)
    ensures |r| == |legs|
    ensures forall j :: 0 <= j < |legs| ==> r[j] == PatchLeg(legs[j], legId, status)
  {
    seq(|legs|, j requires 0 <= j < |legs| => PatchLeg(legs[j], legId, status))
  }

  function LegIdOf(l: BetLeg): string { l.id }

  /** What `setLegStatus` leaves: the legs on the page and whether it reloads everything. */
  datatype StatusChange = StatusChange(legs: seq<BetLeg>, reload: bool)

  /** `setLegStatus(legId, status)` after the database update, whose
      outcome is `updateOk`: nothing happens for an unknown leg or a failed
      update; otherwise the legs with that id take the new status, and the
      page reloads when the legs of that bet, so changed, are all settled. */
  function SetLegStatus(legs: seq<BetLeg>, legId: string, status: LegStatus, updateOk: bool): StatusChange
  {
    var i := FindBy(legs, LegIdOf, legId);
    if i == |legs| || !updateOk then StatusChange(legs, false)
    else
      var betId := legs[i].betId;
      var nextLegsForBet := PatchLegs(Where(legs, BetIdOf, betId), legId, status);
      StatusChange(PatchLegs(legs, legId, status), AllSettled(nextLegsForBet))
  }

  /** Patching commutes with picking the legs of a bet, since it keeps the bet id. */
  lemma {:induction false} WherePatched(legs: seq<BetLeg>, b: string, legId: string, status: LegStatus)
    ensures Where(PatchLegs(legs, legId, status), BetIdOf, b) == PatchLegs(Where(legs, BetIdOf, b), legId, status)
  {
    if legs != [] {
      var p := legs[..|legs| - 1];
      WherePatched(p, b, legId, status);
      assert PatchLegs(legs, legId, status)[..|p|] == PatchLegs(p, legId, status);
      var w := Where(p, BetIdOf, b);
      var x := legs[|legs| - 1];
      if x.betId == b {
        assert PatchLegs(w + [x], legId, status) == PatchLegs(w, legId, status) + [PatchLeg(x, legId, status)];
      }
    }
  }

  /** The legs of bet `b` are all settled exactly when no leg of `b` is open. */
  lemma {:induction false} SettledWhere(legs: seq<BetLeg>, b: string)
    ensures AllSettled(Where(legs, BetIdOf, b)) <==>
              forall j :: 0 <= j < |legs| && legs[j].betId == b ==> legs[j].status != Open
  {
    if legs != [] {
      var p, x := legs[..|legs| - 1], legs[|legs| - 1];
      SettledWhere(p, b);
      var w := Where(p, BetIdOf, b);
      var t := if x.betId == b then [x] else [];
      assert Where(legs, BetIdOf, b) == w + t;
      assert AllSettled(w + t) <==> AllSettled(w) && AllSettled(t) by {
        assert forall j :: 0 <= j < |w| ==> (w + t)[j] == w[j];
        assert forall j :: 0 <= j < |t| ==> (w + t)[|w| + j] == t[j];
      }
      assert AllSettled(t) <==> (x.betId == b ==> x.status != Open) by {
        if x.betId == b {
          assert t == [x] && t[0] == x;
        } else {
          assert t == [];
        }
      }
      assert (forall j :: 0 <= j < |legs| && legs[j].betId == b ==> legs[j].status != Open) <==>
             (forall j :: 0 <= j < |p| && p[j].betId == b ==> p[j].status != Open) && (x.betId == b ==> x.status != Open) by {
        assert forall j :: 0 <= j < |p| ==> p[j] == legs[j];
        assert legs[|p|] == x;
      }
    }
  }

  /** Settling changes the status of the legs with `legId` and nothing else,
      and the page reloads exactly when the leg is known, the update went
      through and, afterwards, no leg of its bet is open. The bet is the one
      of the first leg with that id, as `legs.find` picks it. */
  lemma SetLegStatusSpec(legs: seq<BetLeg>, legId: string, status: LegStatus, updateOk: bool)
    ensures var r := SetLegStatus(legs, legId, status, updateOk);
      var i := FindBy(legs, LegIdOf, legId);
      && |r.legs| == |legs|
      && (forall j :: 0 <= j < |legs| ==>
            r.legs[j] == if i < |legs| && updateOk && legs[j].id == legId then legs[j].(status := status) else legs[j])
      && (r.reload <==>
            i < |legs| && updateOk &&
            forall j :: 0 <= j < |r.legs| && r.legs[j].betId == legs[i].betId ==> r.legs[j].status != Open)
  {
    var i := FindBy(legs, LegIdOf, legId);
    if i < |legs| && updateOk {
      var b := legs[i].betId;
      WherePatched(legs, b, legId, status);
      SettledWhere(PatchLegs(legs, legId, status), b);
    }
  }
}
