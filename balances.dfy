/** The bookkeeping of the balances page (src/app/page.tsx): which balance
    adjustments are baseline resets, the bookmaker logo slug, the per-person
    totals of payment methods, and the checks and payloads of a new
    transaction and of a new adjustment. */
module Balances {
  import opened Common
  import opened Seqs
  import opened Text
  import opened OrderedMap
  import opened Keyed
  import opened Tally

  // ----- Baseline adjustments -----

  /** The note that marks an adjustment as a baseline reset. */
  const BaselinePhrase := "set saldo a valore"

  /** `isBaselineAdjustment(note)`: the trimmed, lower-cased note (a missing
      note counts as "") is the baseline phrase. */
  predicate IsBaselineAdjustment(note: Option<string>)
  {
    ToLower(Trim(note.GetOr(""))) == BaselinePhrase
  }

  /** `s` is the baseline phrase, in any case of its letters, with only
      white space around it. */
  predicate PaddedPhrase(s: string)
  {
    exists i, j {:trigger s[i..j]} ::
      (0 <= i <= j <= |s| && AllSpace(s[..i]) && AllSpace(s[j..]) && ToLower(s[i..j]) == BaselinePhrase)
  }

  /** A note is a baseline note exactly when it is present and is the padded phrase. */
  lemma IsBaselineAdjustmentSpec(note: Option<string>)
    ensures IsBaselineAdjustment(note) <==> note.Some? && PaddedPhrase(note.value)
  {
    if note.None? {
      assert ToLower(Trim("")) == "";
    } else {
      if IsBaselineAdjustment(note) {
        TrimmedIsPadded(note.value);
      }
      if PaddedPhrase(note.value) {
        PaddedIsTrimmed(note.value);
      }
    }
  }

  /** A string whose lower case starts and ends with a letter has no white
      space at either end. */
  lemma WordHasNoPadding(c: string, w: string)
    requires ToLower(c) == w && w != []
    requires 'a' <= w[0] <= 'z' && 'a' <= w[|w| - 1] <= 'z'
    ensures c != [] && !IsSpace(c[0]) && !IsSpace(c[|c| - 1])
  {
    LetterIsNotSpace(c[0]);
    LetterIsNotSpace(c[|c| - 1]);
  }

  lemma LetterIsNotSpace(x: char)
    requires 'a' <= LowerChar(x) <= 'z'
    ensures !IsSpace(x)
  {
    if !('A' <= x <= 'Z') {
      assert LowerChar(x) == x;
    }
  }

  lemma TrimmedIsPadded(s: string)
    requires ToLower(Trim(s)) == BaselinePhrase
    ensures PaddedPhrase(s)
  {
    var pre, post := TrimSplit(s);
    var t := Trim(s);
    var i, j := |pre|, |pre| + |t|;
    assert s[..i] == pre && s[i..j] == t && s[j..] == post;
  }

  lemma PaddedIsTrimmed(s: string)
    requires PaddedPhrase(s)
    ensures ToLower(Trim(s)) == BaselinePhrase
  {
    var i, j :| 0 <= i <= j <= |s| && AllSpace(s[..i]) && AllSpace(s[j..]) && ToLower(s[i..j]) == BaselinePhrase;
    WordHasNoPadding(s[i..j], BaselinePhrase);
    Glue3(s, i, j);
    TrimOfPadded(s[..i], s[i..j], s[j..]);
  }

  datatype TargetType = Account | PaymentMethod

  datatype Adjustment = Adjustment(
    id: string, createdAt: string, targetType: TargetType, targetId: string, amount: real, note: Option<string>)

  predicate IsBaseline(a: Adjustment) { IsBaselineAdjustment(a.note) }

  /** The adjustments `loadAll` shows as regular ones. */
  function RegularAdjustments(adjs: seq<Adjustment>): seq<Adjustment>
  {
    Select(adjs, IsBaseline, false)
  }

  /** The adjustments `loadAll` sets aside as baseline resets. */
  function BaselineAdjustments(adjs: seq<Adjustment>): seq<Adjustment>
  {
    Select(adjs, IsBaseline, true)
  }

  /** The two lists split the loaded adjustments exactly: no adjustment is in
      both, none is lost, each list keeps the loaded order (selecting from a
      concatenation concatenates the selections). */
  lemma AdjustmentSplit(adjs: seq<Adjustment>, more: seq<Adjustment>)
    ensures forall i :: 0 <= i < |RegularAdjustments(adjs)| ==> !IsBaseline(RegularAdjustments(adjs)[i])
    ensures forall i :: 0 <= i < |BaselineAdjustments(adjs)| ==> IsBaseline(BaselineAdjustments(adjs)[i])
    ensures multiset(RegularAdjustments(adjs)) + multiset(BaselineAdjustments(adjs)) == multiset(adjs)
    ensures |RegularAdjustments(adjs)| + |BaselineAdjustments(adjs)| == |adjs|
    ensures RegularAdjustments(adjs + more) == RegularAdjustments(adjs) + RegularAdjustments(more)
    ensures BaselineAdjustments(adjs + more) == BaselineAdjustments(adjs) + BaselineAdjustments(more)
  {
    SelectPartition(adjs, IsBaseline);
    SelectConcat(adjs, more, IsBaseline, false);
    SelectConcat(adjs, more, IsBaseline, true);
  }

  // ----- Bookmaker slug -----

  predicate IsSlugChar(c: char)
  {
    'a' <= c <= 'z' || '0' <= c <= '9'
  }

  /** `slugifyBookmaker(name)`: trimmed, lower-cased, white space removed,
      then everything but `a-z` and `0-9` removed. */
  function Slugify(name: string): (r: string)
    ensures forall i :: 0 <= i < |r| ==> IsSlugChar(r[i])
  {
    Select(Select(ToLower(Trim(name)), IsSpace, false), IsSlugChar, true)
  }

  /** Trimming and removing white space change nothing a slug keeps: the slug
      is just the letters and digits of the lower-cased name, in order. */
  lemma SlugifyKeepsLettersAndDigits(name: string)
    ensures Slugify(name) == Select(ToLower(name), IsSlugChar, true)
  {
    var t := Trim(name);
    var low := ToLower(t);
    forall k | 0 <= k < |low| ensures IsSlugChar(low[k]) ==> !IsSpace(low[k]) {
      SlugCharIsNotSpace(low[k]);
    }
    SelectSubsumed(low, IsSpace, IsSlugChar);
    var pre, post := TrimSplit(name);
    ToLowerConcat(pre + t, post);
    ToLowerConcat(pre, t);
    SpaceIsNotSlug(pre);
    SpaceIsNotSlug(post);
    SelectPadded(ToLower(pre), low, ToLower(post), IsSlugChar);
  }

  lemma SlugCharIsNotSpace(c: char)
    ensures IsSlugChar(c) ==> !IsSpace(c)
  {
  }

  /** Lower-casing white space gives no letter or digit. */
  lemma SpaceIsNotSlug(x: string)
    requires AllSpace(x)
    ensures forall k :: 0 <= k < |ToLower(x)| ==> !IsSlugChar(ToLower(x)[k])
  {
    forall k | 0 <= k < |x| ensures !IsSlugChar(ToLower(x)[k]) {
      assert !('A' <= x[k] <= 'Z');
      assert ToLower(x)[k] == LowerChar(x[k]) == x[k];
    }
  }

  /** A selection ignores surroundings that hold nothing it keeps. */
  lemma SelectPadded<X>(pre: seq<X>, mid: seq<X>, post: seq<X>, p: X -> bool)
    requires forall k :: 0 <= k < |pre| ==> !p(pre[k])
    requires forall k :: 0 <= k < |post| ==> !p(post[k])
    ensures Select(pre + mid + post, p, true) == Select(mid, p, true)
  {
    SelectConcat(pre + mid, post, p, true);
    SelectConcat(pre, mid, p, true);
    SelectAllOrNone(pre, p, true);
    SelectAllOrNone(post, p, true);
  }

  /** A slug is its own slug. */
  lemma SlugifyIdempotent(name: string)
    ensures Slugify(Slugify(name)) == Slugify(name)
  {
    var s := Slugify(name);
    SlugifyKeepsLettersAndDigits(s);
    LowerOfSlugChars(s);
    SelectAllOrNone(s, IsSlugChar, true);
  }

  /** Letters and digits are already lower case. */
  lemma LowerOfSlugChars(s: string)
    requires forall i :: 0 <= i < |s| ==> IsSlugChar(s[i])
    ensures ToLower(s) == s
  {
    forall i | 0 <= i < |s| ensures ToLower(s)[i] == s[i] {
      assert !('A' <= s[i] <= 'Z');
    }
  }

  // ----- Per-person totals of payment methods -----

  datatype PaymentMethodRow = PaymentMethodRow(
    id: string, ownerName: string, name: string, balance: real, pendingIncoming: real)

  function OwnerOf(pm: PaymentMethodRow): string { pm.ownerName }
  function BalanceOf(pm: PaymentMethodRow): real { pm.balance }
  function PendingOf(pm: PaymentMethodRow): real { pm.pendingIncoming }

  /** `methodsTotalsByPerson`: per person `{ saldo, transito }` as the pair
      `(first, second)`. Every listed person has an entry, so has every owner
      named by a method; each entry sums the balances and the incoming amounts
      of that owner's methods, and the entries together hold every method. */
  method MethodsTotalsByPerson(people: seq<string>, methods: seq<PaymentMethodRow>)
    returns (m: seq<Entry<Pair>>)
    ensures Valid(m)
    ensures Keys(m) == (set p | p in people) + RowKeys(methods, OwnerOf)
    ensures forall p :: p in Keys(m) ==>
              Get(m, p) == Some(Pair(SumWhere(methods, OwnerOf, p, BalanceOf), SumWhere(methods, OwnerOf, p, PendingOf)))
    ensures SumOf(m, First) == SumOf(methods, BalanceOf)
    ensures SumOf(m, Second) == SumOf(methods, PendingOf)
  {
    m := TallyByKey(people, methods, OwnerOf, BalanceOf, PendingOf);
    TallyOk(people, methods, OwnerOf, BalanceOf, PendingOf);
  }

  // ----- New transaction -----

  datatype TxKind = Deposit | Withdraw | Transfer | Adjust
  datatype TxStatus = Pending | Completed | Cancelled

  /** The transaction form as the page holds it: ids are "" when nothing is
      chosen, the amount is the already parsed number. */
  datatype TxForm = TxForm(
    kind: TxKind, status: TxStatus, amount: Num, note: string,
    fromMethodId: string, fromAccountId: string, toMethodId: string, toAccountId: string)

  /** The row sent to the `transactions` table. */
  datatype TxPayload = TxPayload(
    kind: TxKind, status: TxStatus, amount: real, note: Option<string>,
    fromPaymentMethodId: Option<string>, fromAccountId: Option<string>,
    toPaymentMethodId: Option<string>, toAccountId: Option<string>)

  datatype TxError =
    | InvalidAmount        // "Importo non valido"
    | DepositEndpoints     // "Deposito: scegli DA (metodo) e A (account)"
    | WithdrawEndpoints    // "Prelievo: scegli DA (account) e A (metodo)"
    | TransferEndpoints    // "Trasferimento: scegli DA (metodo) e A (metodo)"

  /** `note.trim() || null`. */
  function NoteOf(note: string): (r: Option<string>)
    ensures r.None? <==> AllSpace(note)
    ensures r.Some? ==> r.value != [] && !IsSpace(r.value[0]) && !IsSpace(r.value[|r.value| - 1])
  {
    TrimEmpty(note);
    TrimEnds(note);
    var t := Trim(note);
    if t == [] then None else Some(t)
  }

  /** The endpoints a payload of each kind carries, and no others. */
  predicate EndpointsFit(p: TxPayload)
  {
    match p.kind
    case Deposit =>
      p.fromPaymentMethodId.Some? && p.toAccountId.Some? && p.fromAccountId.None? && p.toPaymentMethodId.None?
    case Withdraw =>
      p.fromAccountId.Some? && p.toPaymentMethodId.Some? && p.fromPaymentMethodId.None? && p.toAccountId.None?
    case Transfer =>
      p.fromPaymentMethodId.Some? && p.toPaymentMethodId.Some? && p.fromAccountId.None? && p.toAccountId.None?
    case Adjust =>
      p.fromPaymentMethodId.None? && p.fromAccountId.None? && p.toPaymentMethodId.None? && p.toAccountId.None?
  }

  /** The checks of `insertTransaction` and the payload it would insert. */
  method BuildTransaction(form: TxForm) returns (r: Result<TxPayload, TxError>)
    ensures r == Err(InvalidAmount) <==> !(form.amount.Finite? && form.amount.v > 0.0)
    ensures form.kind == Deposit && r.Err? && r.error != InvalidAmount ==> r.error == DepositEndpoints
    ensures form.kind == Withdraw && r.Err? && r.error != InvalidAmount ==> r.error == WithdrawEndpoints
    ensures form.kind == Transfer && r.Err? && r.error != InvalidAmount ==> r.error == TransferEndpoints
    ensures form.amount.Finite? && form.amount.v > 0.0 ==>
              (r.Ok? <==> match form.kind
                          case Deposit => form.fromMethodId != "" && form.toAccountId != ""
                          case Withdraw => form.fromAccountId != "" && form.toMethodId != ""
                          case Transfer => form.fromMethodId != "" && form.toMethodId != ""
                          case Adjust => true)
    ensures r.Ok? ==> EndpointsFit(r.value)
    ensures r.Ok? ==> r.value.kind == form.kind && r.value.amount == form.amount.v && r.value.note == NoteOf(form.note)
    ensures r.Ok? ==> r.value.status == if form.kind in {Deposit, Transfer} then Completed else form.status
    ensures r.Ok? && r.value.fromPaymentMethodId.Some? ==> r.value.fromPaymentMethodId.value == form.fromMethodId
    ensures r.Ok? && r.value.fromAccountId.Some? ==> r.value.fromAccountId.value == form.fromAccountId
    ensures r.Ok? && r.value.toPaymentMethodId.Some? ==> r.value.toPaymentMethodId.value == form.toMethodId
    ensures r.Ok? && r.value.toAccountId.Some? ==> r.value.toAccountId.value == form.toAccountId
  {
    if !form.amount.Finite? || form.amount.v <= 0.0 {
      return Err(InvalidAmount);
    }
    var payload := TxPayload(form.kind, form.status, form.amount.v, NoteOf(form.note), None, None, None, None);
    if form.kind == Deposit {
      if form.fromMethodId == "" || form.toAccountId == "" {
        return Err(DepositEndpoints);
      }
      payload := payload.(fromPaymentMethodId := Some(form.fromMethodId));
      payload := payload.(toAccountId := Some(form.toAccountId));
      payload := payload.(status := Completed);
    }
    if form.kind == Withdraw {
      if form.fromAccountId == "" || form.toMethodId == "" {
        return Err(WithdrawEndpoints);
      }
      payload := payload.(fromAccountId := Some(form.fromAccountId));
      payload := payload.(toPaymentMethodId := Some(form.toMethodId));
    }
    if form.kind == Transfer {
      if form.fromMethodId == "" || form.toMethodId == "" {
        return Err(TransferEndpoints);
      }
      payload := payload.(fromPaymentMethodId := Some(form.fromMethodId));
      payload := payload.(toPaymentMethodId := Some(form.toMethodId));
      payload := payload.(status := Completed);
    }
    return Ok(payload);
  }

  // ----- New adjustment -----

  datatype AdjPayload = AdjPayload(targetType: TargetType, targetId: string, amount: real, note: Option<string>)

  datatype AdjError =
    | NoTarget             // "Seleziona il target della rettifica"
    | InvalidAdjAmount     // "Importo rettifica non valido (usa +/-)"

  /** The checks of `insertAdjustment`, target first, and the payload it would insert. */
  function BuildAdjustment(targetType: TargetType, targetId: string, amount: Num, note: string): (r: Result<AdjPayload, AdjError>)
    ensures r.Ok? <==> targetId != "" && amount.Finite? && amount.v != 0.0
    ensures targetId == "" ==> r == Err(NoTarget)
    ensures targetId != "" && !(amount.Finite? && amount.v != 0.0) ==> r == Err(InvalidAdjAmount)
    ensures r.Ok? ==> r.value.targetType == targetType && r.value.targetId == targetId
                      && r.value.amount == amount.v && r.value.amount != 0.0 && r.value.note == NoteOf(note)
  {
    if targetId == "" then Err(NoTarget)
    else if !amount.Finite? || amount.v == 0.0 then Err(InvalidAdjAmount)
    else Ok(AdjPayload(targetType, targetId, amount.v, NoteOf(note)))
  }
}
