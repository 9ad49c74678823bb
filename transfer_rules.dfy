/**
 * What a transfer between a user's own cards decides
 * (transferBetweenOwnCards in service/CardServiceImpl.java): an ordered list
 * of checks, the first that fails names the error, and only when all pass are
 * two balances changed.
 */
module TransferRules {
  import opened Wrappers
  import opened CardStatus
  import opened CardEntity
  import opened CardStore
  import opened ServiceErrors

  /** One transfer attempt: the store it sees, the caller's name and the request. */
  datatype Attempt = Attempt(cards: Cards, username: string, from: CardId, to: CardId, amount: Cents)

  /** The checks, each named after what it demands. */
  datatype Step =
    | SourceExists
    | TargetExists
    | SourceOwned
    | TargetOwned
    | DistinctCards
    | SourceActive
    | TargetActive
    | SufficientFunds
    | PositiveAmount
      /** Not a check of the service: the balance column refuses a balance it cannot hold. */
    | BalancesFitColumn

  /** The service's nine checks in the order it makes them, then the store's own constraint. */
  const TransferSteps: seq<Step> := [
    SourceExists, TargetExists, SourceOwned, TargetOwned, DistinctCards,
    SourceActive, TargetActive, SufficientFunds, PositiveAmount, BalancesFitColumn]

  /**
   * Whether an attempt gets past one check. A check about a card that is
   * missing passes here: the existence checks come first and fail instead.
   */
  predicate Passes(step: Step, a: Attempt) {
    match step
    case SourceExists => a.from in a.cards
    case TargetExists => a.to in a.cards
    case SourceOwned => a.from in a.cards ==> a.cards[a.from].owner.username == a.username
    case TargetOwned => a.to in a.cards ==> a.cards[a.to].owner.username == a.username
    case DistinctCards => a.from != a.to
    case SourceActive => a.from in a.cards ==> a.cards[a.from].status == ACTIVE
    case TargetActive => a.to in a.cards ==> a.cards[a.to].status == ACTIVE
    case SufficientFunds => a.from in a.cards ==> a.cards[a.from].balance >= a.amount
    case PositiveAmount => a.amount > 0
    case BalancesFitColumn =>
      a.from in a.cards && a.to in a.cards ==>
        FitsBalanceColumn(a.cards[a.from].balance - a.amount)
        && FitsBalanceColumn(a.cards[a.to].balance + a.amount)
  }

  /** The error a failing check raises. */
  function RefusalFor(step: Step, a: Attempt): ServiceError
    requires !Passes(step, a)
  {
    match step
    case SourceExists => CardNotFound(a.from)
    case TargetExists => CardNotFound(a.to)
    case SourceOwned => TransferNotAllowed(SourceNotOwned)
    case TargetOwned => TransferNotAllowed(TargetNotOwned)
    case DistinctCards => TransferNotAllowed(SameCard)
    case SourceActive => TransferNotAllowed(SourceNotActive(a.cards[a.from].status))
    case TargetActive => TransferNotAllowed(TargetNotActive(a.cards[a.to].status))
    case SufficientFunds => InsufficientFunds(a.from, a.cards[a.from].balance, a.amount)
    case PositiveAmount => TransferNotAllowed(NonPositiveAmount)
    case BalancesFitColumn => ConstraintViolation
  }

  /** The error of the first failing step, or None when every step passes. */
  function FirstRefusal(steps: seq<Step>, a: Attempt): Option<ServiceError>
  {
    if steps == [] then None
    else if !Passes(steps[0], a) then Some(RefusalFor(steps[0], a))
    else FirstRefusal(steps[1..], a)
  }

  /**
   * The outcome of the checks of one transfer attempt: when nothing is
   * refused, both cards exist, belong to the caller, differ and are active,
   * and the amount is positive and covered by the source balance.
   */
  function TransferCheck(a: Attempt): (r: Option<ServiceError>)
    ensures r.None? ==> && a.from in a.cards && a.to in a.cards && a.from != a.to
                        && a.cards[a.from].owner.username == a.username
                        && a.cards[a.to].owner.username == a.username
                        && a.cards[a.from].status == ACTIVE && a.cards[a.to].status == ACTIVE
                        && 0 < a.amount <= a.cards[a.from].balance
  {
    FirstRefusalNone(TransferSteps, a);
    var r := FirstRefusal(TransferSteps, a);
    assert r.None? ==> && Passes(TransferSteps[0], a) && Passes(TransferSteps[1], a)
                       && Passes(TransferSteps[2], a) && Passes(TransferSteps[3], a)
                       && Passes(TransferSteps[4], a) && Passes(TransferSteps[5], a)
                       && Passes(TransferSteps[6], a) && Passes(TransferSteps[7], a)
                       && Passes(TransferSteps[8], a);
    r
  }

  /** Nothing is refused exactly when every step passes. */
  lemma {:induction false} FirstRefusalNone(steps: seq<Step>, a: Attempt)
    ensures FirstRefusal(steps, a).None? <==> forall i :: 0 <= i < |steps| ==> Passes(steps[i], a)
  {
    if steps != [] {
      FirstRefusalNone(steps[1..], a);
      if Passes(steps[0], a) && FirstRefusal(steps[1..], a).None? {
        forall i | 0 <= i < |steps| ensures Passes(steps[i], a) {
          if i > 0 {
            assert steps[i] == steps[1..][i - 1];
          }
        }
      }
    }
  }

  /** The first failing step decides the error. */
  lemma {:induction false} FirstRefusalAt(steps: seq<Step>, a: Attempt, i: nat)
    requires i < |steps| && !Passes(steps[i], a)
    requires forall j :: 0 <= j < i ==> Passes(steps[j], a)
    ensures FirstRefusal(steps, a) == Some(RefusalFor(steps[i], a))
  {
    if i > 0 {
      assert Passes(steps[0], a);
      assert forall j :: 0 <= j < i - 1 ==> steps[1..][j] == steps[j + 1];
      FirstRefusalAt(steps[1..], a, i - 1);
    }
  }

  /** Every refusal comes from a failing step all of whose predecessors passed. */
  lemma {:induction false} FirstRefusalSome(steps: seq<Step>, a: Attempt) returns (i: nat)
    requires FirstRefusal(steps, a).Some?
    ensures i < |steps| && !Passes(steps[i], a)
    ensures forall j :: 0 <= j < i ==> Passes(steps[j], a)
    ensures FirstRefusal(steps, a) == Some(RefusalFor(steps[i], a))
  {
    if Passes(steps[0], a) {
      var k := FirstRefusalSome(steps[1..], a);
      i := k + 1;
      forall j | 0 <= j < i ensures Passes(steps[j], a) {
        if j > 0 {
          assert steps[j] == steps[1..][j - 1];
        }
      }
    } else {
      i := 0;
    }
  }

  /** A step that passes hands the decision to the steps after it. */
  lemma RefusalSkips(steps: seq<Step>, a: Attempt, k: nat)
    requires k < |steps| && Passes(steps[k], a)
    ensures FirstRefusal(steps[k..], a) == FirstRefusal(steps[k + 1..], a)
  {
    assert steps[k..][0] == steps[k];
    assert steps[k..][1..] == steps[k + 1..];
  }

  /** A step that fails decides the error. */
  lemma RefusalStops(steps: seq<Step>, a: Attempt, k: nat)
    requires k < |steps| && !Passes(steps[k], a)
    ensures FirstRefusal(steps[k..], a) == Some(RefusalFor(steps[k], a))
  {
    assert steps[k..][0] == steps[k];
  }

  /** Past the last step nothing is refused. */
  lemma RefusalEnds(steps: seq<Step>, a: Attempt)
    ensures FirstRefusal(steps[|steps|..], a) == None
  {
    assert steps[|steps|..] == [];
  }

  /** The first five steps unrolled: existence, ownership and distinctness. */
  lemma IdentityStepsUnrolled(a: Attempt)
    ensures TransferCheck(a) ==
      if a.from !in a.cards then Some(CardNotFound(a.from))
      else if a.to !in a.cards then Some(CardNotFound(a.to))
      else if a.cards[a.from].owner.username != a.username then Some(TransferNotAllowed(SourceNotOwned))
      else if a.cards[a.to].owner.username != a.username then Some(TransferNotAllowed(TargetNotOwned))
      else if a.from == a.to then Some(TransferNotAllowed(SameCard))
      else FirstRefusal(TransferSteps[5..], a)
  {
    var s := TransferSteps;
    assert s[0..] == s;
    if !Passes(s[0], a) { RefusalStops(s, a, 0); return; }
    RefusalSkips(s, a, 0);
    if !Passes(s[1], a) { RefusalStops(s, a, 1); return; }
    RefusalSkips(s, a, 1);
    if !Passes(s[2], a) { RefusalStops(s, a, 2); return; }
    RefusalSkips(s, a, 2);
    if !Passes(s[3], a) { RefusalStops(s, a, 3); return; }
    RefusalSkips(s, a, 3);
    if !Passes(s[4], a) { RefusalStops(s, a, 4); return; }
    RefusalSkips(s, a, 4);
  }

  /** The remaining five steps unrolled: statuses, funds, sign and the balance column. */
  lemma BalanceStepsUnrolled(a: Attempt)
    requires a.from in a.cards && a.to in a.cards
    ensures FirstRefusal(TransferSteps[5..], a) ==
      if a.cards[a.from].status != ACTIVE then Some(TransferNotAllowed(SourceNotActive(a.cards[a.from].status)))
      else if a.cards[a.to].status != ACTIVE then Some(TransferNotAllowed(TargetNotActive(a.cards[a.to].status)))
      else if a.cards[a.from].balance < a.amount then Some(InsufficientFunds(a.from, a.cards[a.from].balance, a.amount))
      else if a.amount <= 0 then Some(TransferNotAllowed(NonPositiveAmount))
      else if !FitsBalanceColumn(a.cards[a.from].balance - a.amount)
           || !FitsBalanceColumn(a.cards[a.to].balance + a.amount) then Some(ConstraintViolation)
      else None
  {
    var s := TransferSteps;
    if !Passes(s[5], a) { RefusalStops(s, a, 5); return; }
    RefusalSkips(s, a, 5);
    if !Passes(s[6], a) { RefusalStops(s, a, 6); return; }
    RefusalSkips(s, a, 6);
    if !Passes(s[7], a) { RefusalStops(s, a, 7); return; }
    RefusalSkips(s, a, 7);
    if !Passes(s[8], a) { RefusalStops(s, a, 8); return; }
    RefusalSkips(s, a, 8);
    if !Passes(s[9], a) { RefusalStops(s, a, 9); return; }
    RefusalSkips(s, a, 9);
    RefusalEnds(s, a);
  }

  /** The whole step list unrolled into one chain of conditions, the first that holds deciding. */
  lemma TransferCheckUnrolled(a: Attempt)
    ensures TransferCheck(a) ==
      if a.from !in a.cards then Some(CardNotFound(a.from))
      else if a.to !in a.cards then Some(CardNotFound(a.to))
      else if a.cards[a.from].owner.username != a.username then Some(TransferNotAllowed(SourceNotOwned))
      else if a.cards[a.to].owner.username != a.username then Some(TransferNotAllowed(TargetNotOwned))
      else if a.from == a.to then Some(TransferNotAllowed(SameCard))
      else if a.cards[a.from].status != ACTIVE then Some(TransferNotAllowed(SourceNotActive(a.cards[a.from].status)))
      else if a.cards[a.to].status != ACTIVE then Some(TransferNotAllowed(TargetNotActive(a.cards[a.to].status)))
      else if a.cards[a.from].balance < a.amount then Some(InsufficientFunds(a.from, a.cards[a.from].balance, a.amount))
      else if a.amount <= 0 then Some(TransferNotAllowed(NonPositiveAmount))
      else if !FitsBalanceColumn(a.cards[a.from].balance - a.amount)
           || !FitsBalanceColumn(a.cards[a.to].balance + a.amount) then Some(ConstraintViolation)
      else None
  {
    IdentityStepsUnrolled(a);
    if a.from in a.cards && a.to in a.cards {
      BalanceStepsUnrolled(a);
    }
  }

  /** Every check of the transfer, written out. */
  predicate AllChecksPass(a: Attempt) {
    && a.from in a.cards && a.to in a.cards
    && a.cards[a.from].owner.username == a.username
    && a.cards[a.to].owner.username == a.username
    && a.from != a.to
    && a.cards[a.from].status == ACTIVE && a.cards[a.to].status == ACTIVE
    && a.cards[a.from].balance >= a.amount
    && a.amount > 0
    && FitsBalanceColumn(a.cards[a.from].balance - a.amount)
    && FitsBalanceColumn(a.cards[a.to].balance + a.amount)
  }

  /** A transfer goes through exactly when all of its checks pass. */
  lemma TransferCheckNoneIff(a: Attempt)
    ensures TransferCheck(a).None? <==> AllChecksPass(a)
  {
    FirstRefusalNone(TransferSteps, a);
    if TransferCheck(a).None? {
      assert Passes(TransferSteps[0], a) && Passes(TransferSteps[1], a);
      assert Passes(TransferSteps[2], a) && Passes(TransferSteps[3], a);
      assert Passes(TransferSteps[4], a) && Passes(TransferSteps[5], a);
      assert Passes(TransferSteps[6], a) && Passes(TransferSteps[7], a);
      assert Passes(TransferSteps[8], a) && Passes(TransferSteps[9], a);
    }
  }

  /** The store after the two balance writes of a transfer between distinct cards. */
  function Transferred(cards: Cards, from: CardId, to: CardId, amount: Cents): (after: Cards)
    requires from in cards && to in cards && from != to
    ensures after.Keys == cards.Keys
    ensures after[from].balance == cards[from].balance - amount
    ensures after[to].balance == cards[to].balance + amount
    ensures after[from].balance + after[to].balance == cards[from].balance + cards[to].balance
    ensures after[from] == cards[from].(balance := after[from].balance)
    ensures after[to] == cards[to].(balance := after[to].balance)
    ensures forall k :: k in cards && k != from && k != to ==> after[k] == cards[k]
  {
    cards[from := cards[from].(balance := cards[from].balance - amount)]
         [to := cards[to].(balance := cards[to].balance + amount)]
  }

  /** The transfer is the debit of the source row followed by the credit of the target row. */
  lemma TransferredIsTwoWrites(cards: Cards, from: CardId, to: CardId, amount: Cents, debited: Card, credited: Card)
    requires from in cards && to in cards && from != to
    requires debited == cards[from].(balance := cards[from].balance - amount)
    requires credited == cards[to].(balance := cards[to].balance + amount)
    ensures Transferred(cards, from, to, amount) == cards[from := debited][to := credited]
  {
  }

  /** A transfer neither creates nor destroys money. */
  lemma TransferConservesTotal(cards: Cards, from: CardId, to: CardId, amount: Cents)
    requires from in cards && to in cards && from != to
    ensures Total(Transferred(cards, from, to, amount)) == Total(cards)
  {
    var debited := cards[from := cards[from].(balance := cards[from].balance - amount)];
    TotalUpdate(cards, from, debited[from]);
    TotalUpdate(debited, to, debited[to].(balance := debited[to].balance + amount));
  }

  /** A transfer that goes through leaves the source non-negative and keeps the store solvent. */
  lemma TransferKeepsSolvent(a: Attempt)
    requires TransferCheck(a).None?
    ensures a.from in a.cards && a.to in a.cards && a.from != a.to
    ensures Transferred(a.cards, a.from, a.to, a.amount)[a.from].balance >= 0
    ensures Solvent(a.cards) ==> Solvent(Transferred(a.cards, a.from, a.to, a.amount))
  {
    TransferCheckNoneIff(a);
  }

  /** A transfer that goes through keeps every row within its columns and every number in place. */
  lemma TransferKeepsConsistent(a: Attempt)
    requires TransferCheck(a).None?
    requires Consistent(a.cards)
    ensures a.from in a.cards && a.to in a.cards && a.from != a.to
    ensures Consistent(Transferred(a.cards, a.from, a.to, a.amount))
  {
    TransferCheckNoneIff(a);
    var after := Transferred(a.cards, a.from, a.to, a.amount);
    forall k | k in after
      ensures after[k].id == k && FitsColumns(after[k]) && after[k].cardNumber == a.cards[k].cardNumber
    {
    }
  }

  /**
   * With no negative balance on the source, a non-positive amount always ends
   * in TransferNotAllowed and never in InsufficientFunds, although the
   * sufficiency check comes first.
   */
  lemma NonPositiveAmountNotAllowed(a: Attempt)
    requires a.amount <= 0
    requires a.from in a.cards ==> a.cards[a.from].balance >= 0
    ensures TransferCheck(a).Some?
    ensures !TransferCheck(a).value.InsufficientFunds?
    ensures (forall j :: 0 <= j < 7 ==> Passes(TransferSteps[j], a))
      ==> TransferCheck(a) == Some(TransferNotAllowed(NonPositiveAmount))
  {
    TransferCheckNoneIff(a);
    var i := FirstRefusalSome(TransferSteps, a);
    assert TransferSteps[i] != SufficientFunds;
    if forall j :: 0 <= j < 7 ==> Passes(TransferSteps[j], a) {
      assert Passes(TransferSteps[7], a);
      FirstRefusalAt(TransferSteps, a, 8);
    }
  }

  /** A transfer from a card to itself always fails; on an existing card with TransferNotAllowed. */
  lemma SameCardRefused(a: Attempt)
    requires a.from == a.to
    ensures TransferCheck(a).Some?
    ensures a.from in a.cards ==> TransferCheck(a).value.TransferNotAllowed?
    ensures a.from in a.cards && a.cards[a.from].owner.username == a.username
      ==> TransferCheck(a) == Some(TransferNotAllowed(SameCard))
  {
    TransferCheckNoneIff(a);
    var i := FirstRefusalSome(TransferSteps, a);
    assert !Passes(TransferSteps[4], a);
    if a.from in a.cards && a.cards[a.from].owner.username == a.username {
      FirstRefusalAt(TransferSteps, a, 4);
    }
  }

  /**
   * A transfer touching a card that is not ACTIVE always fails, and how it
   * fails does not depend on the amount.
   */
  lemma InactiveCardRefused(a: Attempt, otherAmount: Cents)
    requires (a.from in a.cards && a.cards[a.from].status != ACTIVE)
          || (a.to in a.cards && a.cards[a.to].status != ACTIVE)
    ensures TransferCheck(a).Some?
    ensures TransferCheck(a) == TransferCheck(a.(amount := otherAmount))
  {
    var b := a.(amount := otherAmount);
    TransferCheckNoneIff(a);
    var i := FirstRefusalSome(TransferSteps, a);
    assert !Passes(TransferSteps[5], a) || !Passes(TransferSteps[6], a);
    forall j | 0 <= j <= i ensures Passes(TransferSteps[j], a) == Passes(TransferSteps[j], b) { }
    FirstRefusalAt(TransferSteps, b, i);
  }

  /** The amount-sign check is the only one that can raise NonPositiveAmount. */
  lemma PositiveAmountNeverNonPositive(a: Attempt)
    requires a.amount > 0
    ensures TransferCheck(a) != Some(TransferNotAllowed(NonPositiveAmount))
  {
    if TransferCheck(a).Some? {
      var i := FirstRefusalSome(TransferSteps, a);
      assert TransferSteps[i] != PositiveAmount;
    }
  }

  /**
   * A worked example: with 100.00 on card 1 and nothing on card 2, both
   * active and owned by "u", moving 40.00 leaves 60.00 and 40.00; asking
   * for 1000.00 next is refused with the balance and the amount.
   */
  lemma TransferExample()
    ensures var u := User(1, "u");
            var cardA := Card(1, "1111222233334444", "U", Date(2030, 1, 1), ACTIVE, 10000, u);
            var cardB := Card(2, "5555666677778888", "U", Date(2030, 1, 1), ACTIVE, 0, u);
            var before := map[1 := cardA, 2 := cardB];
            var after := Transferred(before, 1, 2, 4000);
            && TransferCheck(Attempt(before, "u", 1, 2, 4000)) == None
            && after == map[1 := cardA.(balance := 6000), 2 := cardB.(balance := 4000)]
            && TransferCheck(Attempt(after, "u", 1, 2, 100000)) == Some(InsufficientFunds(1, 6000, 100000))
  {
    var u := User(1, "u");
    var cardA := Card(1, "1111222233334444", "U", Date(2030, 1, 1), ACTIVE, 10000, u);
    var cardB := Card(2, "5555666677778888", "U", Date(2030, 1, 1), ACTIVE, 0, u);
    var before := map[1 := cardA, 2 := cardB];
    var after := Transferred(before, 1, 2, 4000);
    TransferCheckUnrolled(Attempt(before, "u", 1, 2, 4000));
    TransferCheckUnrolled(Attempt(after, "u", 1, 2, 100000));
  }
}
