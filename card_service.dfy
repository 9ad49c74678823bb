/**
 * The card lifecycle service (service/CardServiceImpl.java) over a cards
 * table held as a map from id to card. The caller each operation reads from
 * the security context is an explicit parameter.
 */
module CardServiceImpl {
  import opened Wrappers
  import opened CardStatus
  import opened CardEntity
  import opened CardNumberMasker
  import opened CardRequests
  import opened TransferRequests
  import opened ServiceErrors
  import opened CardStore
  import opened AccessPolicy
  import opened TransferRules

  /** What the service hands back for a card (dto/CardResponseDto.java). */
  datatype CardResponse = CardResponse(
    id: CardId,
    maskedNumber: string,
    ownerName: string,
    balance: Cents,
    status: Status,
    expirationDate: Date)

  /** convertToDto: every field copied except the number, which is masked. */
  function ToResponse(card: Card): (r: CardResponse)
    requires |card.cardNumber| >= 4
    ensures r.id == card.id && r.ownerName == card.ownerName && r.expirationDate == card.expirationDate
    ensures r.balance == card.balance && r.status == card.status
    ensures |r.maskedNumber| == 19 && r.maskedNumber[15..] == card.cardNumber[|card.cardNumber| - 4..]
    ensures r.maskedNumber[..15] == MaskPrefix
  {
    CardResponse(card.id, MaskCardNumber(card.cardNumber), card.ownerName,
                 card.balance, card.status, card.expirationDate)
  }

  /** The response reveals nothing of the number but its last four digits. */
  lemma ResponseHidesLeadingDigits(a: Card, b: Card)
    requires |a.cardNumber| >= 4 && |b.cardNumber| >= 4
    requires a.(cardNumber := b.cardNumber) == b
    ensures ToResponse(a) == ToResponse(b) <==> a.cardNumber[|a.cardNumber| - 4..] == b.cardNumber[|b.cardNumber| - 4..]
  {
    MaskDependsOnlyOnLastFour(a.cardNumber, b.cardNumber);
  }

  /**
   * The card createCard builds for a valid request, before it is stored: the
   * request's fields, the given user as owner, status ACTIVE and the initial
   * balance in place of the default one.
   */
  function IssuedCard(id: CardId, request: CardRequest, user: User): (card: Card)
    requires ValidCardRequest(request)
    ensures card.id == id && card.owner == user
    ensures card.cardNumber == request.cardNumber.value && IsCardNumber(card.cardNumber)
    ensures card.ownerName == request.ownerName.value
    ensures card.expirationDate == request.expirationDate.value
    ensures card.status == ACTIVE
    ensures card.balance == request.initialBalance.value && card.balance > 0
  {
    var blank := Card(id, request.cardNumber.value, request.ownerName.value,
                      request.expirationDate.value, ACTIVE, DefaultBalance, user);
    blank.(balance := request.initialBalance.value)
  }

  /** Whether the table accepts a new row: it fits its columns and its number is new. */
  predicate Storable(cards: Cards, card: Card): (stored: bool)
    ensures stored && Consistent(cards) && card.id !in cards ==> Consistent(cards[card.id := card])
    ensures !stored && FitsColumns(card) ==> exists k :: k in cards && cards[k].cardNumber == card.cardNumber
  {
    FitsColumns(card) && !NumberTaken(cards, card.cardNumber)
  }

  /**
   * Every card went through createCard: the table's constraints hold, every
   * number has sixteen digits, no balance is negative, ids are below the
   * next one, and every owner is a stored user.
   */
  ghost predicate ServiceInvariant(cards: Cards, users: map<UserId, User>, nextId: CardId) {
    && Consistent(cards) && ValidatedNumbers(cards) && Solvent(cards)
    && (forall k :: k in cards ==> k < nextId)
    && (forall u :: u in users ==> users[u].id == u)
    && (forall k :: k in cards ==> cards[k].owner.id in users && users[cards[k].owner.id] == cards[k].owner)
  }

  /** Changing one card's status keeps the invariant: numbers, balances, ids and owners stay put. */
  lemma StatusChangeKeepsInvariant(cards: Cards, users: map<UserId, User>, nextId: CardId, id: CardId, status: Status)
    requires ServiceInvariant(cards, users, nextId) && id in cards
    ensures ServiceInvariant(cards[id := cards[id].(status := status)], users, nextId)
  {
    var after := cards[id := cards[id].(status := status)];
    forall k | k in after ensures after[k].cardNumber == cards[k].cardNumber && FitsColumns(after[k]) {
    }
  }

  /** A transfer that passes its checks keeps the invariant and the total. */
  lemma TransferKeepsInvariant(a: Attempt, users: map<UserId, User>, nextId: CardId)
    requires ServiceInvariant(a.cards, users, nextId)
    requires TransferCheck(a).None?
    ensures AllChecksPass(a)
    ensures ServiceInvariant(Transferred(a.cards, a.from, a.to, a.amount), users, nextId)
    ensures Total(Transferred(a.cards, a.from, a.to, a.amount)) == Total(a.cards)
  {
    TransferCheckNoneIff(a);
    TransferKeepsConsistent(a);
    TransferKeepsSolvent(a);
    TransferConservesTotal(a.cards, a.from, a.to, a.amount);
  }

  class CardService {
    /** The cards table. */
    var cards: Cards
    /** The users table, which the card service only reads. */
    var users: map<UserId, User>
    /** The id the table assigns to the next row it stores. */
    var nextId: CardId

    ghost predicate Valid()
      reads this
    {
      ServiceInvariant(cards, users, nextId)
    }

    constructor (users: map<UserId, User>)
      requires forall u :: u in users ==> users[u].id == u
      ensures Valid()
      ensures this.cards == map[] && this.users == users && this.nextId == 1
    {
      this.cards := map[];
      this.users := users;
      this.nextId := 1;
    }

    /**
     * createCard: an unknown user fails and stores nothing; otherwise the
     * issued card is stored under a new id, unless the table refuses it.
     */
    method CreateCard(request: CardRequest) returns (r: Result<CardResponse, ServiceError>)
      requires Valid() && ValidCardRequest(request)
      modifies this
      ensures Valid() && users == old(users)
      ensures request.userId.value !in users ==>
        r == Failure(UserNotFound(request.userId.value)) && cards == old(cards) && nextId == old(nextId)
      ensures request.userId.value in users ==>
        var card := IssuedCard(old(nextId), request, users[request.userId.value]);
        && card.id !in old(cards)
        && (Storable(old(cards), card) ==>
              r == Success(ToResponse(card)) && cards == old(cards)[card.id := card] && nextId > old(nextId))
        && (!Storable(old(cards), card) ==>
              r == Failure(ConstraintViolation) && cards == old(cards) && nextId == old(nextId))
      ensures Total(cards) == Total(old(cards)) + (if r.Success? then request.initialBalance.value else 0)
    {
      var userId := request.userId.value;
      if userId !in users {
        return Failure(UserNotFound(userId));
      }
      var card := IssuedCard(nextId, request, users[userId]);
      if !Storable(cards, card) {
        return Failure(ConstraintViolation);
      }
      TotalInsert(cards, card.id, card);
      cards := cards[card.id := card];
      nextId := nextId + 1;
      r := Success(ToResponse(card));
    }

    /** getUserCards: the caller's own cards, every one of them, as responses. */
    method GetUserCards(caller: Caller) returns (page: map<CardId, CardResponse>)
      requires Valid()
      ensures page.Keys == set k | k in cards && cards[k].owner.username == caller.username
      ensures forall k :: k in page ==> page[k] == ToResponse(cards[k])
      ensures forall k :: k in page ==> Permits(caller, View(cards[k].owner.username))
    {
      page := map k | k in cards && cards[k].owner.username == caller.username :: ToResponse(cards[k]);
    }

    /** getAllCards: every card for an admin, AccessDenied for anyone else. */
    method GetAllCards(caller: Caller) returns (r: Result<map<CardId, CardResponse>, ServiceError>)
      requires Valid()
      ensures !caller.isAdmin ==> r == Failure(AccessDenied)
      ensures caller.isAdmin ==> r.Success? && r.value.Keys == cards.Keys
      ensures r.Success? ==> forall k :: k in r.value ==> r.value[k] == ToResponse(cards[k])
    {
      if !Permits(caller, ListAll) {
        return Failure(AccessDenied);
      }
      r := Success(map k | k in cards :: ToResponse(cards[k]));
    }

    /** getCardById: the lookup comes first, then the admin-or-owner rule. */
    method GetCardById(caller: Caller, id: CardId) returns (r: Result<CardResponse, ServiceError>)
      requires Valid()
      ensures id !in cards ==> r == Failure(CardNotFound(id))
      ensures id in cards && !caller.isAdmin && cards[id].owner.username != caller.username ==>
        r == Failure(AccessDenied)
      ensures id in cards && (caller.isAdmin || cards[id].owner.username == caller.username) ==>
        r == Success(ToResponse(cards[id]))
    {
      if id !in cards {
        return Failure(CardNotFound(id));
      }
      var card := cards[id];
      if !Permits(caller, View(card.owner.username)) {
        return Failure(AccessDenied);
      }
      r := Success(ToResponse(card));
    }

    /** deleteCard: admins only; removing an id that is not stored is no error. */
    method DeleteCard(caller: Caller, id: CardId) returns (err: Option<ServiceError>)
      requires Valid()
      modifies this
      ensures Valid() && users == old(users) && nextId == old(nextId)
      ensures !caller.isAdmin ==> err == Some(AccessDenied) && cards == old(cards)
      ensures caller.isAdmin ==> err == None && cards == old(cards) - {id}
      ensures Total(cards) == Total(old(cards)) - (if err.None? && id in old(cards) then old(cards)[id].balance else 0)
    {
      if !Permits(caller, Delete) {
        return Some(AccessDenied);
      }
      TotalDelete(cards, id);
      cards := cards - {id};
      err := None;
    }

    /**
     * The checks of transferBetweenOwnCards, in the order it makes them,
     * followed by the balance column's own refusal of a balance it cannot
     * hold. Nothing is changed.
     */
    method CheckTransfer(caller: Caller, from: CardId, to: CardId, amount: Cents) returns (err: Option<ServiceError>)
      requires Valid()
      ensures err == TransferCheck(Attempt(cards, caller.username, from, to, amount))
    {
      TransferCheckUnrolled(Attempt(cards, caller.username, from, to, amount));

      if from !in cards {
        return Some(CardNotFound(from));
      }
      var fromCard := cards[from];
      if to !in cards {
        return Some(CardNotFound(to));
      }
      var toCard := cards[to];

      if fromCard.owner.username != caller.username {
        return Some(TransferNotAllowed(SourceNotOwned));
      }
      if toCard.owner.username != caller.username {
        return Some(TransferNotAllowed(TargetNotOwned));
      }

      if fromCard.id == toCard.id {
        return Some(TransferNotAllowed(SameCard));
      }

      if fromCard.status != ACTIVE {
        return Some(TransferNotAllowed(SourceNotActive(fromCard.status)));
      }
      if toCard.status != ACTIVE {
        return Some(TransferNotAllowed(TargetNotActive(toCard.status)));
      }

      if fromCard.balance < amount {
        return Some(InsufficientFunds(from, fromCard.balance, amount));
      }

      if amount <= 0 {
        return Some(TransferNotAllowed(NonPositiveAmount));
      }

      // The table refuses a balance its column cannot hold, and the whole transfer is rolled back.
      if !FitsBalanceColumn(fromCard.balance - amount) || !FitsBalanceColumn(toCard.balance + amount) {
        return Some(ConstraintViolation);
      }
      err := None;
    }

    /**
     * transferBetweenOwnCards: the checks of TransferSteps, in that order,
     * and the two balance writes only when every one of them passes.
     */
    method Transfer(caller: Caller, request: TransferRequest) returns (err: Option<ServiceError>)
      requires Valid() && Complete(request)
      modifies this
      ensures Valid() && users == old(users) && nextId == old(nextId)
      ensures var a := Attempt(old(cards), caller.username,
                               request.fromCardId.value, request.toCardId.value, request.amount.value);
        && err == TransferCheck(a)
        && (err.None? ==> AllChecksPass(a) && cards == Transferred(a.cards, a.from, a.to, a.amount))
        && (err.Some? ==> cards == old(cards))
      ensures Total(cards) == Total(old(cards))
    {
      var from, to, amount := request.fromCardId.value, request.toCardId.value, request.amount.value;
      err := CheckTransfer(caller, from, to, amount);
      if err.Some? {
        return;
      }

      ghost var a := Attempt(cards, caller.username, from, to, amount);
      TransferKeepsInvariant(a, users, nextId);
      assert from in cards && to in cards && from != to;
      var debited := cards[from].(balance := cards[from].balance - amount);
      var credited := cards[to].(balance := cards[to].balance + amount);
      TransferredIsTwoWrites(cards, from, to, amount, debited, credited);
      cards := cards[from := debited];
      cards := cards[to := credited];
    }

    /** blockCard: the lookup comes first, then the admin-or-owner rule; only the status changes. */
    method BlockCard(caller: Caller, id: CardId) returns (r: Result<CardResponse, ServiceError>)
      requires Valid()
      modifies this
      ensures Valid() && users == old(users) && nextId == old(nextId)
      ensures id !in old(cards) ==> r == Failure(CardNotFound(id)) && cards == old(cards)
      ensures id in old(cards) && !caller.isAdmin && old(cards)[id].owner.username != caller.username ==>
        r == Failure(AccessDenied) && cards == old(cards)
      ensures id in old(cards) && (caller.isAdmin || old(cards)[id].owner.username == caller.username) ==>
        cards == old(cards)[id := old(cards)[id].(status := BLOCKED)] && r == Success(ToResponse(cards[id]))
      ensures Total(cards) == Total(old(cards))
    {
      if id !in cards {
        return Failure(CardNotFound(id));
      }
      var card := cards[id];
      if !Permits(caller, Block(card.owner.username)) {
        return Failure(AccessDenied);
      }
      card := card.(status := BLOCKED);
      StatusChangeKeepsInvariant(cards, users, nextId, id, BLOCKED);
      TotalUpdate(cards, id, card);
      cards := cards[id := card];
      r := Success(ToResponse(card));
    }

    /**
     * activateCard: the admin check comes before the lookup; the status
     * becomes ACTIVE whatever it was, EXPIRED and BLOCKED included.
     */
    method ActivateCard(caller: Caller, id: CardId) returns (r: Result<CardResponse, ServiceError>)
      requires Valid()
      modifies this
      ensures Valid() && users == old(users) && nextId == old(nextId)
      ensures !caller.isAdmin ==> r == Failure(AccessDenied) && cards == old(cards)
      ensures caller.isAdmin && id !in old(cards) ==> r == Failure(CardNotFound(id)) && cards == old(cards)
      ensures caller.isAdmin && id in old(cards) ==>
        cards == old(cards)[id := old(cards)[id].(status := ACTIVE)] && r == Success(ToResponse(cards[id]))
      ensures Total(cards) == Total(old(cards))
    {
      if !Permits(caller, Activate) {
        return Failure(AccessDenied);
      }
      if id !in cards {
        return Failure(CardNotFound(id));
      }
      var card := cards[id].(status := ACTIVE);
      StatusChangeKeepsInvariant(cards, users, nextId, id, ACTIVE);
      TotalUpdate(cards, id, card);
      cards := cards[id := card];
      r := Success(ToResponse(card));
    }
  }
}
