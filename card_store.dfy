/**
 * The cards table as a map from id to card: the constraints every stored row
 * meets, and the total money it holds.
 */
module CardStore {
  import opened CardEntity

  type Cards = map<CardId, Card>

  /**
   * Each row sits under its own id and fits its columns; numbers are unique,
   * so a card number identifies its row.
   */
  ghost predicate Consistent(cards: Cards): (consistent: bool)
    ensures consistent ==> forall j, k :: j in cards && k in cards && cards[j].cardNumber == cards[k].cardNumber ==> j == k
    ensures consistent ==> forall k :: k in cards ==> cards[k].id == k && FitsBalanceColumn(cards[k].balance)
  {
    && (forall k :: k in cards ==> cards[k].id == k && FitsColumns(cards[k]))
    && (forall j, k :: j in cards && k in cards && j != k ==> cards[j].cardNumber != cards[k].cardNumber)
  }

  /** Every stored number went through the sixteen-digit pattern check. */
  ghost predicate ValidatedNumbers(cards: Cards) {
    forall k :: k in cards ==> IsCardNumber(cards[k].cardNumber)
  }

  /** No card holds a negative balance. */
  ghost predicate Solvent(cards: Cards) {
    forall k :: k in cards ==> cards[k].balance >= 0
  }

  /** Some stored card already carries this number. */
  predicate NumberTaken(cards: Cards, cardNumber: string) {
    exists k :: k in cards && cards[k].cardNumber == cardNumber
  }

  /** The sum of all balances. */
  ghost function Total(cards: Cards): int
    decreases |cards|
  {
    if exists k :: k in cards then
      var k :| k in cards;
      cards[k].balance + Total(cards - {k})
    else 0
  }

  /** Total can be split at any card, not only the one its definition picks. */
  lemma {:induction false} TotalRemove(cards: Cards, k: CardId)
    requires k in cards
    ensures Total(cards) == cards[k].balance + Total(cards - {k})
    decreases |cards|
  {
    var j :| j in cards && Total(cards) == cards[j].balance + Total(cards - {j});
    if j != k {
      TotalRemove(cards - {j}, k);
      TotalRemove(cards - {k}, j);
      assert cards - {j} - {k} == cards - {k} - {j};
    }
  }

  /** Replacing one card changes the total by the change of its balance. */
  lemma TotalUpdate(cards: Cards, k: CardId, card: Card)
    requires k in cards
    ensures Total(cards[k := card]) == Total(cards) - cards[k].balance + card.balance
  {
    TotalRemove(cards, k);
    TotalRemove(cards[k := card], k);
    assert cards[k := card] - {k} == cards - {k};
  }

  /** Adding a card under a new id adds its balance to the total. */
  lemma TotalInsert(cards: Cards, k: CardId, card: Card)
    requires k !in cards
    ensures Total(cards[k := card]) == Total(cards) + card.balance
  {
    TotalRemove(cards[k := card], k);
    assert cards[k := card] - {k} == cards;
  }

  /** Removing an id takes its balance, if any, out of the total. */
  lemma TotalDelete(cards: Cards, k: CardId)
    ensures Total(cards - {k}) == Total(cards) - (if k in cards then cards[k].balance else 0)
  {
    if k in cards {
      TotalRemove(cards, k);
    } else {
      assert cards - {k} == cards;
    }
  }
}
