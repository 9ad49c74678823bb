/** The card entity and the constraints of its table (entity/Card.java). */
module CardEntity {
  import opened CardStatus

  type CardId = int
  type UserId = int

  /** Money in cents: the balance column has scale 2, so cents are exact. */
  type Cents = int

  /** An expiration date as year, month and day; nothing in the core compares or computes with dates. */
  datatype Date = Date(year: int, month: int, day: int)

  /** The owning user, as far as the card service sees it. */
  datatype User = User(id: UserId, username: string)

  /** A row of the cards table; `owner` is the required many-to-one user reference. */
  datatype Card = Card(
    id: CardId,
    cardNumber: string,
    ownerName: string,
    expirationDate: Date,
    status: Status,
    balance: Cents,
    owner: User)

  /** Length of the card_number column. */
  const CardNumberColumnLength: nat := 16

  /** Length of the owner_name column. */
  const OwnerNameColumnLength: nat := 100

  /** Largest magnitude a decimal(19, 2) column holds, in cents: nineteen nines. */
  const MaxBalance: Cents := 9_999_999_999_999_999_999

  /** The balance a card has before anything sets it. */
  const DefaultBalance: Cents := 0

  predicate FitsBalanceColumn(balance: Cents) {
    -MaxBalance <= balance <= MaxBalance
  }

  predicate IsDecimalDigit(ch: char) {
    '0' <= ch <= '9'
  }

  /** A card number as issued: exactly sixteen decimal digits. */
  predicate IsCardNumber(s: string) {
    |s| == 16 && forall i :: 0 <= i < |s| ==> IsDecimalDigit(s[i])
  }

  /**
   * The per-row column constraints of the cards table. A sixteen-digit
   * number exactly fills its column, so a card with such a number, a short
   * enough owner name and a non-negative balance below the column's limit
   * always fits.
   */
  predicate FitsColumns(card: Card): (fits: bool)
    ensures (IsCardNumber(card.cardNumber) && |card.ownerName| <= OwnerNameColumnLength
             && 0 <= card.balance <= MaxBalance) ==> fits
    ensures fits ==> card.balance < 10_000_000_000_000_000_000
  {
    && |card.cardNumber| <= CardNumberColumnLength
    && |card.ownerName| <= OwnerNameColumnLength
    && FitsBalanceColumn(card.balance)
  }
}
