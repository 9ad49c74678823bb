/**
 * The exceptions the card service raises, as values. The message text is
 * left out; what the message identifies (a card, a side, a status) is kept.
 */
module ServiceErrors {
  import opened CardStatus
  import opened CardEntity

  /** Why a TransferNotAllowedException was raised. */
  datatype Refusal =
    | SourceNotOwned
    | TargetNotOwned
    | SameCard
    | SourceNotActive(status: Status)
    | TargetNotActive(status: Status)
    | NonPositiveAmount

  datatype ServiceError =
    | CardNotFound(cardId: CardId)
    | UserNotFound(userId: UserId)
    | AccessDenied
    | TransferNotAllowed(reason: Refusal)
    | InsufficientFunds(cardId: CardId, available: Cents, required: Cents)
      /** The database refused to store a row (unique number, column length or precision). */
    | ConstraintViolation
}
