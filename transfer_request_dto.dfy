/** The transfer request and its declarative validation (dto/TransferRequestDto.java). */
module TransferRequests {
  import opened Wrappers
  import opened CardEntity

  datatype TransferRequest = TransferRequest(
    fromCardId: Option<CardId>,
    toCardId: Option<CardId>,
    amount: Option<Cents>)

  /** The three @NotNull constraints. */
  predicate Complete(r: TransferRequest) {
    r.fromCardId.Some? && r.toCardId.Some? && r.amount.Some?
  }

  /** @NotNull on every field and @Positive on the amount: at least one cent is moved. */
  predicate ValidTransferRequest(r: TransferRequest): (valid: bool)
    ensures valid ==> Complete(r) && r.amount.value >= 1
  {
    Complete(r) && r.amount.value > 0
  }

  /** A request is valid exactly when all fields are present and the amount exceeds zero. */
  lemma ValidTransferRequestExactly(r: TransferRequest)
    ensures ValidTransferRequest(r) ==> r.fromCardId.Some? && r.toCardId.Some? && r.amount.Some?
    ensures ValidTransferRequest(r) ==> r.amount.value > 0
    ensures Complete(r) && r.amount.value <= 0 ==> !ValidTransferRequest(r)
    ensures Complete(r) && r.amount.value > 0 ==> ValidTransferRequest(r)
  {
  }
}
