/**
 * The create-card request and its declarative validation (dto/CardRequestDto.java).
 * Every field is a Java reference and may be null, hence Option.
 */
module CardRequests {
  import opened Wrappers
  import opened CardEntity

  datatype CardRequest = CardRequest(
    cardNumber: Option<string>,
    ownerName: Option<string>,
    expirationDate: Option<Date>,
    initialBalance: Option<Cents>,
    userId: Option<UserId>)

  /** @NotBlank: present, and something other than whitespace is left after trimming. */
  predicate NotBlank(s: Option<string>) {
    s.Some? && exists i :: 0 <= i < |s.value| && s.value[i] > ' '
  }

  /** @Pattern accepts a missing value; only a present one must match. */
  predicate MatchesCardNumberPattern(s: Option<string>) {
    s.None? || IsCardNumber(s.value)
  }

  /** @Positive accepts a missing value; only a present one must exceed zero. */
  predicate PositiveOrAbsent(x: Option<Cents>) {
    x.None? || x.value > 0
  }

  /**
   * The request passes every constraint annotation of CardRequestDto. A valid
   * number exactly fills the card_number column.
   */
  predicate ValidCardRequest(r: CardRequest): (valid: bool)
    ensures valid ==> r.cardNumber.Some? && |r.cardNumber.value| == CardNumberColumnLength
    ensures valid ==> NotBlank(r.ownerName) && r.initialBalance.Some? && r.initialBalance.value >= 1
  {
    && NotBlank(r.cardNumber) && MatchesCardNumberPattern(r.cardNumber)
    && NotBlank(r.ownerName)
    && r.expirationDate.Some?
    && r.initialBalance.Some? && PositiveOrAbsent(r.initialBalance)
    && r.userId.Some?
  }

  /** A sixteen-digit number is never blank: the pattern subsumes @NotBlank. */
  lemma CardNumberIsNotBlank(s: string)
    requires IsCardNumber(s)
    ensures NotBlank(Some(s))
  {
    assert IsDecimalDigit(s[0]);
  }

  /** What a valid request guarantees the service. */
  lemma ValidCardRequestGuarantees(r: CardRequest)
    requires ValidCardRequest(r)
    ensures r.cardNumber.Some? && IsCardNumber(r.cardNumber.value)
    ensures |r.cardNumber.value| == CardNumberColumnLength
    ensures NotBlank(r.ownerName)
    ensures r.expirationDate.Some? && r.userId.Some?
    ensures r.initialBalance.Some? && r.initialBalance.value > 0
  {
  }

  /** Each annotation on its own can reject a request. */
  lemma ValidCardRequestRejects(r: CardRequest)
    ensures r.cardNumber.Some? && |r.cardNumber.value| != 16 ==> !ValidCardRequest(r)
    ensures r.ownerName.Some? && (forall i :: 0 <= i < |r.ownerName.value| ==> r.ownerName.value[i] <= ' ')
            ==> !ValidCardRequest(r)
    ensures r.initialBalance.Some? && r.initialBalance.value <= 0 ==> !ValidCardRequest(r)
    ensures r.expirationDate.None? || r.userId.None? ==> !ValidCardRequest(r)
  {
  }
}
