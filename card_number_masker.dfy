/** The display form of a card number (util/CardNumberMasker.java). */
module CardNumberMasker {

  /** Fifteen characters that stand for the hidden digits and their grouping. */
  const MaskPrefix: string := "**** **** **** "

  /**
   * maskCardNumber: the fixed prefix followed by the last four characters.
   * The number must have at least four characters, or taking its last four
   * would fail.
   */
  function MaskCardNumber(cardNumber: string): (masked: string)
    requires |cardNumber| >= 4
    ensures |masked| == 19
    ensures masked[..15] == MaskPrefix
    ensures masked[15..] == cardNumber[|cardNumber| - 4..]
    ensures forall i :: 0 <= i < 15 ==> masked[i] == '*' || masked[i] == ' '
  {
    MaskPrefix + cardNumber[|cardNumber| - 4..]
  }

  /** Two numbers mask alike exactly when their last four characters agree. */
  lemma MaskDependsOnlyOnLastFour(a: string, b: string)
    requires |a| >= 4 && |b| >= 4
    ensures MaskCardNumber(a) == MaskCardNumber(b) <==> a[|a| - 4..] == b[|b| - 4..]
  {
    var ma, mb := MaskCardNumber(a), MaskCardNumber(b);
    if ma == mb {
      assert ma[15..] == mb[15..];
    }
  }

  /** Masking a masked number changes nothing. */
  lemma MaskIdempotent(cardNumber: string)
    requires |cardNumber| >= 4
    ensures MaskCardNumber(MaskCardNumber(cardNumber)) == MaskCardNumber(cardNumber)
  {
    var m := MaskCardNumber(cardNumber);
    assert m[|m| - 4..] == m[15..];
    MaskDependsOnlyOnLastFour(m, cardNumber);
  }

  lemma MaskExample()
    ensures MaskCardNumber("1234567890123456") == "**** **** **** 3456"
  {
  }
}
