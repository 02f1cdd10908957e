/** `TokenModel`: the colour of a token's recent rate change and its fiat
    value for an amount. */
module TokenModel {
  import opened Base

  datatype ChangeColor = Gray2 | Green | Red

  datatype TokenModel = TokenModel(fiatRate: Option<real>, fiatSymbol: Option<string>, recentRateChange: Option<real>)

  /** `determineChangeColor`: gray without a change, green for a change
      that is not negative (zero included), red for a falling rate. */
  function DetermineChangeColor(t: TokenModel): (c: ChangeColor)
    ensures c == Gray2 <==> t.recentRateChange.None?
    ensures c == Green <==> t.recentRateChange.Some? && t.recentRateChange.value >= 0.0
    ensures c == Red <==> t.recentRateChange.Some? && t.recentRateChange.value < 0.0
  {
    match t.recentRateChange
    case None => Gray2
    case Some(change) => if change >= 0.0 then Green else Red
  }

  /** `fiatAmount`: the amount priced at the token's rate, absent exactly
      when the rate is. */
  function FiatAmount(t: TokenModel, tokenAmount: real): (r: Option<real>)
    ensures r.None? <==> t.fiatRate.None?
    ensures r.Some? ==> r.value == t.fiatRate.value * tokenAmount
  {
    match t.fiatRate
    case None => None
    case Some(rate) => Some(rate * tokenAmount)
  }

  /** The fiat value is linear in the amount: pricing two amounts apart and
      adding is pricing their sum, and a zero amount is worth zero. */
  lemma FiatAmountIsLinear(t: TokenModel, a: real, b: real)
    requires t.fiatRate.Some?
    ensures FiatAmount(t, a + b).value == FiatAmount(t, a).value + FiatAmount(t, b).value
    ensures FiatAmount(t, 0.0) == Some(0.0)
  {
    assert t.fiatRate.value * (a + b) == t.fiatRate.value * a + t.fiatRate.value * b;
  }

  /** The colour follows the sign: two changes of the same sign get the same
      colour, and a change and its negation differ in colour unless zero. */
  lemma ColorFollowsSign(t: TokenModel, u: TokenModel)
    requires t.recentRateChange.Some? && u.recentRateChange.Some?
    requires u.recentRateChange.value == -t.recentRateChange.value
    ensures t.recentRateChange.value != 0.0 ==> DetermineChangeColor(t) != DetermineChangeColor(u)
    ensures t.recentRateChange.value == 0.0 ==> DetermineChangeColor(t) == DetermineChangeColor(u) == Green
  {
  }
}
