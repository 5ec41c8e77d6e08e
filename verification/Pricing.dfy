/** Integer prices. The charge of a request is rounded up per direction, and a
    reservation estimated before the request bounds the charge made after it. */
module Pricing {

  datatype PriceCard = PriceCard(inputRate: nat, outputRate: nat, fixedCharge: nat, margin: nat)

  const MILLION: nat := 1_000_000

  /** One direction's charge: tokens times rate, per million, rounded up. */
  function RoundedUp(product: nat): nat {
    (product + 999_999) / MILLION
  }

  function Charge(card: PriceCard, inputTokens: nat, outputTokens: nat, includeMargin: bool): nat {
    card.fixedCharge + RoundedUp(inputTokens * card.inputRate) + RoundedUp(outputTokens * card.outputRate)
      + if includeMargin then card.margin else 0
  }

  /** One token for every three characters, and never none. */
  function EstimatedInputTokens(inputSize: nat): nat {
    if (inputSize + 2) / 3 > 1 then (inputSize + 2) / 3 else 1
  }

  function EstimateMaxCharge(card: PriceCard, inputSize: nat, maxOutputTokens: nat): nat {
    Charge(card, EstimatedInputTokens(inputSize), maxOutputTokens, true)
  }

  lemma RoundedUpTight(product: nat)
    ensures product <= MILLION * RoundedUp(product) < product + MILLION
  {
  }

  lemma RoundedUpMonotone(a: nat, b: nat)
    requires a <= b
    ensures RoundedUp(a) <= RoundedUp(b)
  {
  }

  lemma ProductMonotone(a: nat, b: nat, rate: nat)
    requires a <= b
    ensures a * rate <= b * rate
  {
    assert b * rate == a * rate + (b - a) * rate;
  }

  /** Apart from the fixed and margin parts, a charge is at least the exact price
      and less than two micro-USD above it. */
  lemma ChargeTight(card: PriceCard, inputTokens: nat, outputTokens: nat, includeMargin: bool)
    ensures var exact := inputTokens * card.inputRate + outputTokens * card.outputRate;
      var rounded := Charge(card, inputTokens, outputTokens, includeMargin) - card.fixedCharge
        - (if includeMargin then card.margin else 0);
      exact <= MILLION * rounded < exact + 2 * MILLION
  {
    RoundedUpTight(inputTokens * card.inputRate);
    RoundedUpTight(outputTokens * card.outputRate);
  }

  /** A charge never falls when either token count rises. */
  lemma ChargeMonotone(card: PriceCard, inputTokens: nat, outputTokens: nat, moreInput: nat, moreOutput: nat,
                       includeMargin: bool)
    requires inputTokens <= moreInput && outputTokens <= moreOutput
    ensures Charge(card, inputTokens, outputTokens, includeMargin) <= Charge(card, moreInput, moreOutput, includeMargin)
  {
    ProductMonotone(inputTokens, moreInput, card.inputRate);
    ProductMonotone(outputTokens, moreOutput, card.outputRate);
    RoundedUpMonotone(inputTokens * card.inputRate, moreInput * card.inputRate);
    RoundedUpMonotone(outputTokens * card.outputRate, moreOutput * card.outputRate);
  }

  /** The estimate counts at least a third of the characters, and no text is free. */
  lemma EstimateCoversText(inputSize: nat)
    ensures 3 * EstimatedInputTokens(inputSize) >= inputSize && EstimatedInputTokens(inputSize) >= 1
    ensures inputSize > 3 ==> 3 * EstimatedInputTokens(inputSize) < inputSize + 3
  {
  }

  /** A reply within the estimated input and the allowed output tokens is charged
      no more than was reserved for it, with the margin to spare. */
  lemma ReplyWithinReservation(card: PriceCard, inputSize: nat, maxOutputTokens: nat, inputTokens: nat, outputTokens: nat)
    requires inputTokens <= EstimatedInputTokens(inputSize) && outputTokens <= maxOutputTokens
    ensures Charge(card, inputTokens, outputTokens, false) + card.margin <= EstimateMaxCharge(card, inputSize, maxOutputTokens)
  {
    ChargeMonotone(card, inputTokens, outputTokens, EstimatedInputTokens(inputSize), maxOutputTokens, false);
  }

  /** A whole number of micro-USD is the least that covers so many millionths. */
  predicate LeastCovering(micro: nat, millionths: nat) {
    1_000_000 * micro >= millionths && (micro > 0 ==> 1_000_000 * (micro - 1) < millionths)
  }

  /** A charge is the fixed part, the margin if it is included, and for each direction
      the least whole amount that covers its tokens at its rate. */
  lemma ChargeExactly(card: PriceCard, inputTokens: nat, outputTokens: nat, includeMargin: bool, input: nat, output: nat)
    requires LeastCovering(input, inputTokens * card.inputRate) && LeastCovering(output, outputTokens * card.outputRate)
    ensures Charge(card, inputTokens, outputTokens, includeMargin)
         == card.fixedCharge + input + output + if includeMargin then card.margin else 0
  {
    LeastIsRounded(input, inputTokens * card.inputRate);
    LeastIsRounded(output, outputTokens * card.outputRate);
  }

  lemma LeastIsRounded(micro: nat, millionths: nat)
    requires LeastCovering(micro, millionths)
    ensures RoundedUp(millionths) == micro
  {
  }

  /** What is estimated for a request is that charge, margin included, for one token for
      every three characters, rounded up and at least one, and all the output allowed. */
  lemma EstimateExactly(card: PriceCard, inputSize: nat, maxOutputTokens: nat, tokens: nat)
    requires tokens >= 1 && 3 * tokens >= inputSize && (tokens > 1 ==> 3 * (tokens - 1) < inputSize)
    ensures EstimateMaxCharge(card, inputSize, maxOutputTokens) == Charge(card, tokens, maxOutputTokens, true)
  {
  }
}
