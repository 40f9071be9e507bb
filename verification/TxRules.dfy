/** The transaction rules that are sums and running maxima: money in range, and BIP 68 relative locks. */
module TxRules {
  import opened Bytes
  import opened Coin

  // ----- relative locks ---------------------------------------------------------------------------

  const SEQUENCE_LOCKTIME_DISABLE_FLAG: bv32 := 0x8000_0000
  const SEQUENCE_LOCKTIME_TYPE_FLAG: bv32 := 0x0040_0000
  const SEQUENCE_LOCKTIME_MASK: bv32 := 0x0000_ffff

  /** What an input's lock is measured from. */
  datatype LockBase = LockBase(height: nat, medianTimePast: Option<nat>)

  datatype Input = Input(sequence: bv32, base: LockBase)

  /** The block a transaction is to go in, and the median time before it. */
  datatype Context = Context(height: nat, medianTimePast: nat, csvActive: bool)

  function LockValue(sequence: bv32): (v: nat)
    ensures v <= 0xffff
  {
    MaskIsSmall(sequence);
    (sequence & SEQUENCE_LOCKTIME_MASK) as nat
  }

  lemma MaskIsSmall(sequence: bv32)
    ensures sequence & 0x0000_ffff <= 0xffff
  {
  }

  predicate IsDisabled(input: Input) {
    input.sequence & SEQUENCE_LOCKTIME_DISABLE_FLAG != 0
  }

  predicate IsTimeLock(input: Input) {
    input.sequence & SEQUENCE_LOCKTIME_TYPE_FLAG != 0
  }

  /** A time lock comes with the time it is measured from. */
  predicate HasBase(input: Input) {
    !IsDisabled(input) && IsTimeLock(input) ==> input.base.medianTimePast.Some?
  }

  /**
    One input's lock as BIP 68 specifies it: so many blocks since the coin's, or so many times 512
    seconds since the median time before the coin's block.
   */
  ghost predicate LockMet(input: Input, context: Context)
    requires HasBase(input)
  {
    IsDisabled(input)
    || if IsTimeLock(input)
       then context.medianTimePast >= input.base.medianTimePast.value + 512 * LockValue(input.sequence)
       else context.height >= input.base.height + LockValue(input.sequence)
  }

  ghost predicate LocksMet(version: int, inputs: seq<Input>, context: Context)
    requires forall k :: 0 <= k < |inputs| ==> HasBase(inputs[k])
  {
    Bip68Applies(version) && context.csvActive ==>
      forall k :: 0 <= k < |inputs| ==> LockMet(inputs[k], context)
  }

  /** The version read as the unsigned number it is stored as. */
  predicate Bip68Applies(version: int) {
    var unsigned := if version < 0 then version + U32_LIMIT else version;
    unsigned >= 2
  }

  /** The flags and the value of a sequence number in 32-bit arithmetic: its top bit, bit 22, its low sixteen bits. */
  lemma SequenceIs(input: Input)
    ensures IsDisabled(input) <==> input.sequence >= 0x8000_0000
    ensures IsTimeLock(input) <==> input.sequence / 0x40_0000 % 2 == 1
    ensures LockValue(input.sequence) == (input.sequence % 0x1_0000) as nat
  {
  }

  /** The rule is for versions of two and up, and for the negative ones, which are large when unsigned. */
  lemma VersionIs(version: int)
    requires -0x8000_0000 <= version < 0x8000_0000
    ensures Bip68Applies(version) <==> version < 0 || version >= 2
  {
  }

  function Max(a: int, b: int): int { if a < b then b else a }

  /** Core's two running maxima, each the last height or time at which some lock is still shut. */
  method SequenceLocksSatisfied(version: int, inputs: seq<Input>, context: Context) returns (ok: bool)
    requires forall k :: 0 <= k < |inputs| ==> HasBase(inputs[k])
    ensures ok <==> LocksMet(version, inputs, context)
  {
    if !Bip68Applies(version) || !context.csvActive {
      return true;
    }
    var heightMin, timeMin := -1, -1;
    for i := 0 to |inputs|
      invariant heightMin < context.height && timeMin < context.medianTimePast
                <==> forall k :: 0 <= k < i ==> LockMet(inputs[k], context)
    {
      var input := inputs[i];
      if !IsDisabled(input) {
        var value := LockValue(input.sequence);
        if IsTimeLock(input) {
          var lock := input.base.medianTimePast.value + value * 512 - 1;
          timeMin := Max(timeMin, lock);
        } else {
          var lock := input.base.height + value - 1;
          heightMin := Max(heightMin, lock);
        }
      }
    }
    ok := heightMin < context.height && timeMin < context.medianTimePast;
  }

  /** A transaction whose locks are met stays good in every later block. */
  lemma LocksStayMet(version: int, inputs: seq<Input>, now: Context, later: Context)
    requires forall k :: 0 <= k < |inputs| ==> HasBase(inputs[k])
    requires now.height <= later.height && now.medianTimePast <= later.medianTimePast
    requires now.csvActive == later.csvActive
    requires LocksMet(version, inputs, now)
    ensures LocksMet(version, inputs, later)
  {
    if Bip68Applies(version) && later.csvActive {
      forall k | 0 <= k < |inputs| ensures LockMet(inputs[k], later) {
        assert LockMet(inputs[k], now);
        hide LockValue;
      }
    }
  }

  // ----- money ------------------------------------------------------------------------------------

  const COINBASE_MATURITY: nat := 100

  datatype TxError =
    | VoutNegative(index: nat)
    | VoutTooLarge(index: nat)
    | TxOutTotalTooLarge(index: nat)
    | PrematureCoinbaseSpend(input: nat, depth: nat)
    | InputValuesOutOfRange(input: nat)
    | InBelowOut(valueIn: nat, valueOut: nat)

  type Checked<T> = Fallible<T, TxError>

  ghost function Total(values: seq<nat>): nat {
    if |values| == 0 then 0 else Total(values[..|values| - 1]) + values[|values| - 1]
  }

  ghost predicate InMoneyRange(values: seq<nat>) {
    Total(values) <= MAX_MONEY && forall k :: 0 <= k < |values| ==> values[k] <= MAX_MONEY
  }

  lemma {:induction false} PrefixTotals(values: seq<nat>, i: nat)
    requires i <= |values|
    ensures Total(values[..i]) <= Total(values)
    decreases |values|
  {
    if i < |values| {
      PrefixTotals(values[..|values| - 1], i);
      assert values[..|values| - 1][..i] == values[..i];
    } else {
      assert values[..i] == values;
    }
  }

  lemma OneMoreTotal(values: seq<nat>, i: nat)
    requires i < |values|
    ensures Total(values[..i + 1]) == Total(values[..i]) + values[i]
  {
    assert values[..i + 1][..i] == values[..i];
  }

  /** Once a prefix is out of range the whole is. */
  lemma OutOfRangeStays(values: seq<nat>, i: nat)
    requires i <= |values| && !InMoneyRange(values[..i])
    ensures !InMoneyRange(values)
  {
    PrefixTotals(values, i);
    hide Total;
    if Total(values[..i]) <= MAX_MONEY {
      var k :| 0 <= k < i && values[..i][k] > MAX_MONEY;
      assert values[k] > MAX_MONEY;
    }
  }

  lemma InRangeGrows(values: seq<nat>, i: nat)
    requires i < |values| && InMoneyRange(values[..i])
    ensures InMoneyRange(values[..i + 1]) <==> values[i] <= MAX_MONEY && Total(values[..i]) + values[i] <= MAX_MONEY
  {
    OneMoreTotal(values, i);
    hide Total;
    assert values[..i + 1][i] == values[i];
    assert forall k :: 0 <= k < i ==> values[..i + 1][k] == values[..i][k];
  }

  /** The first output that takes the values out of range, and how. */
  ghost predicate FirstBadOutput(values: seq<nat>, error: TxError) {
    match error
    case VoutNegative(i) => i < |values| && InMoneyRange(values[..i]) && values[i] >= 0x8000_0000_0000_0000
    case VoutTooLarge(i) =>
      i < |values| && InMoneyRange(values[..i]) && MAX_MONEY < values[i] < 0x8000_0000_0000_0000
    case TxOutTotalTooLarge(i) =>
      && i < |values| && InMoneyRange(values[..i]) && values[i] <= MAX_MONEY
      && !InMoneyRange(values[..i + 1])
    case _ => false
  }

  method CheckOutputValues(values: seq<nat>) returns (r: Checked<()>)
    requires |values| > 0 && forall k :: 0 <= k < |values| ==> values[k] < U64_LIMIT
    ensures r.Ok? <==> InMoneyRange(values)
    ensures r.Err? ==> FirstBadOutput(values, r.error)
  {
    hide InMoneyRange;
    var total: nat := 0;
    NothingInRange(values);
    for index := 0 to |values|
      invariant total == Total(values[..index]) <= MAX_MONEY && InMoneyRange(values[..index])
    {
      var value := values[index];
      InRangeGrows(values, index);
      OneMoreTotal(values, index);
      if !InMoneyRange(values[..index + 1]) {
        OutOfRangeStays(values, index + 1);
      }
      if value >= 0x8000_0000_0000_0000 {
        return Err(VoutNegative(index));
      }
      if value > MAX_MONEY {
        return Err(VoutTooLarge(index));
      }
      assert total + value < U64_LIMIT;
      total := total + value;
      if total > MAX_MONEY {
        return Err(TxOutTotalTooLarge(index));
      }
    }
    assert values[..|values|] == values;
    return Ok(());
  }

  lemma NothingInRange(values: seq<nat>)
    ensures Total(values[..0]) == 0 && InMoneyRange(values[..0])
  {
  }

  method ValueOut(values: seq<nat>) returns (total: nat)
    requires InMoneyRange(values)
    ensures total == Total(values) <= MAX_MONEY
  {
    total := 0;
    for i := 0 to |values|
      invariant total == Total(values[..i])
    {
      OneMoreTotal(values, i);
      PrefixTotals(values, i + 1);
      total := total + values[i];
      assert total <= MAX_MONEY;
    }
    assert values[..|values|] == values;
  }

  ghost function ValuesOf(coins: seq<StoredCoin>): (v: seq<nat>)
    ensures |v| == |coins|
  {
    seq(|coins|, k requires 0 <= k < |coins| => coins[k].value)
  }

  ghost predicate Mature(coin: StoredCoin, height: nat) {
    coin.coinbase ==> coin.height + COINBASE_MATURITY <= height
  }

  /** Inputs that can be spent at a height: old enough, and in range together. */
  ghost predicate Spendable(coins: seq<StoredCoin>, height: nat) {
    InMoneyRange(ValuesOf(coins)) && forall k :: 0 <= k < |coins| ==> Mature(coins[k], height)
  }

  /** The first input refused, and why; or, with every input good, outputs beyond them. */
  ghost predicate FirstBadInput(coins: seq<StoredCoin>, outputs: seq<nat>, height: nat, error: TxError) {
    match error
    case PrematureCoinbaseSpend(i, depth) =>
      && i < |coins| && Spendable(coins[..i], height) && !Mature(coins[i], height)
      && coins[i].height + depth == height
    case InputValuesOutOfRange(i) =>
      && i < |coins| && Spendable(coins[..i], height) && Mature(coins[i], height)
      && !InMoneyRange(ValuesOf(coins[..i + 1]))
    case InBelowOut(valueIn, valueOut) =>
      && Spendable(coins, height) && valueIn == Total(ValuesOf(coins)) && valueOut == Total(outputs)
      && valueIn < valueOut
    case _ => false
  }

  /** Every coin good and the outputs covered: the fee is what is left, and nothing is made or lost. */
  method CheckTxInputs(coins: seq<StoredCoin>, outputs: seq<nat>, height: nat) returns (r: Checked<nat>)
    requires InMoneyRange(outputs)
    requires forall k :: 0 <= k < |coins| ==> coins[k].height <= height && coins[k].value < U64_LIMIT
    ensures r.Ok? <==> Spendable(coins, height) && Total(outputs) <= Total(ValuesOf(coins))
    ensures r.Ok? ==> Total(ValuesOf(coins)) == Total(outputs) + r.value && r.value <= MAX_MONEY
    ensures r.Err? ==> FirstBadInput(coins, outputs, height, r.error)
  {
    hide InMoneyRange, Total, ValuesOf, Spendable;
    var valueIn: nat := 0;
    NothingSpent(coins, height);
    for i := 0 to |coins|
      invariant valueIn == Total(ValuesOf(coins[..i])) <= MAX_MONEY && Spendable(coins[..i], height)
    {
      var coin := coins[i];
      OneMoreCoin(coins, height, i);
      if coin.coinbase {
        var depth := height - coin.height;
        if depth < COINBASE_MATURITY {
          return Err(PrematureCoinbaseSpend(i, depth));
        }
      }
      if coin.value > MAX_MONEY {
        return Err(InputValuesOutOfRange(i));
      }
      assert valueIn + coin.value < U64_LIMIT;
      valueIn := valueIn + coin.value;
      if valueIn > MAX_MONEY {
        return Err(InputValuesOutOfRange(i));
      }
    }
    assert coins[..|coins|] == coins;
    var valueOut := ValueOut(outputs);
    if valueIn < valueOut {
      return Err(InBelowOut(valueIn, valueOut));
    }
    return Ok(valueIn - valueOut);
  }

  lemma NothingSpent(coins: seq<StoredCoin>, height: nat)
    ensures Total(ValuesOf(coins[..0])) == 0 && Spendable(coins[..0], height)
  {
  }

  lemma OneMoreCoin(coins: seq<StoredCoin>, height: nat, i: nat)
    requires i < |coins| && Spendable(coins[..i], height)
    ensures Total(ValuesOf(coins[..i + 1])) == Total(ValuesOf(coins[..i])) + coins[i].value
    ensures InMoneyRange(ValuesOf(coins[..i + 1]))
            <==> coins[i].value <= MAX_MONEY && Total(ValuesOf(coins[..i])) + coins[i].value <= MAX_MONEY
    ensures Spendable(coins[..i + 1], height)
            <==> InMoneyRange(ValuesOf(coins[..i + 1])) && Mature(coins[i], height)
    ensures !Spendable(coins[..i + 1], height) ==> !Spendable(coins, height)
  {
    var values := ValuesOf(coins);
    assert values[..i] == ValuesOf(coins[..i]) && values[..i + 1] == ValuesOf(coins[..i + 1]);
    OneMoreTotal(values, i);
    InRangeGrows(values, i);
    if !InMoneyRange(values[..i + 1]) {
      OutOfRangeStays(values, i + 1);
    }
    hide InMoneyRange, Total, ValuesOf;
    assert forall k :: 0 <= k < i ==> coins[..i][k] == coins[k] == coins[..i + 1][k];
  }
}
