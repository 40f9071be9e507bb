/**
  The undo record: what connecting a block took out of the coin set, written so that
  disconnecting the block can put every coin back where it was.
 */
module Undo {
  import opened Bytes
  import opened Varint
  import opened Coin

  datatype OutPoint = OutPoint(txid: seq<byte>, vout: nat)

  ghost predicate IsOutPoint(o: OutPoint) {
    |o.txid| == 32 && o.vout < U32_LIMIT
  }

  datatype Tx = Tx(inputs: seq<OutPoint>)

  datatype Block = Block(txs: seq<Tx>)

  /** A coin of the set together with the place it sits at. */
  datatype PlacedCoin = PlacedCoin(outpoint: OutPoint, coin: StoredCoin)

  datatype UndoCoin = UndoCoin(input: nat, coin: StoredCoin)

  datatype UndoRecord = UndoRecord(spent: seq<UndoCoin>, overwritten: seq<PlacedCoin>)

  const MAX_BLOCK_INPUTS: nat := 4_000_000 / 4 / 41
  const MAX_BLOCK_OUTPUTS: nat := 4_000_000 / 4 / 9
  const MAX_UNDO_RECORD_BYTES: nat :=
    5 + MAX_BLOCK_INPUTS * (3 + MAX_COIN_BYTES) + 5 + MAX_BLOCK_OUTPUTS * (36 + MAX_COIN_BYTES)

  function Inputs(txs: seq<Tx>): seq<OutPoint> {
    if |txs| == 0 then [] else txs[0].inputs + Inputs(txs[1..])
  }

  /** The inputs of all transactions but the first, one list. */
  function Spends(block: Block): seq<OutPoint> {
    if |block.txs| == 0 then [] else Inputs(block.txs[1..])
  }

  /** How many inputs the transactions from the second up to, not including, the `t`-th have. */
  ghost function CountBefore(block: Block, t: nat): nat
    requires 0 < t <= |block.txs|
  {
    if t == 1 then 0 else CountBefore(block, t - 1) + |block.txs[t - 1].inputs|
  }

  lemma {:induction false} InputsSplit(txs: seq<Tx>, n: nat)
    requires n <= |txs|
    ensures Inputs(txs) == Inputs(txs[..n]) + Inputs(txs[n..])
    decreases n
  {
    if n > 0 {
      InputsSplit(txs[1..], n - 1);
      assert txs[..n][1..] == txs[1..][..n - 1] && txs[1..][n - 1..] == txs[n..];
    }
  }

  lemma {:induction false} CountIsLength(block: Block, t: nat)
    requires 0 < t <= |block.txs|
    ensures |Inputs(block.txs[1..t])| == CountBefore(block, t)
    decreases t
  {
    if t > 1 {
      CountIsLength(block, t - 1);
      InputsSplit(block.txs[1..t], t - 2);
      assert block.txs[1..t][..t - 2] == block.txs[1..t - 1];
      assert block.txs[1..t][t - 2..] == [block.txs[t - 1]];
      assert Inputs([block.txs[t - 1]]) == block.txs[t - 1].inputs + [];
    }
  }

  lemma HeadInputs(txs: seq<Tx>, j: nat)
    requires |txs| > 0 && j < |txs[0].inputs|
    ensures j < |Inputs(txs)| && Inputs(txs)[j] == txs[0].inputs[j]
  {
  }

  lemma SpendsCount(block: Block)
    requires |block.txs| > 0
    ensures |Spends(block)| == CountBefore(block, |block.txs|)
  {
    CountIsLength(block, |block.txs|);
    assert block.txs[1..|block.txs|] == block.txs[1..];
  }

  /** The first transaction spends nothing; input `j` of a later one stands behind all inputs before it. */
  lemma SpendsAre(block: Block, t: nat, j: nat)
    requires 0 < t < |block.txs| && j < |block.txs[t].inputs|
    ensures |Spends(block)| == CountBefore(block, |block.txs|)
    ensures CountBefore(block, t) + j < |Spends(block)|
    ensures Spends(block)[CountBefore(block, t) + j] == block.txs[t].inputs[j]
  {
    hide Inputs, CountBefore;
    SpendsCount(block);
    var txs := block.txs[1..];
    CountIsLength(block, t);
    InputsSplit(txs, t - 1);
    assert txs[..t - 1] == block.txs[1..t] && txs[t - 1..][0] == block.txs[t];
    HeadInputs(txs[t - 1..], j);
  }

  // ----- which input took which coin --------------------------------------------------------------

  /** `at` picks the coins of `spent` out of `outpoints`, going forward. */
  ghost predicate Picks(at: seq<nat>, spent: seq<PlacedCoin>, outpoints: seq<OutPoint>) {
    && |at| == |spent|
    && (forall k :: 0 <= k < |at| ==> at[k] < |outpoints| && outpoints[at[k]] == spent[k].outpoint)
    && (forall j, k :: 0 <= j < k < |at| ==> at[j] < at[k])
  }

  /** The coins are in the order of the inputs, some inputs left out. */
  ghost predicate Follows(spent: seq<PlacedCoin>, outpoints: seq<OutPoint>) {
    exists at :: Picks(at, spent, outpoints)
  }

  ghost function InputsOf(spent: seq<UndoCoin>): (at: seq<nat>)
    ensures |at| == |spent|
  {
    seq(|spent|, k requires 0 <= k < |spent| => spent[k].input)
  }

  /** The record speaks for these two lists of the delta, and for this block. */
  ghost predicate Records(r: UndoRecord, spent: seq<PlacedCoin>, overwritten: seq<PlacedCoin>, block: Block) {
    && r.overwritten == overwritten
    && Picks(InputsOf(r.spent), spent, Spends(block))
    && (forall k :: 0 <= k < |r.spent| ==> r.spent[k].coin == spent[k].coin)
  }

  lemma {:induction false} PicksGoForward(at: seq<nat>, spent: seq<PlacedCoin>, outpoints: seq<OutPoint>, k: nat)
    requires Picks(at, spent, outpoints) && k < |at|
    ensures k <= at[k]
  {
    if k > 0 {
      PicksGoForward(at, spent, outpoints, k - 1);
      assert at[k - 1] < at[k];
    }
  }

  /** The forward search's choices: each coin's input, none later than any other pairing has it. */
  ghost predicate Greedy(at: seq<nat>, spent: seq<PlacedCoin>, outpoints: seq<OutPoint>) {
    && |at| <= |spent|
    && Picks(at, spent[..|at|], outpoints)
    && (forall other | Picks(other, spent, outpoints) :: NoLater(at, other))
  }

  ghost predicate NoLater(at: seq<nat>, other: seq<nat>) {
    |at| <= |other| && forall k :: 0 <= k < |at| ==> at[k] <= other[k]
  }

  ghost function After(at: seq<nat>): nat {
    if |at| == 0 then 0 else at[|at| - 1] + 1
  }

  /** No pairing has the next coin's input between the cursor and the first match. */
  lemma NextIsGreedy(at: seq<nat>, spent: seq<PlacedCoin>, outpoints: seq<OutPoint>, index: nat)
    requires Greedy(at, spent, outpoints) && |at| < |spent| && After(at) <= index <= |outpoints|
    requires forall j :: After(at) <= j < index ==> outpoints[j] != spent[|at|].outpoint
    ensures index == |outpoints| ==> !Follows(spent, outpoints)
    ensures index < |outpoints| && outpoints[index] == spent[|at|].outpoint ==>
              Greedy(at + [index], spent, outpoints)
  {
    forall other | Picks(other, spent, outpoints)
      ensures other[|at|] >= index && NoLater(at, other)
    {
      assert NoLater(at, other);
      if |at| > 0 {
        assert other[|at| - 1] < other[|at|];
      }
      assert outpoints[other[|at|]] == spent[|at|].outpoint;
    }
    if index < |outpoints| && outpoints[index] == spent[|at|].outpoint {
      assert spent[..|at| + 1] == spent[..|at|] + [spent[|at|]];
      assert forall other | Picks(other, spent, outpoints) :: NoLater(at + [index], other);
    }
  }

  /** The one forward pass, `None` where one of its assertions stops it. */
  method Of(spent: seq<PlacedCoin>, overwritten: seq<PlacedCoin>, block: Block)
    returns (r: Option<UndoRecord>)
    ensures r.Some? <==> Follows(spent, Spends(block))
    ensures r.Some? ==> Records(r.value, spent, overwritten, block)
  {
    hide Greedy, Picks, Spends, Inputs;
    var outpoints := Spends(block);
    if |spent| > |outpoints| {
      TooManyCoins(spent, outpoints);
      return None;
    }
    var coins: seq<UndoCoin> := [];
    var cursor: nat := 0;
    GreedyStarts(spent, outpoints);
    for i := 0 to |spent|
      invariant |coins| == i && cursor == After(InputsOf(coins))
      invariant cursor <= |outpoints|
      invariant Greedy(InputsOf(coins), spent, outpoints)
      invariant forall k :: 0 <= k < i ==> coins[k].coin == spent[k].coin
    {
      var index: nat := cursor;
      while index < |outpoints| && outpoints[index] != spent[i].outpoint
        invariant cursor <= index <= |outpoints|
        invariant forall j :: cursor <= j < index ==> outpoints[j] != spent[i].outpoint
      {
        index := index + 1;
      }
      NextIsGreedy(InputsOf(coins), spent, outpoints, index);
      if index >= |outpoints| {
        return None;
      }
      assert InputsOf(coins + [UndoCoin(index, spent[i].coin)]) == InputsOf(coins) + [index];
      coins := coins + [UndoCoin(index, spent[i].coin)];
      cursor := index + 1;
    }
    GreedyEnds(InputsOf(coins), spent, outpoints);
    r := Some(UndoRecord(coins, overwritten));
  }

  lemma TooManyCoins(spent: seq<PlacedCoin>, outpoints: seq<OutPoint>)
    requires |spent| > |outpoints|
    ensures !Follows(spent, outpoints)
  {
    if at :| Picks(at, spent, outpoints) {
      PicksGoForward(at, spent, outpoints, |at| - 1);
      assert false;
    }
  }

  lemma GreedyStarts(spent: seq<PlacedCoin>, outpoints: seq<OutPoint>)
    ensures Greedy(InputsOf([]), spent, outpoints)
  {
  }

  lemma GreedyEnds(at: seq<nat>, spent: seq<PlacedCoin>, outpoints: seq<OutPoint>)
    requires Greedy(at, spent, outpoints) && |at| == |spent|
    ensures Picks(at, spent, outpoints) && Follows(spent, outpoints)
  {
    assert spent[..|at|] == spent;
  }

  // ----- pairing a record with its block ----------------------------------------------------------

  ghost function Pairing(spent: seq<UndoCoin>, outpoints: seq<OutPoint>): Result<seq<PlacedCoin>> {
    if |spent| == 0 then Ok([])
    else
      var last := spent[|spent| - 1];
      match Pairing(spent[..|spent| - 1], outpoints)
      case Err(error) => Err(error)
      case Ok(front) =>
        if last.input < |outpoints| then Ok(front + [PlacedCoin(outpoints[last.input], last.coin)])
        else Err(TooLong(last.input, |outpoints|))
  }

  method Resolve(r: UndoRecord, block: Block) returns (restored: Result<seq<PlacedCoin>>)
    ensures match Pairing(r.spent, Spends(block))
            case Ok(spent) => restored == Ok(spent + r.overwritten)
            case Err(error) => restored == Err(error)
  {
    hide Spends, Inputs;
    var outpoints := Spends(block);
    var coins: seq<PlacedCoin> := [];
    for i := 0 to |r.spent|
      invariant Pairing(r.spent[..i], outpoints) == Ok(coins)
    {
      var entry := r.spent[i];
      assert r.spent[..i + 1][..i] == r.spent[..i];
      if entry.input >= |outpoints| {
        PairingStops(r.spent, outpoints, i + 1);
        return Err(TooLong(entry.input, |outpoints|));
      }
      coins := coins + [PlacedCoin(outpoints[entry.input], entry.coin)];
    }
    assert r.spent[..|r.spent|] == r.spent;
    restored := Ok(coins + r.overwritten);
  }

  /** The first error is the answer. */
  lemma {:induction false} PairingStops(spent: seq<UndoCoin>, outpoints: seq<OutPoint>, i: nat)
    requires i <= |spent| && Pairing(spent[..i], outpoints).Err?
    ensures Pairing(spent, outpoints) == Pairing(spent[..i], outpoints)
    decreases |spent|
  {
    if i < |spent| {
      var front := spent[..|spent| - 1];
      assert front[..i] == spent[..i];
      PairingStops(front, outpoints, i);
    } else {
      assert spent[..i] == spent;
    }
  }

  lemma {:induction false} PairingUndoesOf(
    entries: seq<UndoCoin>, spent: seq<PlacedCoin>, outpoints: seq<OutPoint>)
    requires Picks(InputsOf(entries), spent, outpoints)
    requires forall k :: 0 <= k < |entries| ==> entries[k].coin == spent[k].coin
    ensures Pairing(entries, outpoints) == Ok(spent)
    decreases |entries|
  {
    if |entries| > 0 {
      var n := |entries| - 1;
      assert InputsOf(entries[..n]) == InputsOf(entries)[..n];
      PairingUndoesOf(entries[..n], spent[..n], outpoints);
      assert InputsOf(entries)[n] == entries[n].input;
      assert spent == spent[..n] + [spent[n]];
    }
  }

  // ----- the bytes --------------------------------------------------------------------------------

  ghost function SpentBytes(spent: seq<UndoCoin>): seq<byte> {
    if |spent| == 0 then []
    else Encode(spent[0].input) + CoinBytes(spent[0].coin) + SpentBytes(spent[1..])
  }

  function OutPointBytes(o: OutPoint): seq<byte>
    requires o.vout < U32_LIMIT
  {
    o.txid + PutU32(o.vout)
  }

  ghost function PlacedBytes(coins: seq<PlacedCoin>): seq<byte>
    requires PlacedInRange(coins)
  {
    if |coins| == 0 then []
    else OutPointBytes(coins[0].outpoint) + CoinBytes(coins[0].coin) + PlacedBytes(coins[1..])
  }

  ghost predicate Ascends(spent: seq<UndoCoin>, above: int) {
    |spent| > 0 ==> spent[0].input > above && Ascends(spent[1..], spent[0].input)
  }

  ghost predicate SpentInRange(spent: seq<UndoCoin>) {
    forall k :: 0 <= k < |spent| ==> spent[k].input <= MAX_BLOCK_INPUTS && InRange(spent[k].coin)
  }

  ghost predicate PlacedInRange(coins: seq<PlacedCoin>) {
    forall k :: 0 <= k < |coins| ==> IsOutPoint(coins[k].outpoint) && InRange(coins[k].coin)
  }

  /** What the decoder accepts: bounded, in range, input indices strictly ascending. */
  ghost predicate WellFormed(r: UndoRecord) {
    && |r.spent| <= MAX_BLOCK_INPUTS && SpentInRange(r.spent) && Ascends(r.spent, -1)
    && |r.overwritten| <= MAX_BLOCK_OUTPUTS && PlacedInRange(r.overwritten)
  }

  ghost function RecordBytes(r: UndoRecord): seq<byte>
    requires PlacedInRange(r.overwritten)
  {
    Encode(|r.spent|) + SpentBytes(r.spent) + Encode(|r.overwritten|) + PlacedBytes(r.overwritten)
  }

  ghost function Cons<T>(first: T, p: Parsed<seq<T>>): Parsed<seq<T>> {
    match p
    case Parsed(value, rest) => Parsed([first] + value, rest)
    case Failed(error) => Failed(error)
  }

  /** `count` input indices with their coins, each index above the one before it. */
  ghost function SpentAt(s: seq<byte>, count: nat, previous: int): Parsed<seq<UndoCoin>>
    decreases count
  {
    if count == 0 then Parsed([], s)
    else
      match DecodeCount(s, MAX_BLOCK_INPUTS)
      case Failed(error) => Failed(error)
      case Parsed(input, afterInput) =>
        if input <= previous then Failed(NotAscending(input))
        else
          match CoinAt(afterInput)
          case Failed(error) => Failed(error)
          case Parsed(coin, rest) => Cons(UndoCoin(input, coin), SpentAt(rest, count - 1, input))
  }

  ghost function PlacedAt(s: seq<byte>, count: nat): Parsed<seq<PlacedCoin>>
    decreases count
  {
    if count == 0 then Parsed([], s)
    else
      match DecodeBytes(s, 32)
      case Failed(error) => Failed(error)
      case Parsed(txid, afterTxid) =>
        match DecodeU32(afterTxid)
        case Failed(error) => Failed(error)
        case Parsed(vout, afterVout) =>
          match CoinAt(afterVout)
          case Failed(error) => Failed(error)
          case Parsed(coin, rest) =>
            Cons(PlacedCoin(OutPoint(txid, vout), coin), PlacedAt(rest, count - 1))
  }

  ghost function RecordOf(s: seq<byte>): Result<UndoRecord> {
    match DecodeCount(s, MAX_BLOCK_INPUTS)
    case Failed(error) => Err(error)
    case Parsed(count, afterCount) =>
      match SpentAt(afterCount, count, -1)
      case Failed(error) => Err(error)
      case Parsed(spent, afterSpent) =>
        match DecodeCount(afterSpent, MAX_BLOCK_OUTPUTS)
        case Failed(error) => Err(error)
        case Parsed(more, afterMore) =>
          match PlacedAt(afterMore, more)
          case Failed(error) => Err(error)
          case Parsed(overwritten, rest) =>
            if rest == [] then Ok(UndoRecord(spent, overwritten)) else Err(Trailing(|rest|))
  }

  lemma NoneAt(s: seq<byte>, previous: int)
    ensures SpentAt(s, 0, previous) == Parsed([], s)
  {
  }

  lemma {:induction false} OneMoreAt(
    s: seq<byte>, count: nat, previous: int, first: UndoCoin, afterInput: seq<byte>, rest: seq<byte>)
    requires count > 0 && previous < first.input
    requires DecodeCount(s, MAX_BLOCK_INPUTS) == Parsed(first.input, afterInput)
    requires CoinAt(afterInput) == Parsed(first.coin, rest)
    ensures SpentAt(s, count, previous) == Cons(first, SpentAt(rest, count - 1, first.input))
  {
    hide DecodeCount, CoinAt;
  }

  lemma {:induction false} SpentRoundTrip(spent: seq<UndoCoin>, previous: int, rest: seq<byte>)
    requires SpentInRange(spent) && Ascends(spent, previous)
    ensures SpentAt(SpentBytes(spent) + rest, |spent|, previous) == Parsed(spent, rest)
    decreases |spent|
  {
    hide Encode, Decode, CoinBytes, CoinAt, InRange, SpentAt;
    if |spent| == 0 {
      assert SpentBytes(spent) + rest == rest;
      NoneAt(rest, previous);
    } else {
      var first, tail := spent[0], SpentBytes(spent[1..]) + rest;
      SpentRoundTrip(spent[1..], first.input, rest);
      CoinRoundTrip(first.coin, tail);
      DecodeEncode(first.input, CoinBytes(first.coin) + tail);
      assert SpentBytes(spent) + rest == Encode(first.input) + (CoinBytes(first.coin) + tail);
      OneMoreAt(SpentBytes(spent) + rest, |spent|, previous, first, CoinBytes(first.coin) + tail, tail);
      assert [first] + spent[1..] == spent;
    }
  }

  lemma OutPointRoundTrip(o: OutPoint, rest: seq<byte>)
    requires IsOutPoint(o)
    ensures var s := OutPointBytes(o) + rest;
            DecodeBytes(s, 32) == Parsed(o.txid, s[32..]) && DecodeU32(s[32..]) == Parsed(o.vout, rest)
  {
    U32RoundTrip(o.vout);
    hide PutU32, GetU32;
    var s := OutPointBytes(o) + rest;
    assert s[..32] == o.txid;
    assert s[32..][..4] == PutU32(o.vout) && s[32..][4..] == rest;
  }

  lemma {:induction false} PlacedRoundTrip(coins: seq<PlacedCoin>, rest: seq<byte>)
    requires PlacedInRange(coins)
    ensures PlacedAt(PlacedBytes(coins) + rest, |coins|) == Parsed(coins, rest)
    decreases |coins|
  {
    hide CoinBytes, CoinAt, InRange, OutPointBytes, DecodeBytes, DecodeU32;
    if |coins| == 0 {
      assert PlacedBytes(coins) + rest == rest;
    } else {
      var first, tail := coins[0], PlacedBytes(coins[1..]) + rest;
      PlacedRoundTrip(coins[1..], rest);
      CoinRoundTrip(first.coin, tail);
      OutPointRoundTrip(first.outpoint, CoinBytes(first.coin) + tail);
      assert PlacedBytes(coins) + rest == OutPointBytes(first.outpoint) + (CoinBytes(first.coin) + tail);
      assert [first] + coins[1..] == coins;
    }
  }

  /** A record the bounds allow comes back from its bytes. */
  lemma RecordRoundTrip(r: UndoRecord)
    requires WellFormed(r)
    ensures RecordOf(RecordBytes(r)) == Ok(r)
  {
    hide Encode, Decode, SpentBytes, PlacedBytes, SpentAt, PlacedAt, SpentInRange, PlacedInRange, Ascends;
    var placed := PlacedBytes(r.overwritten);
    var tail := Encode(|r.overwritten|) + placed;
    DecodeEncode(|r.spent|, SpentBytes(r.spent) + tail);
    SpentRoundTrip(r.spent, -1, tail);
    DecodeEncode(|r.overwritten|, placed);
    PlacedRoundTrip(r.overwritten, []);
    assert placed + [] == placed;
    assert RecordBytes(r) == Encode(|r.spent|) + (SpentBytes(r.spent) + tail);
  }

  lemma {:induction false} SpentAtIsWellFormed(s: seq<byte>, count: nat, previous: int)
    requires SpentAt(s, count, previous).Parsed?
    ensures var spent := SpentAt(s, count, previous).value;
            |spent| == count && SpentInRange(spent) && Ascends(spent, previous)
    decreases count
  {
    hide CoinAt, Decode, InRange;
    if count > 0 {
      var p := DecodeCount(s, MAX_BLOCK_INPUTS);
      var c := CoinAt(p.rest);
      ReadCoinsAreInRange(p.rest);
      SpentAtIsWellFormed(c.rest, count - 1, p.value);
      var tail := SpentAt(c.rest, count - 1, p.value).value;
      assert ([UndoCoin(p.value, c.value)] + tail)[1..] == tail;
    }
  }

  lemma {:induction false} PlacedAtIsWellFormed(s: seq<byte>, count: nat)
    requires PlacedAt(s, count).Parsed?
    ensures |PlacedAt(s, count).value| == count && PlacedInRange(PlacedAt(s, count).value)
    decreases count
  {
    hide CoinAt, InRange, GetU32;
    if count > 0 {
      var p := DecodeU32(DecodeBytes(s, 32).rest);
      var c := CoinAt(p.rest);
      ReadCoinsAreInRange(p.rest);
      PlacedAtIsWellFormed(c.rest, count - 1);
    }
  }

  /** A record is accepted back from its own bytes exactly when it keeps the bounds. */
  lemma DecodesItsOwnBytesIff(r: UndoRecord)
    requires PlacedInRange(r.overwritten)
    ensures WellFormed(r) <==> RecordOf(RecordBytes(r)) == Ok(r)
  {
    if WellFormed(r) {
      RecordRoundTrip(r);
    }
    DecodedIsWellFormed(RecordBytes(r));
  }

  /** Whatever bytes the disk gives back, only a well-formed record is made of them. */
  lemma DecodedIsWellFormed(s: seq<byte>)
    ensures RecordOf(s).Ok? ==> WellFormed(RecordOf(s).value)
  {
    hide SpentAt, PlacedAt, Decode, SpentInRange, PlacedInRange, Ascends;
    if RecordOf(s).Ok? {
      var p := DecodeCount(s, MAX_BLOCK_INPUTS);
      SpentAtIsWellFormed(p.rest, p.value, -1);
      var q := DecodeCount(SpentAt(p.rest, p.value, -1).rest, MAX_BLOCK_OUTPUTS);
      PlacedAtIsWellFormed(q.rest, q.value);
    }
  }

  // ----- how large a record is --------------------------------------------------------------------

  lemma {:induction false} SpentIsSmall(spent: seq<UndoCoin>)
    requires SpentInRange(spent)
    ensures |SpentBytes(spent)| <= |spent| * (3 + MAX_COIN_BYTES)
    decreases |spent|
  {
    hide Encode, CoinBytes, InRange;
    if |spent| > 0 {
      SpentIsSmall(spent[1..]);
      CoinIsSmall(spent[0].coin);
      CountIsShort(spent[0].input);
      assert |spent| * (3 + MAX_COIN_BYTES) == |spent[1..]| * (3 + MAX_COIN_BYTES) + (3 + MAX_COIN_BYTES);
    }
  }

  lemma CountIsShort(n: nat)
    requires n <= MAX_BLOCK_OUTPUTS
    ensures |Encode(n)| <= 3
  {
    hide Encode;
    assert Pow128(3) == 128 * 128 * 128;
    EncodeIsShort(n, 3);
  }

  lemma {:induction false} PlacedIsSmall(coins: seq<PlacedCoin>)
    requires PlacedInRange(coins)
    ensures |PlacedBytes(coins)| <= |coins| * (36 + MAX_COIN_BYTES)
    decreases |coins|
  {
    hide CoinBytes, InRange;
    if |coins| > 0 {
      PlacedIsSmall(coins[1..]);
      CoinIsSmall(coins[0].coin);
      assert |coins| * (36 + MAX_COIN_BYTES) == |coins[1..]| * (36 + MAX_COIN_BYTES) + (36 + MAX_COIN_BYTES);
    }
  }

  /** No record the rules permit is past the series' bound, and the bound leaves room in 32 bits. */
  lemma RecordIsSmall(r: UndoRecord)
    requires WellFormed(r)
    ensures |RecordBytes(r)| <= MAX_UNDO_RECORD_BYTES < U32_LIMIT - 64
  {
    hide Encode, SpentBytes, PlacedBytes, Ascends;
    SpentIsSmall(r.spent);
    PlacedIsSmall(r.overwritten);
    CountIsShort(|r.spent|);
    CountIsShort(|r.overwritten|);
    assert |r.spent| * (3 + MAX_COIN_BYTES) <= MAX_BLOCK_INPUTS * (3 + MAX_COIN_BYTES);
    assert |r.overwritten| * (36 + MAX_COIN_BYTES) <= MAX_BLOCK_OUTPUTS * (36 + MAX_COIN_BYTES);
  }

  // ----- the loops over the bytes -----------------------------------------------------------------

  ghost predicate Encodable(r: UndoRecord) {
    && |r.spent| < U32_LIMIT && |r.overwritten| < U32_LIMIT && PlacedInRange(r.overwritten)
    && (forall k :: 0 <= k < |r.spent| ==> r.spent[k].input < U32_LIMIT && InRange(r.spent[k].coin))
  }

  /** The bytes so far and the bytes of the entries still to come make up the list's bytes. */
  ghost predicate SpentSoFar(bytes: seq<byte>, before: seq<byte>, spent: seq<UndoCoin>, i: nat) {
    i <= |spent| && bytes + SpentBytes(spent[i..]) == before + SpentBytes(spent)
  }

  ghost predicate PlacedSoFar(bytes: seq<byte>, before: seq<byte>, coins: seq<PlacedCoin>, i: nat)
    requires PlacedInRange(coins)
  {
    i <= |coins| && bytes + PlacedBytes(coins[i..]) == before + PlacedBytes(coins)
  }

  lemma SpentGoesOn(bytes: seq<byte>, before: seq<byte>, spent: seq<UndoCoin>, i: nat)
    requires i < |spent| && SpentSoFar(bytes, before, spent, i)
    ensures SpentSoFar(bytes + Encode(spent[i].input) + CoinBytes(spent[i].coin), before, spent, i + 1)
  {
    hide Encode, CoinBytes;
    var tail := spent[i..];
    assert tail[1..] == spent[i + 1..];
    assert SpentBytes(tail) == Encode(tail[0].input) + CoinBytes(tail[0].coin) + SpentBytes(tail[1..]);
  }

  lemma PlacedGoesOn(bytes: seq<byte>, before: seq<byte>, coins: seq<PlacedCoin>, i: nat)
    requires PlacedInRange(coins) && i < |coins| && PlacedSoFar(bytes, before, coins, i)
    ensures PlacedSoFar(
              bytes + OutPointBytes(coins[i].outpoint) + CoinBytes(coins[i].coin), before, coins, i + 1)
  {
    hide CoinBytes, OutPointBytes, InRange;
    var tail := coins[i..];
    assert tail[1..] == coins[i + 1..];
    assert PlacedBytes(tail) ==
           OutPointBytes(tail[0].outpoint) + CoinBytes(tail[0].coin) + PlacedBytes(tail[1..]);
  }

  method EncodeRecord(r: UndoRecord) returns (bytes: seq<byte>)
    requires Encodable(r)
    ensures bytes == RecordBytes(r)
  {
    hide Encode, CoinBytes, SpentSoFar, PlacedSoFar, Storable, OutPointBytes, RecordBytes;
    bytes := PutVarint([], |r.spent|);
    ghost var first := bytes;
    SpentStarts(bytes, r.spent);
    for i := 0 to |r.spent|
      invariant SpentSoFar(bytes, first, r.spent, i)
    {
      SpentGoesOn(bytes, first, r.spent, i);
      bytes := PutVarint(bytes, r.spent[i].input);
      bytes := Put(bytes, r.spent[i].coin);
    }
    SpentEnds(bytes, first, r.spent);
    bytes := PutVarint(bytes, |r.overwritten|);
    ghost var second := bytes;
    PlacedStarts(bytes, r.overwritten);
    for i := 0 to |r.overwritten|
      invariant PlacedSoFar(bytes, second, r.overwritten, i)
    {
      PlacedGoesOn(bytes, second, r.overwritten, i);
      bytes := bytes + OutPointBytes(r.overwritten[i].outpoint);
      bytes := Put(bytes, r.overwritten[i].coin);
    }
    PlacedEnds(bytes, second, r.overwritten);
    RecordIsItsParts(r, first, second, bytes);
  }

  lemma SpentStarts(bytes: seq<byte>, spent: seq<UndoCoin>)
    ensures SpentSoFar(bytes, bytes, spent, 0)
  {
    assert spent[0..] == spent;
  }

  lemma SpentEnds(bytes: seq<byte>, before: seq<byte>, spent: seq<UndoCoin>)
    requires SpentSoFar(bytes, before, spent, |spent|)
    ensures bytes == before + SpentBytes(spent)
  {
    assert bytes + SpentBytes(spent[|spent|..]) == bytes;
  }

  lemma PlacedStarts(bytes: seq<byte>, coins: seq<PlacedCoin>)
    requires PlacedInRange(coins)
    ensures PlacedSoFar(bytes, bytes, coins, 0)
  {
    assert coins[0..] == coins;
  }

  lemma PlacedEnds(bytes: seq<byte>, before: seq<byte>, coins: seq<PlacedCoin>)
    requires PlacedInRange(coins) && PlacedSoFar(bytes, before, coins, |coins|)
    ensures bytes == before + PlacedBytes(coins)
  {
    assert bytes + PlacedBytes(coins[|coins|..]) == bytes;
  }

  lemma RecordIsItsParts(r: UndoRecord, first: seq<byte>, second: seq<byte>, bytes: seq<byte>)
    requires PlacedInRange(r.overwritten)
    requires first == [] + Encode(|r.spent|)
    requires second == first + SpentBytes(r.spent) + Encode(|r.overwritten|)
    requires bytes == second + PlacedBytes(r.overwritten)
    ensures bytes == RecordBytes(r)
  {
    hide Encode, SpentBytes, PlacedBytes, InRange;
    assert first == Encode(|r.spent|);
  }

  /** What was read, followed by what the rest of the loop will read. */
  ghost function Ahead<T>(front: seq<T>, p: Parsed<seq<T>>): Parsed<seq<T>> {
    match p
    case Parsed(value, rest) => Parsed(front + value, rest)
    case Failed(error) => Failed(error)
  }

  lemma AheadMoves<T>(front: seq<T>, next: T, p: Parsed<seq<T>>)
    ensures Ahead(front, Cons(next, p)) == Ahead(front + [next], p)
  {
    if p.Parsed? {
      assert front + ([next] + p.value) == front + [next] + p.value;
    }
  }

  lemma AheadOfNothing<T>(p: Parsed<seq<T>>)
    ensures Ahead([], p) == p
  {
    if p.Parsed? {
      assert [] + p.value == p.value;
    }
  }

  lemma AheadIsAll<T>(front: seq<T>, rest: seq<byte>)
    ensures Ahead(front, Parsed([], rest)) == Parsed(front, rest)
  {
    assert front + [] == front;
  }

  method ReadSpent(reader: Reader, count: nat) returns (r: Result<seq<UndoCoin>>)
    modifies reader
    ensures match SpentAt(old(reader.bytes), count, -1)
            case Parsed(spent, rest) => r == Ok(spent) && reader.bytes == rest
            case Failed(error) => r == Err(error)
  {
    hide CoinAt, Decode;
    var spent: seq<UndoCoin> := [];
    var previous: int := -1;
    ghost var whole := SpentAt(reader.bytes, count, -1);
    AheadOfNothing(whole);
    for i := 0 to count
      invariant whole == Ahead(spent, SpentAt(reader.bytes, count - i, previous))
    {
      var input := reader.Count(MAX_BLOCK_INPUTS);
      if input.Err? {
        return Err(input.error);
      }
      if input.value <= previous {
        return Err(NotAscending(input.value));
      }
      previous := input.value;
      var coin := Coin.Read(reader);
      if coin.Err? {
        return Err(coin.error);
      }
      AheadMoves(spent, UndoCoin(input.value, coin.value), SpentAt(reader.bytes, count - i - 1, previous));
      spent := spent + [UndoCoin(input.value, coin.value)];
    }
    AheadIsAll(spent, reader.bytes);
    r := Ok(spent);
  }

  method ReadPlaced(reader: Reader, count: nat) returns (r: Result<seq<PlacedCoin>>)
    modifies reader
    ensures match PlacedAt(old(reader.bytes), count)
            case Parsed(coins, rest) => r == Ok(coins) && reader.bytes == rest
            case Failed(error) => r == Err(error)
  {
    hide CoinAt, GetU32;
    var coins: seq<PlacedCoin> := [];
    ghost var whole := PlacedAt(reader.bytes, count);
    AheadOfNothing(whole);
    for i := 0 to count
      invariant whole == Ahead(coins, PlacedAt(reader.bytes, count - i))
    {
      var txid := reader.Take(32);
      if txid.Err? {
        return Err(txid.error);
      }
      var vout := reader.U32();
      if vout.Err? {
        return Err(vout.error);
      }
      var coin := Coin.Read(reader);
      if coin.Err? {
        return Err(coin.error);
      }
      var next := PlacedCoin(OutPoint(txid.value, vout.value), coin.value);
      AheadMoves(coins, next, PlacedAt(reader.bytes, count - i - 1));
      coins := coins + [next];
    }
    AheadIsAll(coins, reader.bytes);
    r := Ok(coins);
  }

  method DecodeRecord(bytes: seq<byte>) returns (r: Result<UndoRecord>)
    ensures r == RecordOf(bytes)
  {
    hide SpentAt, PlacedAt, Decode;
    var reader := new Reader(bytes);
    var count := reader.Count(MAX_BLOCK_INPUTS);
    if count.Err? {
      return Err(count.error);
    }
    var spent := ReadSpent(reader, count.value);
    if spent.Err? {
      return Err(spent.error);
    }
    count := reader.Count(MAX_BLOCK_OUTPUTS);
    if count.Err? {
      return Err(count.error);
    }
    var overwritten := ReadPlaced(reader, count.value);
    if overwritten.Err? {
      return Err(overwritten.error);
    }
    var end := reader.Finish();
    r := if end.Ok? then Ok(UndoRecord(spent.value, overwritten.value)) else Err(end.error);
  }

  // ----- the whole way round ----------------------------------------------------------------------

  ghost predicate BlockInBounds(spent: seq<PlacedCoin>, overwritten: seq<PlacedCoin>, block: Block) {
    && |Spends(block)| <= MAX_BLOCK_INPUTS
    && (forall k :: 0 <= k < |spent| ==> InRange(spent[k].coin))
    && |overwritten| <= MAX_BLOCK_OUTPUTS && PlacedInRange(overwritten)
  }

  lemma {:induction false} PicksAscend(spent: seq<UndoCoin>, above: int)
    requires forall j, k :: 0 <= j < k < |spent| ==> spent[j].input < spent[k].input
    requires |spent| > 0 ==> spent[0].input > above
    ensures Ascends(spent, above)
    decreases |spent|
  {
    if |spent| > 0 {
      PicksAscend(spent[1..], spent[0].input);
    }
  }

  lemma RecordsAreWellFormed(r: UndoRecord, spent: seq<PlacedCoin>, overwritten: seq<PlacedCoin>, block: Block)
    requires Records(r, spent, overwritten, block) && BlockInBounds(spent, overwritten, block)
    ensures WellFormed(r)
  {
    hide Spends, InRange, Ascends;
    var at := InputsOf(r.spent);
    assert forall k :: 0 <= k < |at| ==> at[k] == r.spent[k].input;
    forall j, k | 0 <= j < k < |r.spent|
      ensures r.spent[j].input < r.spent[k].input
    {
      assert at[j] < at[k];
    }
    PicksAscend(r.spent, -1);
    if |at| > 0 {
      PicksGoForward(at, spent, Spends(block), |at| - 1);
    }
  }

  /**
    What disconnecting reads back: the record of a block, through its bytes, paired with the block
    again, is every coin the block took at the outpoint it sat at.
   */
  lemma UndoComesBack(r: UndoRecord, spent: seq<PlacedCoin>, overwritten: seq<PlacedCoin>, block: Block)
    requires Records(r, spent, overwritten, block) && BlockInBounds(spent, overwritten, block)
    ensures WellFormed(r) && RecordOf(RecordBytes(r)) == Ok(r)
    ensures |RecordBytes(r)| <= MAX_UNDO_RECORD_BYTES
    ensures Pairing(RecordOf(RecordBytes(r)).value.spent, Spends(block)) == Ok(spent)
    ensures r.overwritten == overwritten
  {
    hide RecordOf, RecordBytes, Spends, Pairing, Picks, WellFormed;
    RecordsAreWellFormed(r, spent, overwritten, block);
    RecordRoundTrip(r);
    RecordIsSmall(r);
    PairingUndoesOf(r.spent, spent, Spends(block));
  }

  // ----- the coin set -----------------------------------------------------------------------------

  type CoinSet = map<OutPoint, StoredCoin>

  ghost function Keys(coins: seq<PlacedCoin>): set<OutPoint> {
    set k | 0 <= k < |coins| :: coins[k].outpoint
  }

  ghost function Removed(coins: CoinSet, gone: seq<PlacedCoin>): CoinSet
    decreases |gone|
  {
    if |gone| == 0 then coins else Removed(coins - {gone[0].outpoint}, gone[1..])
  }

  ghost function Inserted(coins: CoinSet, more: seq<PlacedCoin>): CoinSet
    decreases |more|
  {
    if |more| == 0 then coins else Inserted(coins[more[0].outpoint := more[0].coin], more[1..])
  }

  ghost predicate Holds(coins: CoinSet, these: seq<PlacedCoin>) {
    forall k :: 0 <= k < |these| ==>
      these[k].outpoint in coins && coins[these[k].outpoint] == these[k].coin
  }

  /** The coin set after a delta is applied. */
  ghost function Connected(coins: CoinSet, gone: seq<PlacedCoin>, created: seq<PlacedCoin>): CoinSet {
    Inserted(Removed(coins, gone), created)
  }

  /** The same lists swapped. */
  ghost function Disconnected(coins: CoinSet, created: seq<PlacedCoin>, gone: seq<PlacedCoin>): CoinSet {
    Inserted(Removed(coins, created), gone)
  }

  lemma {:induction false} RemovedIs(coins: CoinSet, gone: seq<PlacedCoin>)
    ensures Removed(coins, gone) == coins - Keys(gone)
    decreases |gone|
  {
    if |gone| > 0 {
      RemovedIs(coins - {gone[0].outpoint}, gone[1..]);
      assert Keys(gone) == {gone[0].outpoint} + Keys(gone[1..]);
    }
  }

  lemma {:induction false} InsertedElsewhere(coins: CoinSet, more: seq<PlacedCoin>, o: OutPoint)
    ensures o in Inserted(coins, more) <==> o in coins || o in Keys(more)
    ensures o !in Keys(more) && o in coins ==> Inserted(coins, more)[o] == coins[o]
    decreases |more|
  {
    if |more| > 0 {
      InsertedElsewhere(coins[more[0].outpoint := more[0].coin], more[1..], o);
      assert Keys(more) == {more[0].outpoint} + Keys(more[1..]);
    }
  }

  /** Inserting coins of one set puts that set's coins there. */
  lemma {:induction false} InsertedFrom(coins: CoinSet, more: seq<PlacedCoin>, whole: CoinSet, o: OutPoint)
    requires Holds(whole, more) && o in Keys(more)
    ensures o in Inserted(coins, more) && o in whole && Inserted(coins, more)[o] == whole[o]
    decreases |more|
  {
    assert Keys(more) == {more[0].outpoint} + Keys(more[1..]);
    var next := coins[more[0].outpoint := more[0].coin];
    if o in Keys(more[1..]) {
      InsertedFrom(next, more[1..], whole, o);
    } else {
      InsertedElsewhere(next, more[1..], o);
    }
  }

  /**
    Swapping a delta's lists gives back the coin set it was applied to, exactly when every coin
    the block created over was among the ones it took out.
   */
  lemma DisconnectRestoresIff(coins: CoinSet, gone: seq<PlacedCoin>, created: seq<PlacedCoin>)
    requires Holds(coins, gone)
    ensures Disconnected(Connected(coins, gone, created), created, gone) == coins
            <==> Keys(created) * coins.Keys <= Keys(gone)
  {
    hide Removed, Inserted, Holds, Keys;
    var after := Connected(coins, gone, created);
    var back := Disconnected(after, created, gone);
    RemovedIs(coins, gone);
    RemovedIs(after, created);
    forall o
      ensures o in back <==> (o in coins && o !in Keys(created)) || o in Keys(gone)
      ensures o in coins && o in back ==> back[o] == coins[o]
      ensures o in Keys(gone) ==> o in coins
    {
      InsertedElsewhere(Removed(coins, gone), created, o);
      InsertedElsewhere(Removed(after, created), gone, o);
      if o in Keys(gone) {
        InsertedFrom(Removed(after, created), gone, coins, o);
      }
    }
    assert Keys(created) * coins.Keys <= Keys(gone) ==> back.Keys == coins.Keys;
  }

  /** What a disconnect has in its hands: the block, the bytes off the disk, and the created list. */
  ghost function FromDisk(
    coins: CoinSet, bytes: seq<byte>, created: seq<PlacedCoin>, block: Block): Result<CoinSet>
  {
    match RecordOf(bytes)
    case Err(error) => Err(error)
    case Ok(r) =>
      match Pairing(r.spent, Spends(block))
      case Err(error) => Err(error)
      case Ok(spent) => Ok(Disconnected(coins, created, spent + r.overwritten))
  }

  /** Connecting a block and disconnecting it from its undo bytes leaves the set as it was. */
  lemma DisconnectFromDisk(
    coins: CoinSet, r: UndoRecord, spent: seq<PlacedCoin>, overwritten: seq<PlacedCoin>,
    created: seq<PlacedCoin>, block: Block)
    requires Records(r, spent, overwritten, block) && BlockInBounds(spent, overwritten, block)
    requires Holds(coins, spent + overwritten)
    ensures var after := Connected(coins, spent + overwritten, created);
            FromDisk(after, RecordBytes(r), created, block) == Ok(coins)
            <==> Keys(created) * coins.Keys <= Keys(spent + overwritten)
  {
    hide Connected, Disconnected, RecordOf, RecordBytes, Pairing, Spends, Keys, Records, Holds;
    UndoComesBack(r, spent, overwritten, block);
    DisconnectRestoresIff(coins, spent + overwritten, created);
  }

  // ----- the delta's own order --------------------------------------------------------------------

  /** The coins behind a block's inputs, the block's own outputs dropped. */
  ghost function Kept(prevouts: seq<PlacedCoin>, inBlock: seq<bool>): (kept: seq<PlacedCoin>)
    requires |prevouts| == |inBlock|
  {
    if |prevouts| == 0 then []
    else
      var n := |prevouts| - 1;
      Kept(prevouts[..n], inBlock[..n]) + if inBlock[n] then [] else [prevouts[n]]
  }

  lemma NothingPicked(outpoints: seq<OutPoint>)
    ensures Picks([], [], outpoints)
  {
  }

  lemma PicksPush(at: seq<nat>, spent: seq<PlacedCoin>, outpoints: seq<OutPoint>, coin: PlacedCoin, n: nat)
    requires Picks(at, spent, outpoints) && n < |outpoints| && outpoints[n] == coin.outpoint
    requires forall k :: 0 <= k < |at| ==> at[k] < n
    ensures Picks(at + [n], spent + [coin], outpoints)
  {
  }

  lemma {:induction false} KeptIsPicked(
    prevouts: seq<PlacedCoin>, inBlock: seq<bool>, outpoints: seq<OutPoint>) returns (at: seq<nat>)
    requires |prevouts| == |inBlock| <= |outpoints|
    requires forall k :: 0 <= k < |prevouts| ==> prevouts[k].outpoint == outpoints[k]
    ensures Picks(at, Kept(prevouts, inBlock), outpoints)
    ensures forall k :: 0 <= k < |at| ==> at[k] < |prevouts|
    decreases |prevouts|
  {
    hide Picks;
    if |prevouts| == 0 {
      at := [];
      NothingPicked(outpoints);
    } else {
      var n := |prevouts| - 1;
      at := KeptIsPicked(prevouts[..n], inBlock[..n], outpoints);
      var kept := Kept(prevouts[..n], inBlock[..n]);
      if inBlock[n] {
        NothingBehind(kept);
      } else {
        PicksPush(at, kept, outpoints, prevouts[n], n);
        at := at + [n];
      }
    }
  }

  /** The delta `confirm` makes is one the forward pass never fails on. */
  lemma DeltaFollowsInputs(prevouts: seq<PlacedCoin>, inBlock: seq<bool>, block: Block)
    requires |prevouts| == |inBlock| == |Spends(block)|
    requires forall k :: 0 <= k < |prevouts| ==> prevouts[k].outpoint == Spends(block)[k]
    ensures Follows(Kept(prevouts, inBlock), Spends(block))
  {
    hide Spends, Kept, Picks;
    var at := KeptIsPicked(prevouts, inBlock, Spends(block));
  }
}
