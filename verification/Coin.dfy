/** The coin codec: amounts and scripts compressed, and proved to come back. */
module Coin {
  import opened Bytes
  import opened Numbers
  import opened Varint

  const MAX_MONEY: nat := 21_000_000 * 100_000_000
  const MAX_SCRIPT_SIZE: nat := 10_000
  const SPECIAL_SCRIPTS: nat := 6

  datatype StoredCoin = StoredCoin(height: nat, coinbase: bool, value: nat, script: seq<byte>)

  /** A coin of the set: one the writer takes, with a value within the money supply. */
  ghost predicate InRange(coin: StoredCoin) {
    Storable(coin) && coin.value <= MAX_MONEY
  }

  /** What the writer's types and its one assertion ask of a coin. */
  ghost predicate Storable(coin: StoredCoin) {
    coin.height < U32_LIMIT && coin.value <= U64_MAX && |coin.script| <= MAX_SCRIPT_SIZE
  }

  // ----- amounts ----------------------------------------------------------------------------------

  /** Trailing decimal zeros taken off, at most nine of them. */
  ghost function Strip(n: nat, e: nat): (r: (nat, nat))
    requires n > 0
    ensures r.0 > 0 && (r.1 < 9 ==> r.0 % 10 != 0)
    decreases n
  {
    if n % 10 == 0 && e < 9 then Strip(n / 10, e + 1) else (n, e)
  }

  ghost function Compress(value: nat): nat {
    if value == 0 then 0
    else
      var (left, e) := Strip(value, 0);
      if e < 9 then (left / 10 * 9 + left % 10 - 1) * 10 + e + 1
      else (left - 1) * 10 + 9 + 1
  }

  /** The amount a code stands for, whether or not it is an amount of money. */
  ghost function AmountOf(code: nat): nat {
    if code == 0 then 0
    else
      var (left, e) := ((code - 1) / 10, (code - 1) % 10);
      (if e < 9 then left / 9 * 10 + (left % 9 + 1) else left + 1) * Pow10(e)
  }

  lemma {:induction false} StripShape(n: nat, k: nat)
    requires n > 0 && k <= 9
    ensures var (d, e) := Strip(n, k);
            && k <= e <= 9 && d > 0 && n == d * Pow10(e - k) && d <= n
            && (e < 9 ==> d % 10 != 0)
    decreases n
  {
    if n % 10 == 0 && k < 9 {
      StripShape(n / 10, k + 1);
      var (d, e) := Strip(n / 10, k + 1);
      Shift(d, Pow10(e - k - 1));
    }
  }

  lemma Shift(d: nat, p: nat)
    ensures d * (10 * p) == 10 * (d * p)
    ensures d * (10 * p) % 10 == 0 && d * (10 * p) / 10 == d * p
  {
    assert d * (10 * p) == 10 * (d * p);
  }

  lemma {:induction false} StripOfPower(d: nat, e: nat, k: nat)
    requires d > 0 && k + e <= 9 && (d % 10 != 0 || k + e == 9) && d * Pow10(e) > 0
    ensures Strip(d * Pow10(e), k) == (d, k + e)
    decreases e
  {
    if e > 0 {
      Shift(d, Pow10(e - 1));
      StripOfPower(d, e - 1, k + 1);
    } else {
      assert d * Pow10(0) == d;
    }
  }

  /** Every amount comes back from its code. */
  lemma AmountOfCompress(value: nat)
    ensures AmountOf(Compress(value)) == value
  {
    if value > 0 {
      StripShape(value, 0);
      var (d, e) := Strip(value, 0);
      hide Strip, Pow10;
      if e < 9 {
        CodeParts(d / 10 * 9 + d % 10 - 1, e);
        NineParts(d / 10, d % 10 - 1);
        assert d / 10 * 10 + d % 10 == d;
      } else {
        CodeParts(d - 1, 9);
      }
    }
  }

  lemma CodeParts(left: nat, e: nat)
    requires e < 10
    ensures (left * 10 + e) / 10 == left && (left * 10 + e) % 10 == e
  {
  }

  lemma NineParts(q: nat, r: nat)
    requires r < 9
    ensures (q * 9 + r) / 9 == q && (q * 9 + r) % 9 == r
  {
  }

  lemma TenParts(q: nat, r: nat)
    requires r < 10
    ensures (q * 10 + r) / 10 == q && (q * 10 + r) % 10 == r
  {
  }

  /** Every code is the code of the amount it stands for. */
  lemma CompressAmountOf(code: nat)
    ensures Compress(AmountOf(code)) == code
  {
    if code > 0 {
      var (left, e) := ((code - 1) / 10, (code - 1) % 10);
      var d := if e < 9 then left / 9 * 10 + (left % 9 + 1) else left + 1;
      assert left * 10 + e + 1 == code;
      PositiveTimes(d, Pow10(e));
      if e < 9 {
        TenParts(left / 9, left % 9 + 1);
        assert left / 9 * 9 + left % 9 == left;
      }
      StripOfPower(d, e, 0);
      hide Strip, Pow10;
    }
  }

  lemma PositiveTimes(a: nat, b: nat)
    requires a > 0 && b > 0
    ensures a * b > 0
  {
  }

  /** A code is at most nine times the amount, so it is far inside 64 bits. */
  lemma CompressIsSmall(value: nat)
    ensures Compress(value) <= 9 * value + 10
  {
    if value > 0 {
      StripShape(value, 0);
      var (d, e) := Strip(value, 0);
      StripIsSmall(value, d, e);
      hide Strip, Pow10;
      assert d / 10 * 10 + d % 10 == d;
    }
  }

  /** Nine zeros stripped leave a billionth. */
  lemma StripIsSmall(value: nat, d: nat, e: nat)
    requires value == d * Pow10(e) && d > 0
    ensures e == 9 ==> 10 * d <= value
    ensures d <= value
  {
    if e == 9 {
      Shift(d, Pow10(8));
      AtLeast(d, Pow10(8));
    } else {
      AtLeast(d, Pow10(e));
    }
  }

  lemma AtLeast(d: nat, p: nat)
    requires p > 0
    ensures d * p >= d
  {
  }

  ghost function DecompressAmount(code: nat): Result<nat> {
    if AmountOf(code) <= MAX_MONEY then Ok(AmountOf(code)) else Err(TooLong(Declared(code), MAX_MONEY))
  }

  /** What a refused code is reported as: itself once a step leaves 64 bits, else its amount. */
  ghost function Declared(code: nat): nat {
    if AmountOf(code) > U64_MAX then code else AmountOf(code)
  }

  function SaturatingAdd(a: nat, b: nat): nat { if a + b > U64_MAX then U64_MAX else a + b }
  function SaturatingMul(a: nat, b: nat): nat { if a * b > U64_MAX then U64_MAX else a * b }

  /** The code as 64 bits hold it. */
  ghost function AmountCode(value: nat): nat {
    if Compress(value) > U64_MAX then U64_MAX else Compress(value)
  }

  /** Core's compression in saturating steps: the exact code, or the largest number where that is past 64 bits. */
  method CompressAmount(value: nat) returns (code: nat)
    requires value <= U64_MAX
    ensures code == AmountCode(value) <= U64_MAX
    ensures value <= MAX_MONEY ==> code == Compress(value)
  {
    CompressIsSmall(value);
    if value == 0 {
      return 0;
    }
    var left: nat := value;
    var exponent: nat := 0;
    while left % 10 == 0 && exponent < 9
      invariant 0 < left <= value && exponent <= 9 && Strip(value, 0) == Strip(left, exponent)
    {
      left := left / 10;
      exponent := exponent + 1;
    }
    if exponent < 9 {
      var digit := left % 10;
      assert 1 <= digit <= 9;
      left := left / 10;
      code := SaturatingAdd(SaturatingAdd(SaturatingMul(
                Monus(SaturatingAdd(SaturatingMul(left, 9), digit), 1), 10), exponent), 1);
    } else {
      code := SaturatingAdd(SaturatingAdd(SaturatingMul(Monus(left, 1), 10), 9), 1);
    }
  }

  /** Core's decompression with every step checked, refusing what is no amount of money. */
  method Decompress(code: nat) returns (r: Result<nat>)
    requires code <= U64_MAX
    ensures r == DecompressAmount(code)
  {
    if code == 0 {
      return Ok(0);
    }
    var left := (code - 1) / 10;
    var exponent := (code - 1) % 10;
    var value: nat;
    if exponent < 9 {
      value := left / 9 * 10 + (left % 9 + 1);
    } else {
      value := left + 1;
    }
    ghost var base := value;
    AtLeast(base, Pow10(exponent));
    if value > U64_MAX {
      return Err(TooLong(code, MAX_MONEY));
    }
    var i := 0;
    assert base * Pow10(0) == base;
    while i < exponent
      invariant 0 <= i <= exponent && value == base * Pow10(i) <= U64_MAX
      invariant AmountOf(code) == base * Pow10(exponent)
    {
      Grows(base, i + 1, exponent);
      Shift(base, Pow10(i));
      if value * 10 > U64_MAX {
        return Err(TooLong(code, MAX_MONEY));
      }
      value := value * 10;
      i := i + 1;
    }
    if value > MAX_MONEY {
      return Err(TooLong(value, MAX_MONEY));
    }
    return Ok(value);
  }

  lemma {:induction false} Grows(base: nat, i: nat, j: nat)
    requires i <= j
    ensures base * Pow10(i) <= base * Pow10(j)
    decreases j
  {
    if i < j {
      Grows(base, i, j - 1);
      Shift(base, Pow10(j - 1));
    }
  }

  /** On money and the codes the decoder accepts, the two are inverse. */
  lemma AmountsAreABijection(value: nat, code: nat)
    ensures value <= MAX_MONEY ==> DecompressAmount(Compress(value)) == Ok(value) && Compress(value) <= U64_MAX
    ensures DecompressAmount(code) == Ok(value) ==> value <= MAX_MONEY && Compress(value) == code
  {
    AmountOfCompress(value);
    CompressAmountOf(code);
    CompressIsSmall(value);
    hide Compress, AmountOf;
  }

  /** Codes of a few round amounts: one, a cent of a coin, a coin, fifty, and all there will be. */
  lemma RoundAmounts()
    ensures Compress(1) == 1 && Compress(1_000_000) == 7 && Compress(100_000_000) == 9
    ensures Compress(50 * 100_000_000) == 50 && Compress(21_000_000 * 100_000_000) == 21_000_000
  {
    assert Pow10(0) == 1 && Pow10(6) == 1_000_000 by {
      assert Pow10(3) == 1_000;
    }
    assert Pow10(8) == 100_000_000 && Pow10(9) == 1_000_000_000 by {
      assert Pow10(4) == 10_000;
    }
    StripOfPower(1, 0, 0);
    StripOfPower(1, 6, 0);
    StripOfPower(1, 8, 0);
    StripOfPower(5, 9, 0);
    StripOfPower(2_100_000, 9, 0);
    hide Strip, Pow10;
  }

  // ----- scripts ----------------------------------------------------------------------------------

  const P2PKH_OPENS: seq<byte> := [0x76, 0xa9, 0x14]
  const P2PKH_CLOSES: seq<byte> := [0x88, 0xac]
  const P2SH_OPENS: seq<byte> := [0xa9, 0x14]
  const P2SH_CLOSES: seq<byte> := [0x87]

  function P2pkhHash(script: seq<byte>): Option<seq<byte>> {
    if |script| == 25 && script[..3] == P2PKH_OPENS && script[23..] == P2PKH_CLOSES
    then Some(script[3..23]) else None
  }

  function P2shHash(script: seq<byte>): Option<seq<byte>> {
    if |script| == 23 && script[..2] == P2SH_OPENS && script[22..] == P2SH_CLOSES
    then Some(script[2..22]) else None
  }

  /** A compressed pay-to-public-key taken apart into its second byte and the 32 behind it. */
  function P2pkCompressed(script: seq<byte>): Option<(byte, seq<byte>)> {
    if |script| == 35 && script[0] == 0x21 && script[34] == 0xac && (script[1] == 2 || script[1] == 3)
    then Some((script[1], script[2..34])) else None
  }

  /** The number written ahead of a script: the template it has, or its length past the templates. */
  function TemplateOf(script: seq<byte>): nat {
    if P2pkhHash(script).Some? then 0
    else if P2shHash(script).Some? then 1
    else if P2pkCompressed(script).Some? then P2pkCompressed(script).value.0
    else |script| + SPECIAL_SCRIPTS
  }

  /** What is written of a script behind its template number. */
  function PayloadOf(script: seq<byte>): seq<byte> {
    if P2pkhHash(script).Some? then P2pkhHash(script).value
    else if P2shHash(script).Some? then P2shHash(script).value
    else if P2pkCompressed(script).Some? then P2pkCompressed(script).value.1
    else script
  }

  ghost function ScriptBytes(script: seq<byte>): seq<byte> {
    Encode(TemplateOf(script)) + PayloadOf(script)
  }

  /** How many bytes a template number asks for. */
  function PayloadLength(template: nat): Result<nat> {
    if template < 2 then Ok(20)
    else if template < 4 then Ok(32)
    else if template < SPECIAL_SCRIPTS then Err(BadTag(4))
    else if template - SPECIAL_SCRIPTS > MAX_SCRIPT_SIZE
    then Err(TooLong(template - SPECIAL_SCRIPTS, MAX_SCRIPT_SIZE))
    else Ok(template - SPECIAL_SCRIPTS)
  }

  /** The script a template and its payload stand for. */
  function Assembled(template: nat, payload: seq<byte>): seq<byte> {
    if template == 0 then P2PKH_OPENS + payload + P2PKH_CLOSES
    else if template == 1 then P2SH_OPENS + payload + P2SH_CLOSES
    else if template == 2 || template == 3 then [0x21, template] + payload + [0xac]
    else payload
  }

  ghost function ScriptAt(s: seq<byte>): Parsed<seq<byte>> {
    match Decode(s)
    case Failed(error) => Failed(error)
    case Parsed(template, rest) =>
      match PayloadLength(template)
      case Err(error) => Failed(error)
      case Ok(count) =>
        match DecodeBytes(rest, count)
        case Failed(error) => Failed(error)
        case Parsed(payload, left) => Parsed(Assembled(template, payload), left)
  }

  /** Taking a script apart loses nothing, and asks back exactly what it wrote. */
  lemma TemplatesAreFaithful(script: seq<byte>)
    requires |script| <= MAX_SCRIPT_SIZE
    ensures PayloadLength(TemplateOf(script)) == Ok(|PayloadOf(script)|)
    ensures Assembled(TemplateOf(script), PayloadOf(script)) == script
  {
    if P2pkhHash(script).Some? {
      assert script == script[..3] + script[3..23] + script[23..];
    } else if P2shHash(script).Some? {
      assert script == script[..2] + script[2..22] + script[22..];
    } else if P2pkCompressed(script).Some? {
      assert script == [script[0], script[1]] + script[2..34] + [script[34]];
    }
  }

  lemma ScriptRoundTrip(script: seq<byte>, rest: seq<byte>)
    requires |script| <= MAX_SCRIPT_SIZE
    ensures ScriptAt(ScriptBytes(script) + rest) == Parsed(script, rest)
    ensures |ScriptBytes(script)| <= 3 + MAX_SCRIPT_SIZE
  {
    hide Encode, Decode, TemplateOf, PayloadOf, PayloadLength, Assembled;
    TemplatesAreFaithful(script);
    TemplateIsShort(script);
    var template, payload := TemplateOf(script), PayloadOf(script);
    DecodeEncode(template, payload + rest);
    assert ScriptBytes(script) + rest == Encode(template) + (payload + rest);
    assert (payload + rest)[..|payload|] == payload && (payload + rest)[|payload|..] == rest;
  }

  lemma TemplateIsShort(script: seq<byte>)
    requires |script| <= MAX_SCRIPT_SIZE
    ensures TemplateOf(script) <= U64_MAX && |Encode(TemplateOf(script))| <= 3
    ensures |PayloadOf(script)| <= |script|
  {
    hide Encode;
    assert Pow128(3) == 128 * 128 * 128;
    EncodeIsShort(TemplateOf(script), 3);
  }

  /** The three templates as they are stored: a number, and the hash or the key without its opcodes. */
  lemma ScriptsAreCompressed(hash: seq<byte>, key: seq<byte>)
    requires |hash| == 20 && |key| == 32
    ensures ScriptBytes([0x76, 0xa9, 0x14] + hash + [0x88, 0xac]) == [0] + hash
    ensures ScriptBytes([0xa9, 0x14] + hash + [0x87]) == [1] + hash
    ensures ScriptBytes([0x21, 0x02] + key + [0xac]) == [2] + key
    ensures ScriptBytes([0x21, 0x03] + key + [0xac]) == [3] + key
  {
    var (pkh, sh) := ([0x76, 0xa9, 0x14] + hash + [0x88, 0xac], [0xa9, 0x14] + hash + [0x87]);
    assert pkh[..3] == P2PKH_OPENS && pkh[23..] == P2PKH_CLOSES && pkh[3..23] == hash;
    assert sh[..2] == P2SH_OPENS && sh[22..] == P2SH_CLOSES && sh[2..22] == hash;
    var (even, odd) := ([0x21, 0x02] + key + [0xac], [0x21, 0x03] + key + [0xac]);
    assert even[2..34] == key && odd[2..34] == key;
  }

  /** Any other script is stored whole, behind its length and the six numbers set aside. */
  lemma OtherScriptsAreWhole(script: seq<byte>)
    requires |script| != 25 && |script| != 23 && |script| != 35
    ensures ScriptBytes(script) == Encode(|script| + 6) + script
  {
  }

  // ----- coins ------------------------------------------------------------------------------------

  function HeightWord(coin: StoredCoin): nat {
    coin.height * 2 + if coin.coinbase then 1 else 0
  }

  ghost function CoinBytes(coin: StoredCoin): seq<byte> {
    Encode(HeightWord(coin)) + Encode(AmountCode(coin.value)) + ScriptBytes(coin.script)
  }

  ghost function CoinAt(s: seq<byte>): Parsed<StoredCoin> {
    match Decode(s)
    case Failed(error) => Failed(error)
    case Parsed(word, afterWord) =>
      if word / 2 >= U32_LIMIT then Failed(TooLong(word / 2, U32_LIMIT - 1))
      else
        match Decode(afterWord)
        case Failed(error) => Failed(error)
        case Parsed(code, afterCode) =>
          match DecompressAmount(code)
          case Err(error) => Failed(error)
          case Ok(value) =>
            match ScriptAt(afterCode)
            case Failed(error) => Failed(error)
            case Parsed(script, rest) => Parsed(StoredCoin(word / 2, word % 2 == 1, value, script), rest)
  }

  /** Two coins of no value and no script: an ordinary one at height zero, and the coinbase's at height one. */
  lemma EmptyCoins()
    ensures CoinBytes(StoredCoin(0, false, 0, [])) == [0, 0, 6] && CoinBytes(StoredCoin(1, true, 0, [])) == [3, 0, 6]
  {
  }

  const MAX_COIN_BYTES: nat := 5 + 9 + 3 + MAX_SCRIPT_SIZE

  /** What is written of a coin reads back field by field, the amount as its code stands. */
  lemma CoinReads(coin: StoredCoin, rest: seq<byte>)
    requires Storable(coin)
    ensures CoinAt(CoinBytes(coin) + rest)
            == match DecompressAmount(AmountCode(coin.value))
               case Err(error) => Failed(error)
               case Ok(value) => Parsed(coin.(value := value), rest)
  {
    hide Encode, Decode, AmountCode, DecompressAmount, ScriptBytes, ScriptAt;
    var (word, code, script) := (HeightWord(coin), AmountCode(coin.value), ScriptBytes(coin.script));
    CodeFits(coin.value);
    DecodeEncode(word, Encode(code) + (script + rest));
    DecodeEncode(code, script + rest);
    ScriptRoundTrip(coin.script, rest);
    assert CoinBytes(coin) + rest == Encode(word) + (Encode(code) + (script + rest));
  }

  lemma CodeFits(value: nat)
    ensures AmountCode(value) <= U64_MAX
    ensures value <= MAX_MONEY ==> AmountCode(value) == Compress(value)
  {
    CompressIsSmall(value);
  }

  /** A coin the writer takes reads back, what follows it left alone, exactly when its value is money. */
  lemma CoinRoundTripIff(coin: StoredCoin, rest: seq<byte>)
    requires Storable(coin)
    ensures CoinAt(CoinBytes(coin) + rest) == Parsed(coin, rest) <==> coin.value <= MAX_MONEY
  {
    hide CoinAt, CoinBytes, Compress, AmountCode, AmountOf;
    CoinReads(coin, rest);
    CodeFits(coin.value);
    AmountsAreABijection(coin.value, AmountCode(coin.value));
  }

  lemma CoinRoundTrip(coin: StoredCoin, rest: seq<byte>)
    requires InRange(coin)
    ensures CoinAt(CoinBytes(coin) + rest) == Parsed(coin, rest)
  {
    hide CoinAt, CoinBytes;
    CoinRoundTripIff(coin, rest);
  }

  /** Five bytes of height, nine of amount, three of length, and the script. */
  lemma CoinIsSmall(coin: StoredCoin)
    requires InRange(coin)
    ensures |CoinBytes(coin)| <= MAX_COIN_BYTES
  {
    hide Encode, Compress, AmountCode, ScriptBytes;
    CompressIsSmall(coin.value);
    CodeFits(coin.value);
    ScriptRoundTrip(coin.script, []);
    assert Pow128(5) == 0x8_0000_0000;
    assert Pow128(9) == 0x8_0000_0000 * 0x1000_0000;
    EncodeIsShort(HeightWord(coin), 5);
    EncodeIsShort(Compress(coin.value), 9);
  }

  /** Whatever the reader makes a coin of is a coin the writer would take. */
  lemma ReadCoinsAreInRange(s: seq<byte>)
    requires CoinAt(s).Parsed?
    ensures InRange(CoinAt(s).value)
    ensures |CoinAt(s).rest| < |s|
  {
    hide Encode, AmountOf, Assembled;
    var p := Decode(s);
    DecodeIsCanonical(s);
    var q := Decode(p.rest);
    DecodeIsCanonical(p.rest);
    DecodeIsCanonical(q.rest);
    ReadScriptsAreShort(Decode(q.rest).value);
  }

  lemma ReadScriptsAreShort(template: nat)
    ensures PayloadLength(template).Ok? ==>
              forall payload: seq<byte> | |payload| == PayloadLength(template).value ::
                |Assembled(template, payload)| <= MAX_SCRIPT_SIZE
  {
  }

  method PutScript(bytes: seq<byte>, script: seq<byte>) returns (r: seq<byte>)
    requires |script| <= MAX_SCRIPT_SIZE
    ensures r == bytes + ScriptBytes(script)
  {
    hide Encode;
    if P2pkhHash(script).Some? {
      r := PutVarint(bytes, 0);
      r := r + P2pkhHash(script).value;
    } else if P2shHash(script).Some? {
      r := PutVarint(bytes, 1);
      r := r + P2shHash(script).value;
    } else if P2pkCompressed(script).Some? {
      var (parity, key) := P2pkCompressed(script).value;
      r := PutVarint(bytes, parity);
      r := r + key;
    } else {
      r := PutVarint(bytes, SaturatingAdd(|script|, SPECIAL_SCRIPTS));
      r := r + script;
    }
  }

  method ReadScript(reader: Reader) returns (r: Result<seq<byte>>)
    modifies reader
    ensures match ScriptAt(old(reader.bytes))
            case Parsed(script, rest) => r == Ok(script) && reader.bytes == rest
            case Failed(error) => r == Err(error)
  {
    hide Decode;
    var template := reader.Varint();
    if template.Err? {
      return Err(template.error);
    }
    var taken: Result<seq<byte>>;
    match template.value {
      case 0 =>
        taken := reader.Take(20);
        return if taken.Ok? then Ok(P2PKH_OPENS + taken.value + P2PKH_CLOSES) else Err(taken.error);
      case 1 =>
        taken := reader.Take(20);
        return if taken.Ok? then Ok(P2SH_OPENS + taken.value + P2SH_CLOSES) else Err(taken.error);
      case _ =>
        if template.value == 2 || template.value == 3 {
          taken := reader.Take(32);
          return if taken.Ok? then Ok([0x21, template.value] + taken.value + [0xac]) else Err(taken.error);
        } else if template.value == 4 || template.value == 5 {
          return Err(BadTag(4));
        }
        var length := Monus(template.value, SPECIAL_SCRIPTS);
        if length > MAX_SCRIPT_SIZE {
          return Err(TooLong(length, MAX_SCRIPT_SIZE));
        }
        r := reader.Take(length);
    }
  }

  method Put(bytes: seq<byte>, coin: StoredCoin) returns (r: seq<byte>)
    requires Storable(coin)
    ensures r == bytes + CoinBytes(coin)
  {
    hide Encode, ScriptBytes, AmountCode;
    var word := SaturatingAdd(SaturatingMul(coin.height, 2), if coin.coinbase then 1 else 0);
    assert word / 2 == coin.height;
    r := PutVarint(bytes, word);
    var code := CompressAmount(coin.value);
    r := PutVarint(r, code);
    r := PutScript(r, coin.script);
  }

  method Read(reader: Reader) returns (r: Result<StoredCoin>)
    modifies reader
    ensures match CoinAt(old(reader.bytes))
            case Parsed(coin, rest) => r == Ok(coin) && reader.bytes == rest
            case Failed(error) => r == Err(error)
  {
    hide Encode, ScriptAt, DecompressAmount;
    VarintsAre64Bit(reader.bytes);
    var word := reader.Varint();
    if word.Err? {
      return Err(word.error);
    }
    if word.value / 2 >= U32_LIMIT {
      return Err(TooLong(word.value / 2, U32_LIMIT - 1));
    }
    VarintsAre64Bit(reader.bytes);
    var code := reader.Varint();
    if code.Err? {
      return Err(code.error);
    }
    var value := Decompress(code.value);
    if value.Err? {
      return Err(value.error);
    }
    var script := ReadScript(reader);
    if script.Err? {
      return Err(script.error);
    }
    return Ok(StoredCoin(word.value / 2, word.value % 2 == 1, value.value, script.value));
  }

  lemma VarintsAre64Bit(s: seq<byte>)
    ensures Decode(s).Parsed? ==> Decode(s).value <= U64_MAX
  {
    if Decode(s).Parsed? {
      DecodeIsCanonical(s);
    }
  }
}
