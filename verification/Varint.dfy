/**
  A cursor over bytes, and the variable-length numbers of the on-disk formats: base 128, highest
  digit first, with every digit but the last counted one too high. That offset is what makes the
  coding a bijection, which is the theorem here.
 */
module Varint {
  import opened Bytes

  const U64_MAX: nat := U64_LIMIT - 1

  datatype DecodeError =
    | Truncated(wanted: nat, left: nat)
    | Trailing(left: nat)
    | BadVarint
    | TooLong(declared: nat, limit: nat)
    | NotAscending(input: nat)
    | BadTag(tag: nat)

  type Result<T> = Fallible<T, DecodeError>

  /** What a decoder makes of the front of a byte string. */
  datatype Parsed<+T> = Parsed(value: T, rest: seq<byte>) | Failed(error: DecodeError)

  // ----- the encoding -----------------------------------------------------------------------------

  /** Every group flagged as followed by another. */
  ghost function EncodeMore(n: nat): (s: seq<byte>)
    ensures |s| > 0
  {
    if n <= 0x7f then [n + 128] else EncodeMore(n / 128 - 1) + [n % 128 + 128]
  }

  ghost function Encode(n: nat): (s: seq<byte>)
    ensures |s| > 0
  {
    if n <= 0x7f then [n] else EncodeMore(n / 128 - 1) + [n % 128]
  }

  /** The decoder's loop: `value` so far, and how many groups it will still read. */
  ghost function DecodeFrom(s: seq<byte>, value: nat, groups: nat): Parsed<nat>
    decreases groups
  {
    if groups == 0 then Failed(BadVarint)
    else if |s| == 0 then Failed(Truncated(1, 0))
    else if value > U64_MAX / 128 then Failed(BadVarint)
    else
      var v := value * 128 + s[0] % 128;
      if s[0] < 128 then Parsed(v, s[1..])
      else if v == U64_MAX then Failed(BadVarint)
      else DecodeFrom(s[1..], v + 1, groups - 1)
  }

  ghost function Decode(s: seq<byte>): Parsed<nat> {
    DecodeFrom(s, 0, 10)
  }

  ghost function Pow128(k: nat): nat {
    if k == 0 then 1 else 128 * Pow128(k - 1)
  }

  lemma {:induction false} MoreIsShort(n: nat, k: nat)
    requires 0 < k && n < Pow128(k)
    ensures |EncodeMore(n)| <= k
    decreases k
  {
    if n > 0x7f {
      assert k > 1 by {
        assert Pow128(1) == 128;
      }
      MoreIsShort(n / 128 - 1, k - 1);
    }
  }

  /** The length of a code, by how large the number is. */
  lemma EncodeIsShort(n: nat, k: nat)
    requires 0 < k && n < Pow128(k)
    ensures |Encode(n)| <= k
  {
    if n > 0x7f {
      assert k > 1 by {
        assert Pow128(1) == 128;
      }
      MoreIsShort(n / 128 - 1, k - 1);
    }
  }

  /** A flagged group: its digit taken in, and one more counted. */
  lemma DecodeOneMore(b: byte, rest: seq<byte>, value: nat, groups: nat)
    requires b >= 128 && groups > 0 && value <= U64_MAX / 128 && value * 128 + b % 128 < U64_MAX
    ensures DecodeFrom([b] + rest, value, groups) == DecodeFrom(rest, value * 128 + b % 128 + 1, groups - 1)
  {
    assert ([b] + rest)[1..] == rest;
  }

  /** Flagged groups leave the decoder one past the number they spell. */
  lemma {:induction false} DecodeMore(n: nat, rest: seq<byte>, groups: nat)
    requires n <= U64_MAX / 128 && |EncodeMore(n)| <= groups
    ensures DecodeFrom(EncodeMore(n) + rest, 0, groups) == DecodeFrom(rest, n + 1, groups - |EncodeMore(n)|)
    decreases n
  {
    hide DecodeFrom;
    if n <= 0x7f {
      DecodeOneMore(n + 128, rest, 0, groups);
    } else {
      var (front, last: byte) := (EncodeMore(n / 128 - 1), n % 128 + 128);
      assert n / 128 * 128 + last % 128 == n;
      DecodeMore(n / 128 - 1, [last] + rest, groups);
      Associates(front, [last], rest);
      DecodeOneMore(last, rest, n / 128, groups - |front|);
    }
  }

  /** The last group, once the ones before it have been read. */
  lemma {:induction false} DecodeLast(value: nat, last: byte, rest: seq<byte>, groups: nat)
    requires value <= U64_MAX / 128 && last < 128 && groups > 0
    ensures DecodeFrom([last] + rest, value, groups) == Parsed(value * 128 + last, rest)
  {
    assert ([last] + rest)[1..] == rest;
  }

  /** Every 64-bit number decodes from its code, whatever follows. */
  lemma {:induction false} DecodeEncode(n: nat, rest: seq<byte>)
    requires n <= U64_MAX
    ensures Decode(Encode(n) + rest) == Parsed(n, rest)
    ensures |Encode(n)| <= 10
  {
    hide DecodeFrom, EncodeMore, Pow128;
    EightyBits();
    EncodeIsShort(n, 10);
    if n <= 0x7f {
      DecodeLast(0, n, rest, 10);
    } else {
      var last: byte := n % 128;
      var front := EncodeMore(n / 128 - 1);
      DecodeMore(n / 128 - 1, [last] + rest, 10);
      DecodeLast(n / 128, last, rest, 10 - |front|);
      assert Encode(n) + rest == front + ([last] + rest);
    }
  }

  lemma EightyBits()
    ensures Pow128(10) > U64_MAX
  {
    assert Pow128(5) == 0x8_0000_0000;
  }

  /** What the groups read so far were. */
  ghost function Prefix(value: nat): seq<byte> {
    if value == 0 then [] else EncodeMore(value - 1)
  }

  lemma {:induction false} DecodesOnlyCodes(s: seq<byte>, value: nat, groups: nat)
    requires DecodeFrom(s, value, groups).Parsed?
    ensures var p := DecodeFrom(s, value, groups);
            p.value <= U64_MAX && Prefix(value) + s == Encode(p.value) + p.rest
    decreases groups
  {
    hide Prefix, Encode;
    HeadAndTail(s);
    Associates(Prefix(value), [s[0]], s[1..]);
    PrefixPush(value, s[0]);
    if s[0] >= 128 {
      DecodesOnlyCodes(s[1..], value * 128 + s[0] % 128 + 1, groups - 1);
    }
  }

  lemma PrefixPush(value: nat, b: byte)
    ensures b < 128 ==> Encode(value * 128 + b % 128) == Prefix(value) + [b]
    ensures b >= 128 ==> Prefix(value * 128 + b % 128 + 1) == Prefix(value) + [b]
  {
    var v := value * 128 + b % 128;
    assert v / 128 == value && v % 128 == b % 128;
  }

  /** The decoder accepts nothing but codes: the coding is a bijection onto what it accepts. */
  lemma DecodeIsCanonical(s: seq<byte>)
    requires Decode(s).Parsed?
    ensures Decode(s).value <= U64_MAX && s == Encode(Decode(s).value) + Decode(s).rest
  {
    DecodesOnlyCodes(s, 0, 10);
    assert [] + s == s;
  }

  // ----- the reader -------------------------------------------------------------------------------

  /** A cursor over bytes already in memory. */
  class Reader {
    var bytes: seq<byte>

    constructor (bytes: seq<byte>)
      ensures this.bytes == bytes
    {
      this.bytes := bytes;
    }

    method Take(count: nat) returns (taken: Result<seq<byte>>)
      modifies this
      ensures |old(bytes)| < count ==>
                taken == Err(Truncated(count, |old(bytes)|)) && bytes == old(bytes)
      ensures |old(bytes)| >= count ==>
                taken == Ok(old(bytes)[..count]) && bytes == old(bytes)[count..]
    {
      if |bytes| < count {
        return Err(Truncated(count, |bytes|));
      }
      taken := Ok(bytes[..count]);
      bytes := bytes[count..];
    }

    /** The next varint, by Core's loop over at most ten groups. */
    method Varint() returns (r: Result<nat>)
      modifies this
      ensures match Decode(old(bytes))
              case Parsed(value, rest) => r == Ok(value) && bytes == rest
              case Failed(error) => r == Err(error)
    {
      var value: nat := 0;
      var group := 0;
      while group < 10
        invariant group <= 10 && Decode(old(bytes)) == DecodeFrom(bytes, value, 10 - group)
      {
        var taken := Take(1);
        if taken.Err? {
          return Err(taken.error);
        }
        var byte := taken.value[0];
        if value > U64_MAX / 128 {
          return Err(BadVarint);
        }
        value := value * 128 + byte % 128;
        if byte < 128 {
          return Ok(value);
        }
        if value == U64_MAX {
          return Err(BadVarint);
        }
        value := value + 1;
        group := group + 1;
      }
      return Err(BadVarint);
    }

    /** A number no larger than the limit, or the error that names both. */
    method Count(limit: nat) returns (r: Result<nat>)
      modifies this
      ensures match DecodeCount(old(bytes), limit)
              case Parsed(value, rest) => r == Ok(value) && bytes == rest
              case Failed(error) => r == Err(error)
    {
      r := Varint();
      if r.Ok? && r.value > limit {
        r := Err(TooLong(r.value, limit));
      }
    }

    method U32() returns (r: Result<nat>)
      modifies this
      ensures match DecodeU32(old(bytes))
              case Parsed(value, rest) => r == Ok(value) && bytes == rest
              case Failed(error) => r == Err(error)
    {
      var taken := Take(4);
      r := if taken.Ok? then Ok(GetU32(taken.value)) else Err(taken.error);
    }

    method Finish() returns (r: Result<()>)
      ensures r == if bytes == [] then Ok(()) else Err(Trailing(|bytes|))
    {
      r := if bytes == [] then Ok(()) else Err(Trailing(|bytes|));
    }
  }

  ghost function DecodeCount(s: seq<byte>, limit: nat): Parsed<nat> {
    var p := Decode(s);
    if p.Parsed? && p.value > limit then Failed(TooLong(p.value, limit)) else p
  }

  ghost function DecodeU32(s: seq<byte>): Parsed<nat> {
    if |s| < 4 then Failed(Truncated(4, |s|)) else Parsed(GetU32(s[..4]), s[4..])
  }

  ghost function DecodeBytes(s: seq<byte>, count: nat): Parsed<seq<byte>> {
    if |s| < count then Failed(Truncated(count, |s|)) else Parsed(s[..count], s[count..])
  }

  /** The groups of a number, least significant first. */
  method Groups(value: nat) returns (groups: seq<byte>)
    requires value <= U64_MAX
    ensures Reversed(groups) == Encode(value) && 0 < |groups| <= 10
  {
    hide Above, Encode, Decode, Reversed;
    DecodeEncode(value, []);
    GroupsStart(value);
    groups := [];
    var left := value;
    while left > 0x7f
      invariant |groups| < |Encode(value)| <= 10
      invariant Encode(value) == Above(left, |groups| == 0) + Reversed(groups)
      decreases left
    {
      GroupsGoOn(value, left, groups);
      groups := groups + [Group(left, |groups| == 0)];
      left := left / 128 - 1;
    }
    GroupsEnd(value, left, groups);
    groups := groups + [Group(left, |groups| == 0)];
  }

  /** Seven bits, flagged when another group follows in the output. */
  function Group(left: nat, first: bool): byte {
    left % 128 + (if first then 0 else 128)
  }

  lemma GroupsStart(value: nat)
    ensures Encode(value) == Above(value, true) + Reversed([])
  {
  }

  lemma {:induction false} GroupsGoOn(value: nat, left: nat, groups: seq<byte>)
    requires left > 0x7f && Encode(value) == Above(left, |groups| == 0) + Reversed(groups)
    ensures Encode(value) == Above(left / 128 - 1, false) + Reversed(groups + [Group(left, |groups| == 0)])
    ensures |groups| + 1 < |Encode(value)|
  {
    hide Reversed;
    var group := Group(left, |groups| == 0);
    var front := EncodeMore(left / 128 - 1);
    ReversedPush(groups, group);
    ReversedLength(groups);
    assert Above(left, |groups| == 0) == front + [group];
    assert front + ([group] + Reversed(groups)) == (front + [group]) + Reversed(groups);
  }

  lemma {:induction false} GroupsEnd(value: nat, left: nat, groups: seq<byte>)
    requires left <= 0x7f && Encode(value) == Above(left, |groups| == 0) + Reversed(groups)
    ensures Reversed(groups + [Group(left, |groups| == 0)]) == Encode(value)
    ensures |groups| + 1 == |Encode(value)|
  {
    hide Reversed;
    ReversedPush(groups, Group(left, |groups| == 0));
    ReversedLength(groups);
  }

  /** The groups above the ones already taken off. */
  ghost function Above(left: nat, first: bool): seq<byte> {
    if first then Encode(left) else EncodeMore(left)
  }

  lemma {:induction false} ReversedLength(s: seq<byte>)
    ensures |Reversed(s)| == |s|
  {
    if |s| > 0 {
      ReversedLength(s[..|s| - 1]);
    }
  }

  /** Append a number's code, its groups in reverse. */
  method PutVarint(bytes: seq<byte>, value: nat) returns (r: seq<byte>)
    requires value <= U64_MAX
    ensures r == bytes + Encode(value)
  {
    hide Encode;
    var groups := Groups(value);
    r := bytes;
    var position := |groups|;
    assert groups[..position] == groups;
    while position > 0
      invariant 0 <= position <= |groups|
      invariant r + Reversed(groups[..position]) == bytes + Encode(value)
    {
      position := position - 1;
      assert groups[..position + 1] == groups[..position] + [groups[position]];
      ReversedPush(groups[..position], groups[position]);
      r := r + [groups[position]];
    }
    assert groups[..0] == [];
  }

  ghost function Reversed(s: seq<byte>): seq<byte> {
    if |s| == 0 then [] else [s[|s| - 1]] + Reversed(s[..|s| - 1])
  }

  lemma ReversedPush(s: seq<byte>, b: byte)
    ensures Reversed(s + [b]) == [b] + Reversed(s)
  {
    assert (s + [b])[..|s|] == s;
  }

  // ----- what a code spells -----------------------------------------------------------------------

  /** The low seven bits of each byte, read as digits of base 128, highest first. */
  ghost function Digits(s: seq<byte>): nat {
    if |s| == 0 then 0 else Digits(s[..|s| - 1]) * 128 + s[|s| - 1] % 128
  }

  /** How many numbers have a code shorter than `k` bytes: 128 of one byte, 128 squared of two, and so on. */
  ghost function Shorter(k: nat): nat {
    if k <= 1 then 0 else Shorter(k - 1) + Pow128(k - 1)
  }

  lemma {:induction false} ShorterShifts(k: nat)
    requires k > 0
    ensures (Shorter(k) + 1) * 128 == Shorter(k + 1)
    decreases k
  {
    if k > 1 {
      ShorterShifts(k - 1);
    } else {
      assert Shorter(2) == Shorter(1) + Pow128(1) && Pow128(1) == 128 * Pow128(0);
    }
  }

  /** One digit more: the groups in front count one higher, and stand for 128 times as much. */
  lemma DigitsPush(front: seq<byte>, last: byte, n: nat)
    requires |front| > 0 && n / 128 - 1 == Digits(front) + Shorter(|front|) && last % 128 == n % 128
    ensures n == Digits(front + [last]) + Shorter(|front| + 1)
  {
    ShorterShifts(|front|);
    assert (front + [last])[..|front|] == front;
    hide Shorter;
    assert Digits(front + [last]) == Digits(front) * 128 + n % 128;
  }

  lemma OneDigit(b: byte)
    ensures Digits([b]) == b % 128 && Shorter(1) == 0
  {
    assert [b][..0] == [];
    assert Digits([b]) == Digits([b][..0]) * 128 + b % 128;
  }

  lemma {:induction false} MoreSpells(n: nat)
    ensures var s := EncodeMore(n);
            && n == Digits(s) + Shorter(|s|)
            && forall k :: 0 <= k < |s| ==> s[k] >= 128
    decreases n
  {
    hide Digits, Shorter;
    if n <= 0x7f {
      OneDigit(n + 128);
    } else {
      MoreSpells(n / 128 - 1);
      DigitsPush(EncodeMore(n / 128 - 1), n % 128 + 128, n);
    }
  }

  /**
    A code is the number's place among all codes: those shorter than it, and then its digits. Every
    byte but the last is flagged.
   */
  lemma EncodeSpells(n: nat)
    ensures var s := Encode(n);
            && n == Digits(s) + Shorter(|s|)
            && s[|s| - 1] < 128 && forall k :: 0 <= k < |s| - 1 ==> s[k] >= 128
  {
    hide Digits, Shorter;
    if n <= 0x7f {
      OneDigit(n);
    } else {
      MoreSpells(n / 128 - 1);
      DigitsPush(EncodeMore(n / 128 - 1), n % 128, n);
    }
  }
}
