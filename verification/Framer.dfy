/**
  The v1 framer: a state machine fed by however many reads a peer chooses to spread a message over,
  proved to find the messages and the first error that one pass over the whole stream would.
 */
module Framer {
  import opened Bytes

  const HEADER_BYTES: nat := 24
  const MAX_MESSAGE_LEN: nat := 4_000_000

  datatype WireError =
    | WrongMagic(seen: seq<byte>)
    | BadCommand
    | TooLong(declared: nat)
    | OverCap(declared: nat, cap: nat)
    | Malformed
    | TooManyItems(items: nat, allowed: nat)
    | Stalled

  type Result<T> = Fallible<T, WireError>

  /**
    The network's magic, the library's decoding of a whole frame, checksum included, and the item
    counts that are checked behind it.
   */
  datatype Wire<!M> = Wire(
    magic: seq<byte>,
    decode: seq<byte> -> Option<M>,
    tooMany: M -> Option<(nat, nat)>)

  // ----- one pass over a stream -------------------------------------------------------------------

  predicate Printable(b: byte) { 0x20 <= b <= 0x7e }

  /** Printable up to some point and zero from there on. */
  ghost predicate IsMessageType(command: seq<byte>) {
    exists k :: 0 <= k <= |command| && PrintableTo(command, k) && ZeroFrom(command, k)
  }

  ghost predicate PrintableTo(command: seq<byte>, k: nat)
    requires k <= |command|
  {
    forall i :: 0 <= i < k ==> Printable(command[i])
  }

  ghost predicate ZeroFrom(command: seq<byte>, k: nat) {
    forall i :: k <= i < |command| ==> command[i] == 0
  }

  /** What a header declares: magic, then message type, then length. */
  ghost function Declares<M(!new)>(wire: Wire<M>, cap: nat, header: seq<byte>): Result<nat>
    requires |header| == HEADER_BYTES
  {
    if header[..4] != wire.magic then Err(WrongMagic(header[..4]))
    else if !IsMessageType(header[4..16]) then Err(BadCommand)
    else
      var declared := GetU32(header[16..20]);
      if declared > MAX_MESSAGE_LEN then Err(TooLong(declared))
      else if declared > cap then Err(OverCap(declared, cap))
      else Ok(declared)
  }

  /** What a whole frame is taken for. */
  ghost function Decoded<M>(wire: Wire<M>, frame: seq<byte>): Result<M> {
    match wire.decode(frame)
    case None => Err(Malformed)
    case Some(message) =>
      match wire.tooMany(message)
      case None => Ok(message)
      case Some(counts) => Err(TooManyItems(counts.0, counts.1))
  }

  /** How a stream ends: part of a frame left over, or refused. */
  datatype End = Waiting(rest: seq<byte>) | Refused(error: WireError)

  /** One pass over a stream whose messages from number `i` on are each held to a cap of their own. */
  ghost function Whole<M(!new)>(wire: Wire<M>, caps: nat -> nat, i: nat, s: seq<byte>): (seq<(M, nat)>, End)
    decreases |s|
  {
    if |s| < HEADER_BYTES then ([], Waiting(s))
    else
      match Declares(wire, caps(i), s[..HEADER_BYTES])
      case Err(error) => ([], Refused(error))
      case Ok(declared) =>
        var len := HEADER_BYTES + declared;
        if |s| < len then ([], Waiting(s))
        else
          match Decoded(wire, s[..len])
          case Err(error) => ([], Refused(error))
          case Ok(message) =>
            var more := Whole(wire, caps, i + 1, s[len..]);
            ([(message, len)] + more.0, more.1)
  }

  // ----- the state machine ------------------------------------------------------------------------

  /** A message half read: its bytes so far, and its length once the header is in. */
  datatype Half = Half(bytes: seq<byte>, declared: Option<nat>)

  datatype Frame<M> = Message(message: M, wireLen: nat) | Idle | Eof

  function Want(half: Half): nat {
    if half.declared.Some? then HEADER_BYTES + half.declared.value else HEADER_BYTES
  }

  /** A half-read message always has something still to come. */
  ghost predicate Partial<M(!new)>(wire: Wire<M>, cap: nat, half: Half) {
    && |half.bytes| < Want(half)
    && (half.declared.Some? ==>
          |half.bytes| >= HEADER_BYTES
          && Declares(wire, cap, half.bytes[..HEADER_BYTES]) == Ok(half.declared.value))
  }

  /** What new bytes come to: still part of a header, a length, or a frame to decode. */
  ghost function Settled<M(!new)>(wire: Wire<M>, cap: nat, half: Half): (Half, Result<Frame<M>>) {
    if half.declared.None? && |half.bytes| < HEADER_BYTES then (half, Ok(Idle))
    else if half.declared.None? then
      match Declares(wire, cap, half.bytes[..HEADER_BYTES])
      case Err(error) => (half, Err(error))
      case Ok(declared) => Finished(wire, half.(declared := Some(declared)))
    else Finished(wire, half)
  }

  ghost function Finished<M>(wire: Wire<M>, half: Half): (Half, Result<Frame<M>>)
    requires half.declared.Some?
  {
    if |half.bytes| < Want(half) then (half, Ok(Idle))
    else
      match Decoded(wire, half.bytes[..Want(half)])
      case Ok(message) => (Half([], None), Ok(Message(message, Want(half))))
      case Err(error) => (if error == Malformed then half else Half([], None), Err(error))
  }

  /** A read fits when it gives something, and no more than was asked for. */
  predicate Fits(half: Half, chunk: seq<byte>) {
    0 < |chunk| && |half.bytes| + |chunk| <= Want(half)
  }

  ghost function Step<M(!new)>(wire: Wire<M>, cap: nat, half: Half, chunk: seq<byte>): (Half, Result<Frame<M>>) {
    Settled(wire, cap, half.(bytes := half.bytes + chunk))
  }

  /** One read: the bytes it gave, and what the peer was allowed at the time. */
  datatype Reading = Reading(chunk: seq<byte>, cap: nat)

  /** Feed reads until one is refused: the messages, and how it ended. `None` when a read does not fit. */
  ghost function Fed<M(!new)>(wire: Wire<M>, half: Half, given: seq<Reading>): Option<(seq<(M, nat)>, End)>
    decreases |given|
  {
    if |given| == 0 then Some(([], Waiting(half.bytes)))
    else if !Fits(half, given[0].chunk) then None
    else
      match Step(wire, given[0].cap, half, given[0].chunk)
      case (_, Err(error)) => Some(([], Refused(error)))
      case (next, Ok(frame)) =>
        match Fed(wire, next, given[1..])
        case None => None
        case Some(more) =>
          if frame.Message? then Some(([(frame.message, frame.wireLen)] + more.0, more.1)) else Some(more)
  }

  ghost function Joined(given: seq<Reading>): seq<byte> {
    if |given| == 0 then [] else given[0].chunk + Joined(given[1..])
  }

  /** The read in which a header becomes complete. */
  predicate Completes(half: Half, chunk: seq<byte>) {
    half.declared.None? && |half.bytes| + |chunk| >= HEADER_BYTES
  }

  /** The header of message number `i`, and of each one after it, was completed under its own cap. */
  ghost predicate CapsAre<M(!new)>(wire: Wire<M>, half: Half, given: seq<Reading>, caps: nat -> nat, i: nat)
    decreases |given|
  {
    |given| > 0 ==>
      && (Completes(half, given[0].chunk) ==> given[0].cap == caps(i))
      && match Step(wire, given[0].cap, half, given[0].chunk)
         case (_, Err(_)) => true
         case (next, Ok(frame)) => CapsAre(wire, next, given[1..], caps, if frame.Message? then i + 1 else i)
  }

  /** The cap of a read counts only when it completes a header. */
  lemma CapCountsOnce<M(!new)>(wire: Wire<M>, half: Half, chunk: seq<byte>, cap: nat, other: nat)
    requires Completes(half, chunk) ==> cap == other
    ensures Step(wire, cap, half, chunk) == Step(wire, other, half, chunk)
  {
    hide Declares, Decoded;
  }

  /** One read keeps the state partial, and does to the stream what one pass does. */
  lemma {:induction false} StepIsWhole<M(!new)>(
    wire: Wire<M>, caps: nat -> nat, i: nat, half: Half, chunk: seq<byte>, rest: seq<byte>)
    requires Partial(wire, caps(i), half) && Fits(half, chunk)
    ensures var (next, r) := Step(wire, caps(i), half, chunk);
            var s := half.bytes + chunk + rest;
            match r
            case Err(error) => Whole(wire, caps, i, s) == ([], Refused(error))
            case Ok(Idle) => Partial(wire, caps(i), next) && next.bytes == half.bytes + chunk
            case Ok(Message(message, len)) =>
              && next == Half([], None)
              && Whole(wire, caps, i, s)
                 == ([(message, len)] + Whole(wire, caps, i + 1, rest).0, Whole(wire, caps, i + 1, rest).1)
            case Ok(Eof) => false
  {
    hide IsMessageType, Decoded, Declares;
    var (pend, s) := (half.bytes + chunk, half.bytes + chunk + rest);
    if |pend| >= HEADER_BYTES {
      assert s[..HEADER_BYTES] == pend[..HEADER_BYTES];
      if half.declared.Some? {
        assert pend[..HEADER_BYTES] == half.bytes[..HEADER_BYTES];
      }
      var d := Declares(wire, caps(i), pend[..HEADER_BYTES]);
      if d.Ok? && |pend| == HEADER_BYTES + d.value {
        assert s[..|pend|] == pend && pend[..|pend|] == pend && s[|pend|..] == rest;
      }
    }
  }

  /** The cap may change between reads: it is looked at once, when a header is complete. */
  lemma StepKeepsPartial<M(!new)>(wire: Wire<M>, cap: nat, half: Half, chunk: seq<byte>)
    requires cap <= MAX_MESSAGE_LEN && Partial(wire, MAX_MESSAGE_LEN, half) && Fits(half, chunk)
    ensures var (next, r) := Step(wire, cap, half, chunk);
            r.Ok? ==> Partial(wire, MAX_MESSAGE_LEN, next)
  {
    hide IsMessageType, Decoded;
    EmptyIsPartial(wire, MAX_MESSAGE_LEN);
    if half.declared.Some? {
      StepIsWhole(wire, _ => MAX_MESSAGE_LEN, 0, half, chunk, []);
    } else {
      StepIsWhole(wire, _ => cap, 0, half, chunk, []);
    }
  }

  /** A partial message on its own completes nothing. */
  lemma PartialWaits<M(!new)>(wire: Wire<M>, caps: nat -> nat, i: nat, half: Half)
    requires Partial(wire, caps(i), half)
    ensures Whole(wire, caps, i, half.bytes) == ([], Waiting(half.bytes))
  {
    hide IsMessageType, Decoded, Declares;
  }

  /**
    However the bytes are cut, and however the cap moves between reads, feeding them gives what one
    pass over all of them gives when each message is held to the cap its header was completed under.
   */
  lemma {:induction false} FedIsWhole<M(!new)>(
    wire: Wire<M>, half: Half, given: seq<Reading>, caps: nat -> nat, i: nat)
    requires Partial(wire, caps(i), half) && Fed(wire, half, given).Some? && CapsAre(wire, half, given, caps, i)
    ensures Fed(wire, half, given).value == Whole(wire, caps, i, half.bytes + Joined(given))
    decreases |given|
  {
    hide Step, Whole, Declares, Completes;
    if |given| == 0 {
      PartialWaits(wire, caps, i, half);
      NothingBehind(half.bytes);
    } else {
      var rest := Joined(given[1..]);
      Associates(half.bytes, given[0].chunk, rest);
      CapCountsOnce(wire, half, given[0].chunk, given[0].cap, caps(i));
      StepIsWhole(wire, caps, i, half, given[0].chunk, rest);
      var (next, r) := Step(wire, given[0].cap, half, given[0].chunk);
      if r.Ok? {
        var k := if r.value.Message? then i + 1 else i;
        EmptyIsPartial(wire, caps(k));
        FedIsWhole(wire, next, given[1..], caps, k);
        NothingAhead(rest);
      }
    }
  }

  lemma EmptyIsPartial<M(!new)>(wire: Wire<M>, cap: nat)
    ensures Partial(wire, cap, Half([], None))
  {
  }

  /** Two cuttings of one stream with the same header caps give the same messages and the same first error. */
  lemma CutsAgree<M(!new)>(wire: Wire<M>, a: seq<Reading>, b: seq<Reading>, caps: nat -> nat)
    requires Joined(a) == Joined(b)
    requires Fed(wire, Half([], None), a).Some? && Fed(wire, Half([], None), b).Some?
    requires CapsAre(wire, Half([], None), a, caps, 0) && CapsAre(wire, Half([], None), b, caps, 0)
    ensures Fed(wire, Half([], None), a) == Fed(wire, Half([], None), b)
    ensures Fed(wire, Half([], None), a).value == Whole(wire, caps, 0, Joined(a))
  {
    hide Fed, Whole, Partial, CapsAre;
    EmptyIsPartial(wire, caps(0));
    FedIsWhole(wire, Half([], None), a, caps, 0);
    FedIsWhole(wire, Half([], None), b, caps, 0);
    NothingAhead(Joined(a));
  }

  /** Reads under one cap have that cap for every header. */
  lemma {:induction false} OneCapForAll<M(!new)>(wire: Wire<M>, half: Half, given: seq<Reading>, cap: nat, i: nat)
    requires forall k :: 0 <= k < |given| ==> given[k].cap == cap
    ensures CapsAre(wire, half, given, _ => cap, i)
    decreases |given|
  {
    hide Step;
    if |given| > 0 {
      var (next, r) := Step(wire, given[0].cap, half, given[0].chunk);
      if r.Ok? {
        OneCapForAll(wire, next, given[1..], cap, if r.value.Message? then i + 1 else i);
      }
    }
  }

  /** A stream can always be cut: one byte at a time always fits. */
  ghost function Bytewise(s: seq<byte>, cap: nat): seq<Reading> {
    if |s| == 0 then [] else [Reading([s[0]], cap)] + Bytewise(s[1..], cap)
  }

  lemma {:induction false} BytewiseFits<M(!new)>(wire: Wire<M>, cap: nat, half: Half, s: seq<byte>)
    requires Partial(wire, cap, half)
    ensures Fed(wire, half, Bytewise(s, cap)).Some?
    ensures Joined(Bytewise(s, cap)) == s
    decreases |s|
  {
    hide Step, Declares;
    if |s| > 0 {
      assert Bytewise(s, cap)[1..] == Bytewise(s[1..], cap);
      HeadAndTail(s);
      StepIsWhole(wire, _ => cap, 0, half, [s[0]], []);
      var (next, r) := Step(wire, cap, half, [s[0]]);
      EmptyIsPartial(wire, cap);
      BytewiseFits(wire, cap, half, s[1..]);
      if r.Ok? {
        BytewiseFits(wire, cap, next, s[1..]);
      }
    }
  }

  // ----- the framer -------------------------------------------------------------------------------

  /** What one read of the socket came to. */
  datatype Input = Gave(chunk: seq<byte>) | Closed | TimedOut(late: bool) | Broke

  method IsMessageTypeValid(command: seq<byte>) returns (valid: bool)
    ensures valid <==> IsMessageType(command)
  {
    var padding := false;
    ghost var start: nat := 0;
    for i := 0 to |command|
      invariant start <= i && PrintableTo(command, start)
      invariant if padding then start < i && forall j :: start <= j < i ==> command[j] == 0 else start == i
    {
      if padding {
        if command[i] != 0 {
          NotAType(command, start, i);
          return false;
        }
      } else if command[i] == 0 {
        padding := true;
      } else if !Printable(command[i]) {
        NotAType(command, i, i);
        return false;
      } else {
        start := start + 1;
      }
    }
    assert ZeroFrom(command, start);
    return true;
  }

  /** A zero with something behind it, or a byte that is neither printable nor zero. */
  lemma NotAType(command: seq<byte>, zero: nat, bad: nat)
    requires zero <= bad < |command| && command[bad] != 0
    requires (zero < bad && command[zero] == 0) || (zero == bad && !Printable(command[bad]))
    ensures !IsMessageType(command)
  {
    assert !Printable(command[zero]);
    forall k | 0 <= k <= |command| ensures !(PrintableTo(command, k) && ZeroFrom(command, k)) {
      assert k <= bad ==> !ZeroFrom(command, k);
      assert k > bad ==> !PrintableTo(command, k);
    }
  }

  class FramerState<M(!new)> {
    const wire: Wire<M>
    const initial: nat
    var buffer: array<byte>
    var got: nat
    var declared: Option<nat>
    var started: bool

    ghost function Held(): Half
      requires got <= buffer.Length
      reads this, buffer
    {
      Half(buffer[..got], declared)
    }

    /** Ready for a read: a message in part, and room for what is still to come of it. */
    ghost predicate Ready()
      reads this, buffer
    {
      && got <= buffer.Length && Partial(wire, MAX_MESSAGE_LEN, Held())
      && Want(Held()) <= buffer.Length && (started <==> got > 0)
      && |wire.magic| == 4
    }

    /** The most a buffer grows to under one cap. */
    function Room(cap: nat): nat {
      if initial < HEADER_BYTES + cap then HEADER_BYTES + cap else initial
    }

    constructor (wire: Wire<M>, initial: nat)
      requires initial >= HEADER_BYTES && |wire.magic| == 4
      ensures fresh(buffer) && this.wire == wire && this.initial == initial && buffer.Length == initial
      ensures got == 0 && declared == None && Ready()
    {
      this.wire := wire;
      this.initial := initial;
      buffer := new byte[initial](_ => 0);
      got, declared, started := 0, None, false;
    }

    /** Back to the start of a frame, in the same buffer. */
    method Reset()
      requires buffer.Length >= HEADER_BYTES && |wire.magic| == 4
      modifies this
      ensures got == 0 && declared == None && buffer == old(buffer) && Ready()
    {
      got, declared, started := 0, None, false;
    }

    method ParseHeader(cap: nat) returns (r: Result<nat>)
      requires HEADER_BYTES <= buffer.Length
      ensures r == Declares(wire, cap, buffer[..HEADER_BYTES])
    {
      var header := buffer[..HEADER_BYTES];
      if header[..4] != wire.magic {
        return Err(WrongMagic(header[..4]));
      }
      var valid := IsMessageTypeValid(header[4..16]);
      if !valid {
        return Err(BadCommand);
      }
      var length := GetU32(header[16..20]);
      if length > MAX_MESSAGE_LEN {
        return Err(TooLong(length));
      }
      if length > cap {
        return Err(OverCap(length, cap));
      }
      return Ok(length);
    }

    /** Room for a declared length, the bytes already there kept. */
    method Grow(want: nat)
      requires got <= buffer.Length
      modifies this`buffer
      ensures buffer == old(buffer) || fresh(buffer)
      ensures buffer.Length == if old(buffer.Length) < want then want else old(buffer.Length)
      ensures buffer[..got] == old(buffer[..got])
    {
      if buffer.Length < want {
        var more := new byte[want](i requires 0 <= i < want reads this, buffer
                                     => if i < buffer.Length then buffer[i] else 0);
        buffer := more;
      }
    }

    method Finish() returns (r: Result<Frame<M>>)
      requires got <= buffer.Length && declared.Some? && Want(Held()) <= got
      modifies this
      ensures buffer == old(buffer) && got <= old(got)
      ensures (Held(), r) == Finished(wire, old(Held()))
      ensures r.Ok? ==> got == 0 && !started
    {
      var wireLen := HEADER_BYTES + declared.value;
      assert buffer[..got][..wireLen] == buffer[..wireLen];
      var decoded := wire.decode(buffer[..wireLen]);
      if decoded.None? {
        return Err(Malformed);
      }
      got, declared, started := 0, None, false;
      var counts := wire.tooMany(decoded.value);
      if counts.Some? {
        return Err(TooManyItems(counts.value.0, counts.value.1));
      }
      return Ok(Message(decoded.value, wireLen));
    }

    method Settle(cap: nat) returns (r: Result<Frame<M>>)
      requires got <= buffer.Length && HEADER_BYTES <= buffer.Length && started && got > 0
      requires declared.Some? ==> got >= HEADER_BYTES && Want(Held()) <= buffer.Length
      modifies this
      ensures got <= buffer.Length && (Held(), r) == Settled(wire, cap, old(Held()))
      ensures buffer == old(buffer) || fresh(buffer)
      ensures old(buffer.Length) <= buffer.Length
      ensures buffer.Length <= old(buffer.Length) || buffer.Length <= HEADER_BYTES + cap
      ensures r.Ok? ==> Want(Held()) <= buffer.Length && (started <==> got > 0)
    {
      hide Decoded;
      if declared.None? {
        if got < HEADER_BYTES {
          return Ok(Idle);
        }
        assert buffer[..got][..HEADER_BYTES] == buffer[..HEADER_BYTES];
        var d := ParseHeader(cap);
        if d.Err? {
          return Err(d.error);
        }
        declared := Some(d.value);
        Grow(HEADER_BYTES + d.value);
      }
      if got >= HEADER_BYTES + declared.value {
        r := Finish();
        return;
      }
      return Ok(Idle);
    }

    /** One read, and the message it completed if it did. */
    method Read(input: Input, cap: nat) returns (r: Result<Frame<M>>)
      requires cap <= MAX_MESSAGE_LEN && Ready()
      requires input.Gave? ==> Fits(Held(), input.chunk)
      modifies this, buffer
      ensures buffer == old(buffer) || fresh(buffer)
      ensures got <= buffer.Length && (r.Ok? ==> Ready())
      ensures old(buffer.Length) <= buffer.Length
      ensures old(buffer.Length) <= Room(cap) ==> buffer.Length <= Room(cap)
      ensures match input
              case Gave(chunk) => (Held(), r) == Step(wire, cap, old(Held()), chunk)
              case Closed => r == Ok(Eof) && Held() == old(Held())
              case TimedOut(late) =>
                Held() == old(Held()) && r == (if late && old(got) > 0 then Err(Stalled) else Ok(Idle))
              case Broke => r == Ok(Eof) && Held() == old(Held())
    {
      hide Declares, Decoded, Settled;
      assert Want(Held()) > got;
      assert Want(Held()) <= buffer.Length;
      match input
      case Closed => return Ok(Eof);
      case Broke => return Ok(Eof);
      case TimedOut(late) => return if started && late then Err(Stalled) else Ok(Idle);
      case Gave(chunk) =>
        ghost var before := Held();
        Fill(chunk);
        started := true;
        got := got + |chunk|;
        StepKeepsPartial(wire, cap, before, chunk);
        r := Settle(cap);
    }

    /** Bytes of a read, behind those already there. */
    method Fill(chunk: seq<byte>)
      requires got + |chunk| <= buffer.Length
      modifies buffer
      ensures buffer[..got + |chunk|] == old(buffer[..got]) + chunk
    {
      for i := 0 to |chunk|
        invariant buffer[..got + i] == old(buffer[..got]) + chunk[..i]
      {
        buffer[got + i] := chunk[i];
      }
      assert chunk[..|chunk|] == chunk;
    }
  }

  // ----- what a frame on the wire is read as ------------------------------------------------------

  /** A name of printable bytes, filled up with zeros to twelve. */
  function TypeField(name: seq<byte>): (field: seq<byte>)
    requires |name| <= 12
    ensures |field| == 12
  {
    name + seq(12 - |name|, _ => 0)
  }

  /** Magic, type, length least significant byte first, checksum, payload. */
  function OnWire(magic: seq<byte>, name: seq<byte>, checksum: seq<byte>, payload: seq<byte>): seq<byte>
    requires |name| <= 12 && |payload| < U32_LIMIT
  {
    magic + TypeField(name) + PutU32(|payload|) + checksum + payload
  }

  lemma NameIsType(name: seq<byte>)
    requires |name| <= 12 && forall k :: 0 <= k < |name| ==> 32 <= name[k] <= 126
    ensures IsMessageType(TypeField(name))
  {
    var field := TypeField(name);
    assert PrintableTo(field, |name|) && ZeroFrom(field, |name|);
  }

  lemma WireParts(magic: seq<byte>, name: seq<byte>, checksum: seq<byte>, payload: seq<byte>, rest: seq<byte>)
    requires |magic| == 4 && |name| <= 12 && |checksum| == 4 && |payload| < U32_LIMIT
    ensures var (frame, n) := (OnWire(magic, name, checksum, payload), 24 + |payload|);
            && |frame| == n && (frame + rest)[..n] == frame && (frame + rest)[n..] == rest
            && var header := (frame + rest)[..24];
               header[..4] == magic && header[4..16] == TypeField(name) && GetU32(header[16..20]) == |payload|
  {
    U32RoundTrip(|payload|);
    hide PutU32, GetU32, TypeField;
    var t := OnWire(magic, name, checksum, payload) + rest;
    assert t[..4] == magic && t[4..16] == TypeField(name) && t[16..20] == PutU32(|payload|);
    assert t[..24][..4] == t[..4] && t[..24][4..16] == t[4..16] && t[..24][16..20] == t[16..20];
  }

  /** A well-formed frame within its cap is delivered as one message of 24 bytes more than its payload. */
  lemma FrameIsDelivered<M(!new)>(wire: Wire<M>, caps: nat -> nat, i: nat, name: seq<byte>, checksum: seq<byte>,
                                  payload: seq<byte>, message: M, rest: seq<byte>)
    requires |wire.magic| == 4 && |name| <= 12 && |checksum| == 4 && forall k :: 0 <= k < |name| ==> 32 <= name[k] <= 126
    requires |payload| <= 4_000_000 && |payload| <= caps(i)
    requires wire.decode(OnWire(wire.magic, name, checksum, payload)) == Some(message) && wire.tooMany(message) == None
    ensures var more := Whole(wire, caps, i + 1, rest);
            Whole(wire, caps, i, OnWire(wire.magic, name, checksum, payload) + rest)
            == ([(message, 24 + |payload|)] + more.0, more.1)
  {
    WireParts(wire.magic, name, checksum, payload, rest);
    NameIsType(name);
    hide OnWire, TypeField, IsMessageType, GetU32;
  }

  /** Another network's frame, one past the maximum and one past its cap are each refused at the header. */
  lemma FrameIsRefused<M(!new)>(wire: Wire<M>, caps: nat -> nat, i: nat, magic: seq<byte>, name: seq<byte>,
                                checksum: seq<byte>, payload: seq<byte>, rest: seq<byte>)
    requires |magic| == 4 && |name| <= 12 && |checksum| == 4 && forall k :: 0 <= k < |name| ==> 32 <= name[k] <= 126
    requires |payload| < U32_LIMIT
    ensures var r := Whole(wire, caps, i, OnWire(magic, name, checksum, payload) + rest);
            && (magic != wire.magic ==> r == ([], Refused(WrongMagic(magic))))
            && (magic == wire.magic && |payload| > 4_000_000 ==> r == ([], Refused(TooLong(|payload|))))
            && (magic == wire.magic && caps(i) < |payload| <= 4_000_000 ==>
                  r == ([], Refused(OverCap(|payload|, caps(i)))))
  {
    WireParts(magic, name, checksum, payload, rest);
    NameIsType(name);
    hide OnWire, TypeField, IsMessageType, GetU32;
  }
}
