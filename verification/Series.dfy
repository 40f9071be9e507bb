/**
  A series of append-only files: where records go, that they read back, what a crash leaves of
  them, and where a reopened series carries on.
 */
module Series {
  import opened Bytes
  import opened Numbers

  const FRAME_BYTES: nat := 8
  const MAX_FILE_BYTES: nat := 128 * 1024 * 1024
  const FIVE_DIGITS: nat := 100_000

  /** What is fixed for a series when it is opened. */
  datatype Shape = Shape(magic: seq<byte>, trailerBytes: nat, maxRecord: nat, maxFile: nat)

  predicate Proper(shape: Shape) {
    && |shape.magic| == 4
    && (shape.trailerBytes == 0 || shape.trailerBytes == 32)
    && 0 < shape.maxFile <= MAX_FILE_BYTES
    && FRAME_BYTES + shape.maxRecord + 32 < U32_LIMIT
  }

  /** Where a record's body is. */
  datatype Placed = Placed(file: nat, offset: nat, len: nat)

  type Files = map<nat, seq<byte>>

  datatype IoError =
    | PastBound(declared: nat, limit: nat)
    | InsideFrame
    | NotFound
    | UnexpectedEof
    | BadMagic(seen: seq<byte>)
    | WrongLength(declared: nat)
    | StorageFull
    | AlreadyExists
    | FileTooLong
    | BadChecksum

  type Io<T> = Fallible<T, IoError>

  /** The directory, how much of each file is on the disk, and the writer's cursor. */
  datatype View = Now(files: Files, durable: map<nat, nat>, file: nat, offset: nat, unsynced: bool)

  function SatAdd32(a: nat, b: nat): nat { if a + b < U32_LIMIT then a + b else U32_LIMIT - 1 }

  function Frame(shape: Shape, body: seq<byte>, trailer: seq<byte>): seq<byte>
    requires |body| < U32_LIMIT
  {
    shape.magic + PutU32(|body|) + body + trailer
  }

  // ----- what the operations do -------------------------------------------------------------------

  ghost function Synced(v: View): View {
    if v.unsynced && v.file in v.files
    then v.(durable := v.durable[v.file := |v.files[v.file]|], unsynced := false) else v
  }

  ghost predicate Stays(shape: Shape, v: View, record: nat) {
    v.offset == 0 || v.offset + record <= shape.maxFile
  }

  ghost function RolledTo(v: View, next: nat): View {
    v.(files := v.files[next := []], durable := v.durable[next := 0], file := next, offset := 0)
  }

  ghost function PlaceFor(shape: Shape, v: View, record: nat): (View, Option<IoError>) {
    if Stays(shape, v, record) then (v, None)
    else if v.file + 1 >= U32_LIMIT then (Synced(v), Some(StorageFull))
    else if v.file + 1 in v.files then (Synced(v), Some(AlreadyExists))
    else (RolledTo(Synced(v), v.file + 1), None)
  }

  ghost function Written(v: View, bytes: seq<byte>): View
    requires v.file in v.files
  {
    v.(files := v.files[v.file := v.files[v.file] + bytes], offset := v.offset + |bytes|, unsynced := true)
  }

  ghost function Appended(shape: Shape, v: View, body: seq<byte>, trailer: seq<byte>): (View, Io<Placed>)
    requires Valid(shape, v) && Suits(shape, body, trailer)
  {
    var (w, error) := PlaceFor(shape, v, FRAME_BYTES + |body| + |trailer|);
    if error.Some? then (w, Err(error.value))
    else (Written(w, Frame(shape, body, trailer)), Ok(Placed(w.file, w.offset + FRAME_BYTES, |body|)))
  }

  /** What the writer asserts of a record it is given. */
  predicate Suits(shape: Shape, body: seq<byte>, trailer: seq<byte>) {
    Proper(shape) && |trailer| == shape.trailerBytes && |body| <= shape.maxRecord
  }

  ghost predicate Valid(shape: Shape, v: View) {
    && Proper(shape)
    && v.file in v.files && v.offset == |v.files[v.file]| && v.offset < U32_LIMIT
    && v.file < U32_LIMIT
    && v.durable.Keys == v.files.Keys
    && (forall f :: f in v.files ==>
          f <= v.file && v.durable[f] <= |v.files[f]| && (f < v.file || !v.unsynced ==> v.durable[f] == |v.files[f]|))
  }

  /** The bytes of a framed record, place by place. */
  lemma FrameLayout(shape: Shape, body: seq<byte>, trailer: seq<byte>)
    requires |shape.magic| == 4 && |body| < U32_LIMIT
    ensures var (f, n) := (Frame(shape, body, trailer), |body|);
            && |f| == 8 + n + |trailer| && f[..4] == shape.magic && f[8..8 + n] == body && f[8 + n..] == trailer
            && var (a: nat, b: nat, c: nat, d: nat) := (f[4], f[5], f[6], f[7]);
               a + 256 * b + 65536 * c + 16777216 * d == n
  {
    U32RoundTrip(|body|);
    hide PutU32;
    var f := Frame(shape, body, trailer);
    assert f[4..8] == PutU32(|body|) && f[8..8 + |body|] == body;
    assert f[4] == f[4..8][0] && f[5] == f[4..8][1] && f[6] == f[4..8][2] && f[7] == f[4..8][3];
  }

  /** A record goes behind the last one while the file has room for it, and into the next file from then on. */
  lemma RecordGoes(shape: Shape, v: View, body: seq<byte>, trailer: seq<byte>)
    requires Valid(shape, v) && Suits(shape, body, trailer)
    ensures var r := Appended(shape, v, body, trailer).1;
            var end := v.offset + 8 + |body| + |trailer|;
            && (v.offset == 0 || end <= shape.maxFile ==> r == Ok(Placed(v.file, v.offset + 8, |body|)))
            && (v.offset > 0 && end > shape.maxFile && v.file + 1 < U32_LIMIT && v.file + 1 !in v.files ==>
                  r == Ok(Placed(v.file + 1, 8, |body|)))
            && (v.offset > 0 && end > shape.maxFile && v.file + 1 == U32_LIMIT ==> r == Err(StorageFull))
  {
    hide Frame;
  }

  /** Files only ever grow at the end. */
  ghost predicate Grows(a: Files, b: Files) {
    forall f :: f in a ==> f in b && a[f] <= b[f]
  }

  lemma SyncedIsValid(shape: Shape, v: View)
    requires Valid(shape, v)
    ensures Valid(shape, Synced(v)) && !Synced(v).unsynced && Synced(v).files == v.files
    ensures forall f :: f in v.files ==> Synced(v).durable[f] == |v.files[f]|
  {
  }

  lemma GrowsOn(a: Files, b: Files, c: Files)
    requires Grows(a, b) && Grows(b, c)
    ensures Grows(a, c)
  {
  }

  lemma PlacedIsValid(shape: Shape, v: View, record: nat)
    requires Valid(shape, v)
    ensures var (w, error) := PlaceFor(shape, v, record);
            && Valid(shape, w) && Grows(v.files, w.files)
            && (error.None? ==> Stays(shape, w, record) && (w.file == v.file ==> w == v) && w.file >= v.file)
            && (error.None? && w.file != v.file ==> w.file !in v.files && w.offset == 0)
  {
    SyncedIsValid(shape, v);
  }

  lemma FrameLength(shape: Shape, body: seq<byte>, trailer: seq<byte>)
    requires Suits(shape, body, trailer)
    ensures |Frame(shape, body, trailer)| == FRAME_BYTES + |body| + |trailer|
  {
  }

  /** An append leaves a valid series, its cursor inside 32 bits with no sum cut short. */
  lemma AppendedIsValid(shape: Shape, v: View, body: seq<byte>, trailer: seq<byte>)
    requires Valid(shape, v) && Suits(shape, body, trailer)
    ensures var (w, placed) := Appended(shape, v, body, trailer);
            Valid(shape, w) && Grows(v.files, w.files)
  {
    hide Frame, PlaceFor, Valid;
    var record := FRAME_BYTES + |body| + |trailer|;
    PlacedIsValid(shape, v, record);
    FrameLength(shape, body, trailer);
    var (w, error) := PlaceFor(shape, v, record);
    if error.None? {
      WrittenIsValid(shape, w, Frame(shape, body, trailer));
      GrowsOn(v.files, w.files, Written(w, Frame(shape, body, trailer)).files);
    }
  }

  lemma WrittenIsValid(shape: Shape, v: View, bytes: seq<byte>)
    requires Valid(shape, v) && Stays(shape, v, |bytes|) && |bytes| <= FRAME_BYTES + shape.maxRecord + 32
    ensures Valid(shape, Written(v, bytes)) && Grows(v.files, Written(v, bytes).files)
  {
  }

  // ----- what is in a file ------------------------------------------------------------------------

  ghost function End(at: Placed, shape: Shape): nat {
    at.offset + at.len + shape.trailerBytes
  }

  /** The record is in the files, framed, where the placement says. */
  ghost predicate Holds(shape: Shape, files: Files, at: Placed, body: seq<byte>, trailer: seq<byte>) {
    && Suits(shape, body, trailer) && at.len == |body| && at.offset >= FRAME_BYTES
    && at.file in files && End(at, shape) <= |files[at.file]|
    && files[at.file][at.offset - FRAME_BYTES..End(at, shape)] == Frame(shape, body, trailer)
  }

  lemma {:induction false} HoldsInLonger(
    shape: Shape, a: Files, b: Files, at: Placed, body: seq<byte>, trailer: seq<byte>)
    requires Holds(shape, a, at, body, trailer)
    requires at.file in b && (a[at.file] <= b[at.file] || (b[at.file] <= a[at.file] && End(at, shape) <= |b[at.file]|))
    ensures Holds(shape, b, at, body, trailer)
  {
    hide Frame;
    var (s, t) := (a[at.file], b[at.file]);
    assert t[at.offset - FRAME_BYTES..End(at, shape)] == s[at.offset - FRAME_BYTES..End(at, shape)];
  }

  lemma AppendedHolds(shape: Shape, v: View, body: seq<byte>, trailer: seq<byte>)
    requires Valid(shape, v) && Suits(shape, body, trailer)
    ensures var (w, placed) := Appended(shape, v, body, trailer);
            placed.Ok? ==> Holds(shape, w.files, placed.value, body, trailer)
  {
    hide Frame, Written, Holds, PlaceFor;
    PlacedIsValid(shape, v, FRAME_BYTES + |body| + |trailer|);
    var (w, error) := PlaceFor(shape, v, FRAME_BYTES + |body| + |trailer|);
    if error.None? {
      WrittenHolds(shape, w, body, trailer);
    }
  }

  lemma WrittenHolds(shape: Shape, v: View, body: seq<byte>, trailer: seq<byte>)
    requires Suits(shape, body, trailer) && v.file in v.files && v.offset == |v.files[v.file]|
    ensures Holds(shape, Written(v, Frame(shape, body, trailer)).files, Placed(v.file, v.offset + FRAME_BYTES, |body|),
                  body, trailer)
  {
    FrameLength(shape, body, trailer);
    hide Frame;
    var (had, frame) := (v.files[v.file], Frame(shape, body, trailer));
    assert (had + frame)[|had|..|had| + |frame|] == frame;
  }

  /** The read: one stretch of a file, its frame checked against what was asked for. */
  ghost function ReadAt(shape: Shape, files: Files, at: Placed): Io<(seq<byte>, seq<byte>)>
    requires Proper(shape)
  {
    if at.len > shape.maxRecord then Err(PastBound(at.len, shape.maxRecord))
    else if at.offset < FRAME_BYTES then Err(InsideFrame)
    else if at.file !in files then Err(NotFound)
    else if End(at, shape) > |files[at.file]| then Err(UnexpectedEof)
    else Unframed(shape, files[at.file][at.offset - FRAME_BYTES..End(at, shape)], at.len)
  }

  /** Body and trailer of a framed record, if magic and length are the expected ones. */
  ghost function Unframed(shape: Shape, bytes: seq<byte>, len: nat): Io<(seq<byte>, seq<byte>)>
    requires |bytes| == FRAME_BYTES + len + shape.trailerBytes
  {
    if bytes[..4] != shape.magic then Err(BadMagic(bytes[..4]))
    else if GetU32(bytes[4..8]) != len then Err(WrongLength(GetU32(bytes[4..8])))
    else Ok((bytes[8..8 + len], bytes[8 + len..]))
  }

  lemma FrameParts(shape: Shape, body: seq<byte>, trailer: seq<byte>)
    requires Suits(shape, body, trailer)
    ensures var s := Frame(shape, body, trailer);
            && |s| == FRAME_BYTES + |body| + |trailer|
            && s[..4] == shape.magic && s[4..8] == PutU32(|body|)
            && s[8..8 + |body|] == body && s[8 + |body|..] == trailer
  {
    hide PutU32;
  }

  lemma FrameIsItsParts(shape: Shape, bytes: seq<byte>, len: nat)
    requires Proper(shape) && len <= shape.maxRecord && |bytes| == FRAME_BYTES + len + shape.trailerBytes
    requires bytes[..4] == shape.magic && bytes[4..8] == PutU32(len)
    ensures bytes == Frame(shape, bytes[8..8 + len], bytes[8 + len..])
  {
    hide PutU32;
    assert bytes == bytes[..4] + bytes[4..8] + bytes[8..8 + len] + bytes[8 + len..];
  }

  lemma PutGet(s: seq<byte>)
    requires |s| == 4
    ensures PutU32(GetU32(s)) == s
  {
    var n := GetU32(s);
    var (a: nat, b: nat, c: nat, d: nat) := (s[0], s[1], s[2], s[3]);
    assert n == a + 256 * (b + 256 * (c + 256 * d));
    assert n / 256 == b + 256 * (c + 256 * d) && n % 256 == a;
    assert n / 65536 == c + 256 * d && n / 256 % 256 == b;
    assert n / 16777216 == d && n / 65536 % 256 == c;
  }

  /** A read gives a body and trailer exactly when they are what is framed at that place. */
  lemma ReadsWhatIsHeld(shape: Shape, files: Files, at: Placed, body: seq<byte>, trailer: seq<byte>)
    requires Proper(shape)
    ensures ReadAt(shape, files, at) == Ok((body, trailer)) <==> Holds(shape, files, at, body, trailer)
  {
    hide Frame, PutU32, GetU32;
    if Holds(shape, files, at, body, trailer) {
      FrameParts(shape, body, trailer);
      U32RoundTrip(|body|);
    }
    if ReadAt(shape, files, at) == Ok((body, trailer)) {
      var bytes := files[at.file][at.offset - FRAME_BYTES..End(at, shape)];
      PutGet(bytes[4..8]);
      FrameIsItsParts(shape, bytes, at.len);
    }
  }

  // ----- any sequence of appends ------------------------------------------------------------------

  datatype Entry = Entry(at: Placed, body: seq<byte>, trailer: seq<byte>)

  ghost predicate EntryHolds(shape: Shape, files: Files, e: Entry) {
    Holds(shape, files, e.at, e.body, e.trailer)
  }

  ghost predicate AllHold(shape: Shape, files: Files, log: seq<Entry>) {
    forall k :: 0 <= k < |log| ==> EntryHolds(shape, files, log[k])
  }

  /** The earlier of two records in one file ends before the frame of the later. */
  ghost predicate Apart(shape: Shape, a: Entry, b: Entry) {
    a.at.file == b.at.file ==> End(a.at, shape) + FRAME_BYTES <= b.at.offset
  }

  ghost predicate Disjoint(shape: Shape, log: seq<Entry>) {
    forall i, j :: 0 <= i < j < |log| ==> Apart(shape, log[i], log[j])
  }

  /** Inside the file bound, or alone in its file. */
  ghost predicate Bounded(shape: Shape, log: seq<Entry>, i: nat)
    requires i < |log|
  {
    End(log[i].at, shape) <= shape.maxFile
    || (log[i].at.offset == FRAME_BYTES
        && forall j :: 0 <= j < |log| && log[j].at.file == log[i].at.file ==> j == i)
  }

  ghost predicate AllBounded(shape: Shape, log: seq<Entry>) {
    forall i :: 0 <= i < |log| ==> Bounded(shape, log, i)
  }

  datatype SeriesOp = Append(body: seq<byte>, trailer: seq<byte>) | Sync

  /** Run from an opened series, keeping a log of every record it placed. */
  ghost function Run(shape: Shape, start: View, ops: seq<SeriesOp>): (r: (View, seq<Entry>))
    requires Valid(shape, start)
    requires forall k :: 0 <= k < |ops| && ops[k].Append? ==> Suits(shape, ops[k].body, ops[k].trailer)
    ensures Valid(shape, r.0)
  {
    if |ops| == 0 then (start, [])
    else
      var (v, log) := Run(shape, start, ops[..|ops| - 1]);
      match ops[|ops| - 1]
      case Sync =>
        SyncedIsValid(shape, v);
        (Synced(v), log)
      case Append(body, trailer) =>
        AppendedIsValid(shape, v, body, trailer);
        var (w, placed) := Appended(shape, v, body, trailer);
        (w, if placed.Ok? then log + [Entry(placed.value, body, trailer)] else log)
  }

  lemma NewIsApart(shape: Shape, v: View, log: seq<Entry>, body: seq<byte>, trailer: seq<byte>)
    requires Valid(shape, v) && Suits(shape, body, trailer) && AllHold(shape, v.files, log)
    requires Appended(shape, v, body, trailer).1.Ok?
    ensures var e := Entry(Appended(shape, v, body, trailer).1.value, body, trailer);
            forall i :: 0 <= i < |log| ==> Apart(shape, log[i], e)
  {
    hide Frame;
    PlacedIsValid(shape, v, FRAME_BYTES + |body| + |trailer|);
    var e := Entry(Appended(shape, v, body, trailer).1.value, body, trailer);
    forall i | 0 <= i < |log| ensures Apart(shape, log[i], e) {
      assert EntryHolds(shape, v.files, log[i]);
    }
  }

  lemma GrowthHolds(shape: Shape, a: Files, b: Files, log: seq<Entry>)
    requires AllHold(shape, a, log) && Grows(a, b)
    ensures AllHold(shape, b, log)
  {
    forall k | 0 <= k < |log| ensures EntryHolds(shape, b, log[k]) {
      assert EntryHolds(shape, a, log[k]);
      HoldsInLonger(shape, a, b, log[k].at, log[k].body, log[k].trailer);
    }
  }

  lemma NewIsBounded(shape: Shape, log: seq<Entry>, e: Entry, start: nat)
    requires AllBounded(shape, log) && Proper(shape)
    requires e.at.offset == start + FRAME_BYTES
    requires forall i :: 0 <= i < |log| ==> Apart(shape, log[i], e) && log[i].at.offset >= FRAME_BYTES
    requires start == 0 || End(e.at, shape) <= shape.maxFile
    ensures AllBounded(shape, log + [e])
  {
    var more := log + [e];
    forall i | 0 <= i < |more| ensures Bounded(shape, more, i) {
      if i < |log| {
        assert Bounded(shape, log, i) && Apart(shape, log[i], e);
      }
    }
  }

  /**
    Whatever is appended and synced, in whatever order: every record placed still reads back, no
    two overlap, and none passes the file bound unless the file is its own.
   */
  lemma {:induction false} EveryRunPlacesWell(shape: Shape, start: View, ops: seq<SeriesOp>)
    requires Valid(shape, start)
    requires forall k :: 0 <= k < |ops| && ops[k].Append? ==> Suits(shape, ops[k].body, ops[k].trailer)
    ensures var (v, log) := Run(shape, start, ops);
            && AllHold(shape, v.files, log)
            && Disjoint(shape, log)
            && AllBounded(shape, log)
            && Grows(start.files, v.files)
    decreases |ops|
  {
    hide Valid, Suits, AllHold, AllBounded, Disjoint, Appended, Grows;
    if |ops| > 0 {
      EveryRunPlacesWell(shape, start, ops[..|ops| - 1]);
      var (v, log) := Run(shape, start, ops[..|ops| - 1]);
      match ops[|ops| - 1]
      case Sync => SyncedIsValid(shape, v);
      case Append(body, trailer) => OneMoreAppend(shape, start.files, v, log, body, trailer);
    } else {
      NothingPlaced(shape, start);
    }
  }

  lemma NothingPlaced(shape: Shape, v: View)
    ensures AllHold(shape, v.files, []) && Disjoint(shape, []) && AllBounded(shape, []) && Grows(v.files, v.files)
  {
  }

  lemma OneMoreAppend(
    shape: Shape, from: Files, v: View, log: seq<Entry>, body: seq<byte>, trailer: seq<byte>)
    requires Valid(shape, v) && Suits(shape, body, trailer) && Grows(from, v.files)
    requires AllHold(shape, v.files, log) && Disjoint(shape, log) && AllBounded(shape, log)
    ensures var (w, placed) := Appended(shape, v, body, trailer);
            var more := if placed.Ok? then log + [Entry(placed.value, body, trailer)] else log;
            && AllHold(shape, w.files, more) && Disjoint(shape, more) && AllBounded(shape, more)
            && Grows(from, w.files)
  {
    hide Frame, PlaceFor;
    var record := FRAME_BYTES + |body| + |trailer|;
    var (w, placed) := Appended(shape, v, body, trailer);
    AppendedIsValid(shape, v, body, trailer);
    AppendedHolds(shape, v, body, trailer);
    GrowsOn(from, v.files, w.files);
    GrowthHolds(shape, v.files, w.files, log);
    if placed.Ok? {
      PlacedIsValid(shape, v, record);
      assert Stays(shape, PlaceFor(shape, v, record).0, record);
      var e := Entry(placed.value, body, trailer);
      NewIsApart(shape, v, log, body, trailer);
      forall i | 0 <= i < |log| ensures log[i].at.offset >= FRAME_BYTES {
        assert EntryHolds(shape, v.files, log[i]);
      }
      NewIsBounded(shape, log, e, e.at.offset - FRAME_BYTES);
    }
  }

  // ----- crashes and reopening --------------------------------------------------------------------

  /** What a crash may leave: all that was synced, and any prefix of what was not. */
  ghost predicate Survives(v: View, after: Files) {
    && (forall f :: f in after ==> f in v.files && after[f] <= v.files[f])
    && (forall f :: f in v.durable && v.durable[f] > 0 ==> f in after && v.durable[f] <= |after[f]|)
  }

  ghost predicate Durable(shape: Shape, v: View, at: Placed) {
    at.file in v.durable && End(at, shape) <= v.durable[at.file]
  }

  /** A record that was synced reads back after any crash. */
  lemma DurableSurvives(shape: Shape, v: View, after: Files, e: Entry)
    requires Valid(shape, v) && Survives(v, after)
    requires EntryHolds(shape, v.files, e) && Durable(shape, v, e.at)
    ensures ReadAt(shape, after, e.at) == Ok((e.body, e.trailer))
  {
    hide Frame, ReadAt;
    HoldsInLonger(shape, v.files, after, e.at, e.body, e.trailer);
    ReadsWhatIsHeld(shape, after, e.at, e.body, e.trailer);
  }

  /** After a sync every record placed so far is durable. */
  lemma SyncMakesDurable(shape: Shape, v: View, e: Entry)
    requires Valid(shape, v) && EntryHolds(shape, v.files, e)
    ensures Durable(shape, Synced(v), e.at)
  {
    SyncedIsValid(shape, v);
  }

  /** How many digits a file's number takes in its name, padded to five. */
  function NameDigits(number: nat): nat {
    if Digits(number) < 5 then 5 else Digits(number)
  }

  function Digits(number: nat): nat {
    if number < 10 then 1 else 1 + Digits(number / 10)
  }

  lemma {:induction false} DigitsUpTo(number: nat, k: nat)
    requires k > 0
    ensures Digits(number) <= k <==> number < Pow10(k)
    decreases number
  {
    if number >= 10 && k > 1 {
      DigitsUpTo(number / 10, k - 1);
    } else if number < 10 {
      assert Pow10(k - 1) >= 1;
    } else {
      DigitsUpTo(number / 10, 1);
      assert Pow10(1) == 10;
    }
  }

  lemma DigitsOf(number: nat)
    ensures NameDigits(number) == 5 <==> number < FIVE_DIGITS
  {
    DigitsUpTo(number, 5);
    assert Pow10(5) == FIVE_DIGITS;
  }

  /** The highest number whose name the directory scan recognises. */
  ghost predicate IsHighest(files: Files, file: nat) {
    && (forall f :: f in files && NameDigits(f) == 5 ==> f <= file)
    && ((file in files && NameDigits(file) == 5) || file == 0)
  }

  method Highest(names: seq<nat>) returns (highest: nat)
    ensures highest == 0 || (highest in names && NameDigits(highest) == 5)
    ensures forall n :: n in names && NameDigits(n) == 5 ==> n <= highest
  {
    highest := 0;
    for i := 0 to |names|
      invariant highest == 0 || (highest in names && NameDigits(highest) == 5)
      invariant forall k :: 0 <= k < i && NameDigits(names[k]) == 5 ==> names[k] <= highest
    {
      if NameDigits(names[i]) == 5 && names[i] > highest {
        highest := names[i];
      }
    }
  }

  /** The cursor an open starts from. */
  ghost predicate OpensAt(files: Files, file: nat, offset: nat) {
    IsHighest(files, file) && offset == if file in files then |files[file]| else 0
  }

  /** A directory opens at one cursor. */
  lemma OpensOnce(files: Files, file: nat, offset: nat, other: nat, elsewhere: nat)
    requires OpensAt(files, file, offset) && OpensAt(files, other, elsewhere)
    ensures file == other && offset == elsewhere
  {
    hide NameDigits;
  }

  /** Reopening finds the cursor the writer was at, if and only if its file has a five-digit number. */
  lemma ReopenRecoversIff(shape: Shape, v: View)
    requires Valid(shape, v)
    ensures OpensAt(v.files, v.file, v.offset) <==> v.file < FIVE_DIGITS
    ensures v.file < FIVE_DIGITS ==>
              forall file: nat, offset: nat :: OpensAt(v.files, file, offset) ==> file == v.file && offset == v.offset
  {
    hide NameDigits;
    DigitsOf(v.file);
    DigitsOf(0);
    if v.file < FIVE_DIGITS {
      forall file: nat, offset: nat | OpensAt(v.files, file, offset) ensures file == v.file && offset == v.offset {
        OpensOnce(v.files, v.file, v.offset, file, offset);
      }
    }
  }

  /** No number is left out below the current file. */
  ghost predicate Dense(v: View) {
    forall f :: 0 <= f <= v.file ==> f in v.files
  }

  lemma AppendStaysDense(shape: Shape, v: View, body: seq<byte>, trailer: seq<byte>)
    requires Valid(shape, v) && Suits(shape, body, trailer) && Dense(v)
    ensures Dense(Appended(shape, v, body, trailer).0) && Dense(Synced(v))
  {
    hide Frame, Suits;
  }

  lemma {:induction false} RunStaysDense(shape: Shape, start: View, ops: seq<SeriesOp>)
    requires Valid(shape, start) && Dense(start)
    requires forall k :: 0 <= k < |ops| && ops[k].Append? ==> Suits(shape, ops[k].body, ops[k].trailer)
    ensures Dense(Run(shape, start, ops).0)
    decreases |ops|
  {
    hide Valid, Suits, Appended, Dense, Synced;
    if |ops| > 0 {
      RunStaysDense(shape, start, ops[..|ops| - 1]);
      var v := Run(shape, start, ops[..|ops| - 1]).0;
      match ops[|ops| - 1]
      case Sync => SyncStaysDense(v);
      case Append(body, trailer) => AppendStaysDense(shape, v, body, trailer);
    }
  }

  lemma SyncStaysDense(v: View)
    requires Dense(v)
    ensures Dense(Synced(v))
  {
  }

  /** A writer gets past five digits: a record that does not fit in file 99,999 goes to the next. */
  lemma RollsPastFiveDigits(shape: Shape, v: View, body: seq<byte>, trailer: seq<byte>)
    requires Valid(shape, v) && Suits(shape, body, trailer) && v.file == FIVE_DIGITS - 1
    requires v.offset > 0 && v.offset + FRAME_BYTES + |body| + |trailer| > shape.maxFile
    ensures var (w, placed) := Appended(shape, v, body, trailer);
            placed == Ok(Placed(FIVE_DIGITS, FRAME_BYTES, |body|)) && w.file == FIVE_DIGITS
  {
    hide Frame;
    SyncedIsValid(shape, v);
  }

  /**
    Where a series that has got past five digits reopens: at the end of file 99,999, behind files it
    does not see. A record that fits there is put there; any other fails, because the next number is
    taken, and the cursor stays where it was.
   */
  lemma ReopensBehind(shape: Shape, v: View, file: nat, offset: nat, w: View, record: nat)
    requires Valid(shape, v) && Dense(v) && v.file >= FIVE_DIGITS
    requires OpensAt(v.files, file, offset)
    requires w.files == v.files && w.file == file && w.offset == offset && !w.unsynced
    ensures file == FIVE_DIGITS - 1 && offset == |v.files[file]|
    ensures PlaceFor(shape, w, record) == (w, if Stays(shape, w, record) then None else Some(AlreadyExists))
  {
    DigitsOf(FIVE_DIGITS - 1);
    DigitsOf(file);
    hide NameDigits;
    assert FIVE_DIGITS - 1 in v.files && FIVE_DIGITS in v.files;
  }

  // ----- the writer -------------------------------------------------------------------------------

  class SeriesWriter {
    const shape: Shape
    var files: Files
    var file: nat
    var offset: nat
    var unsynced: bool
    ghost var durable: map<nat, nat>

    ghost function View(): View
      reads this
    {
      Now(files, durable, file, offset, unsynced)
    }

    ghost predicate Good()
      reads this
    {
      Valid(shape, View())
    }

    /** A writer at the end of one file; what the directory holds now is on the disk. */
    constructor (shape: Shape, files: Files, file: nat)
      requires file in files
      ensures this.shape == shape && this.files == files && this.file == file
      ensures offset == |files[file]| && !unsynced
      ensures durable == map f | f in files :: |files[f]|
    {
      this.shape := shape;
      this.files := files;
      this.file := file;
      this.offset := |files[file]|;
      this.unsynced := false;
      this.durable := map f | f in files :: |files[f]|;
    }

    method Sync()
      requires Good()
      modifies this
      ensures Good() && View() == Synced(old(View()))
    {
      SyncedIsValid(shape, View());
      if !unsynced {
        return;
      }
      durable := durable[file := |files[file]|];
      unsynced := false;
    }

    method Place(record: nat) returns (error: Option<IoError>)
      requires Good()
      modifies this
      ensures Good() && (View(), error) == PlaceFor(shape, old(View()), record)
    {
      hide Valid, Synced;
      CursorFacts(shape, View());
      PlacedIsValid(shape, View(), record);
      if offset == 0 || SatAdd32(offset, record) <= shape.maxFile {
        return None;
      }
      Sync();
      SyncKeepsPlace(old(View()));
      var next := file + 1;
      if next >= U32_LIMIT {
        return Some(StorageFull);
      }
      if next in files {
        return Some(AlreadyExists);
      }
      files := files[next := []];
      durable := durable[next := 0];
      file, offset := next, 0;
      return None;
    }

    /** The append proved against its function: files, cursor and placement, with every sum exact. */
    method Append(body: seq<byte>, trailer: seq<byte>) returns (placed: Io<Placed>)
      requires Good() && Suits(shape, body, trailer)
      modifies this
      ensures Good() && (View(), placed) == Appended(shape, old(View()), body, trailer)
    {
      hide Frame, PlaceFor, Valid;
      AppendedIsValid(shape, View(), body, trailer);
      FrameLength(shape, body, trailer);
      var record := SatAdd32(SatAdd32(FRAME_BYTES, |body|), shape.trailerBytes);
      PlacedIsValid(shape, View(), record);
      var error := Place(record);
      if error.Some? {
        return Err(error.value);
      }
      CursorFacts(shape, View());
      files := files[file := files[file] + Frame(shape, body, trailer)];
      unsynced := true;
      var start := offset;
      offset := SatAdd32(offset, record);
      assert offset > start;
      return Ok(Placed(file, SatAdd32(start, FRAME_BYTES), |body|));
    }
  }

  /** Scan the names, and put a writer where the scan says. */
  method Open(shape: Shape, files: Files, names: seq<nat>) returns (result: Io<SeriesWriter>)
    requires Proper(shape) && forall n :: n in names <==> n in files
    ensures result.Err? ==>
              result.error == FileTooLong &&
              exists file: nat, offset: nat :: OpensAt(files, file, offset) && offset >= U32_LIMIT
    ensures result.Ok? ==>
              var w := result.value;
              && fresh(w) && w.shape == shape && !w.unsynced
              && w.offset < U32_LIMIT && OpensAt(files, w.file, w.offset)
              && w.files == (if w.file in files then files else files[w.file := []])
              && ((forall n :: n in names ==> n < FIVE_DIGITS) ==> w.Good())
  {
    var file := Highest(names);
    var there := if file in files then files else files[file := []];
    assert OpensAt(files, file, |there[file]|);
    if |there[file]| >= U32_LIMIT {
      return Err(FileTooLong);
    }
    var w := new SeriesWriter(shape, there, file);
    forall n: nat ensures NameDigits(n) == 5 <==> n < FIVE_DIGITS {
      DigitsOf(n);
    }
    return Ok(w);
  }

  lemma CursorFacts(shape: Shape, v: View)
    requires Valid(shape, v)
    ensures Proper(shape) && v.file in v.files && v.offset < U32_LIMIT && v.file < U32_LIMIT
  {
  }

  lemma SyncKeepsPlace(v: View)
    ensures var w := Synced(v); w.file == v.file && w.offset == v.offset && w.files == v.files
  {
  }

  /** The reader's own steps over one stretch of bytes. */
  method Split(shape: Shape, bytes: seq<byte>, len: nat) returns (r: Io<(seq<byte>, seq<byte>)>)
    requires |bytes| == FRAME_BYTES + len + shape.trailerBytes
    ensures r == Unframed(shape, bytes, len)
  {
    var seen, rest := bytes[..4], bytes[4..];
    if seen != shape.magic {
      return Err(BadMagic(seen));
    }
    var declared := GetU32(rest[..4]);
    assert rest[..4] == bytes[4..8];
    if declared != len {
      return Err(WrongLength(declared));
    }
    rest := rest[4..];
    assert rest == bytes[8..];
    assert rest[..len] == bytes[8..8 + len] && rest[len..] == bytes[8 + len..];
    return Ok((rest[..len], rest[len..]));
  }

  method Read(shape: Shape, files: Files, at: Placed) returns (r: Io<(seq<byte>, seq<byte>)>)
    requires Proper(shape)
    ensures r == ReadAt(shape, files, at)
  {
    hide Unframed;
    if at.len > shape.maxRecord {
      return Err(PastBound(at.len, shape.maxRecord));
    }
    if at.offset < FRAME_BYTES {
      return Err(InsideFrame);
    }
    var start := at.offset - FRAME_BYTES;
    var whole := SatAdd32(SatAdd32(FRAME_BYTES, at.len), shape.trailerBytes);
    if at.file !in files {
      return Err(NotFound);
    }
    if start + whole > |files[at.file]| {
      return Err(UnexpectedEof);
    }
    r := Split(shape, files[at.file][start..start + whole], at.len);
  }
}
