/**
  The journal as bytes: a length, a header with what is known of its block, four bytes of checksum.
  What a cut file decodes to, and what becomes of records written behind a torn tail.
 */
module JournalBytes {
  import opened Bytes
  import opened Arena
  import opened TreeState
  import opened Journal
  import opened Varint

  /** Four bytes over a payload; which four is the hash function's business. */
  type Checksum = c: seq<byte> -> seq<byte> | forall p :: |c(p)| == 4 witness (_ => [0, 0, 0, 0])

  const MAX_RECORD_BYTES: nat := 80 + 1 + 24 + 4

  /** Where decoding a journal came to a stop. */
  datatype Ending = AtEnd | TornTail(bytes: nat) | Broken(error: DecodeError)

  datatype Found = Found(record: Record, rest: seq<byte>) | Stopped(ending: Ending)

  // ----- fields -----------------------------------------------------------------------------------

  function StageTag(stage: Stage): byte {
    match stage
    case AcceptHeader => 1
    case CheckBlock => 2
    case AcceptBlock => 3
    case Confirm => 4
    case Connect => 5
  }

  function StageOfTag(tag: byte): Option<Stage> {
    if tag == 1 then Some(AcceptHeader)
    else if tag == 2 then Some(CheckBlock)
    else if tag == 3 then Some(AcceptBlock)
    else if tag == 4 then Some(Confirm)
    else if tag == 5 then Some(Connect)
    else None
  }

  predicate Fits32(file: nat, offset: nat, len: nat) {
    file < U32_LIMIT && offset < U32_LIMIT && len < U32_LIMIT
  }

  /** The fields of a location are 32-bit numbers. */
  predicate Writable(p: Persisted) {
    match p
    case Accepted => true
    case Checked(at) => Fits32(at.file, at.offset, at.len)
    case WasConnected(at, undo) => Fits32(at.file, at.offset, at.len) && Fits32(undo.file, undo.offset, undo.len)
    case RefusedBy(_) => true
  }

  function Triple(file: nat, offset: nat, len: nat): (s: seq<byte>)
    requires Fits32(file, offset, len)
    ensures |s| == 12
  {
    PutU32(file) + PutU32(offset) + PutU32(len)
  }

  function PersistedBytes(p: Persisted): (s: seq<byte>)
    requires Writable(p)
    ensures 0 < |s| <= 25
  {
    match p
    case Accepted => [0]
    case Checked(at) => [1] + Triple(at.file, at.offset, at.len)
    case WasConnected(at, undo) =>
      [2] + Triple(at.file, at.offset, at.len) + Triple(undo.file, undo.offset, undo.len)
    case RefusedBy(stage) => [3, StageTag(stage)]
  }

  ghost function TripleAt(s: seq<byte>): Parsed<(nat, nat, nat)> {
    match DecodeU32(s)
    case Failed(error) => Failed(error)
    case Parsed(file, afterFile) =>
      match DecodeU32(afterFile)
      case Failed(error) => Failed(error)
      case Parsed(offset, afterOffset) =>
        match DecodeU32(afterOffset)
        case Failed(error) => Failed(error)
        case Parsed(len, rest) => Parsed((file, offset, len), rest)
  }

  ghost function PersistedAt(s: seq<byte>): Parsed<Persisted> {
    match DecodeBytes(s, 1)
    case Failed(error) => Failed(error)
    case Parsed(tag, fields) =>
      match tag[0]
      case 0 => Parsed(Accepted, fields)
      case 1 =>
        (match TripleAt(fields)
         case Failed(error) => Failed(error)
         case Parsed(at, rest) => Parsed(Checked(Location(at.0, at.1, at.2)), rest))
      case 2 =>
        (match TripleAt(fields)
         case Failed(error) => Failed(error)
         case Parsed(at, more) =>
           match TripleAt(more)
           case Failed(error) => Failed(error)
           case Parsed(undo, rest) =>
             Parsed(WasConnected(Location(at.0, at.1, at.2), UndoLocation(undo.0, undo.1, undo.2)), rest))
      case 3 =>
        (match DecodeBytes(fields, 1)
         case Failed(error) => Failed(error)
         case Parsed(stage, rest) =>
           match StageOfTag(stage[0])
           case None => Failed(BadTag(stage[0]))
           case Some(known) => Parsed(RefusedBy(known), rest))
      case other => Failed(BadTag(other))
  }

  lemma OneU32(n: nat, rest: seq<byte>)
    requires n < U32_LIMIT
    ensures DecodeU32(PutU32(n) + rest) == Parsed(n, rest)
  {
    U32RoundTrip(n);
    hide PutU32, GetU32;
    assert (PutU32(n) + rest)[..4] == PutU32(n);
    assert (PutU32(n) + rest)[4..] == rest;
  }

  lemma TripleRoundTrip(file: nat, offset: nat, len: nat, rest: seq<byte>)
    requires Fits32(file, offset, len)
    ensures TripleAt(Triple(file, offset, len) + rest) == Parsed((file, offset, len), rest)
  {
    hide PutU32, DecodeU32;
    var (f, o, l) := (PutU32(file), PutU32(offset), PutU32(len));
    assert Triple(file, offset, len) + rest == f + (o + (l + rest));
    OneU32(file, o + (l + rest));
    OneU32(offset, l + rest);
    OneU32(len, rest);
  }

  lemma FirstByte(b: byte, rest: seq<byte>)
    ensures DecodeBytes([b] + rest, 1) == Parsed([b], rest)
  {
    assert ([b] + rest)[..1] == [b] && ([b] + rest)[1..] == rest;
  }

  lemma PersistedRoundTrip(p: Persisted)
    requires Writable(p)
    ensures PersistedAt(PersistedBytes(p)) == Parsed(p, [])
  {
    hide Triple, TripleAt, DecodeBytes;
    match p
    case Accepted =>
      assert [0] + [] == [0];
      FirstByte(0, []);
    case Checked(at) =>
      FirstByte(1, Triple(at.file, at.offset, at.len));
      TripleRoundTrip(at.file, at.offset, at.len, []);
      assert Triple(at.file, at.offset, at.len) + [] == Triple(at.file, at.offset, at.len);
    case WasConnected(at, undo) =>
      var (a, u) := (Triple(at.file, at.offset, at.len), Triple(undo.file, undo.offset, undo.len));
      assert [2] + a + u == [2] + (a + u);
      FirstByte(2, a + u);
      TripleRoundTrip(at.file, at.offset, at.len, u);
      TripleRoundTrip(undo.file, undo.offset, undo.len, []);
      assert u + [] == u;
    case RefusedBy(stage) =>
      assert [3, StageTag(stage)] == [3] + ([StageTag(stage)] + []);
      FirstByte(3, [StageTag(stage)] + []);
      FirstByte(StageTag(stage), []);
  }

  // ----- records ----------------------------------------------------------------------------------

  function Payload(r: Record): (s: seq<byte>)
    requires Writable(r.persisted)
    ensures 80 < |s| && |s| < MAX_RECORD_BYTES
  {
    r.header + PersistedBytes(r.persisted)
  }

  function RecordBytes(c: Checksum, r: Record): (s: seq<byte>)
    requires Writable(r.persisted)
    ensures |s| == 4 + |Payload(r)| + 4
  {
    PutU32(|Payload(r)|) + Payload(r) + c(Payload(r))
  }

  /** Three 32-bit numbers at a place, least significant byte first. */
  predicate HasTriple(s: seq<byte>, at: nat, file: nat, offset: nat, len: nat) {
    at + 12 <= |s| && GetU32(s[at..at + 4]) == file && GetU32(s[at + 4..at + 8]) == offset
    && GetU32(s[at + 8..at + 12]) == len
  }

  lemma TripleLies(ahead: seq<byte>, file: nat, offset: nat, len: nat, behind: seq<byte>)
    requires Fits32(file, offset, len)
    ensures HasTriple(ahead + Triple(file, offset, len) + behind, |ahead|, file, offset, len)
  {
    U32RoundTrip(file);
    U32RoundTrip(offset);
    U32RoundTrip(len);
    hide PutU32, GetU32;
    var (n, s) := (|ahead|, ahead + Triple(file, offset, len) + behind);
    assert s[n..n + 4] == PutU32(file) && s[n + 4..n + 8] == PutU32(offset) && s[n + 8..n + 12] == PutU32(len);
  }

  /** What stands around a record's fields. */
  lemma RecordEnds(c: Checksum, r: Record)
    requires Writable(r.persisted)
    ensures var (b, fields) := (RecordBytes(c, r), PersistedBytes(r.persisted));
            && |b| == 88 + |fields| && b[0] == |b| - 8 && b[1] == b[2] == b[3] == 0 && b[4..84] == r.header
            && b[84] == fields[0] && (|fields| > 1 ==> b[85] == fields[1]) && b[|b| - 4..] == c(b[4..|b| - 4])
            && b == PutU32(|Payload(r)|) + r.header + fields + c(Payload(r))
  {
    hide PersistedBytes;
    var (b, fields) := (RecordBytes(c, r), PersistedBytes(r.persisted));
    assert b == PutU32(|Payload(r)|) + r.header + fields + c(Payload(r));
    hide PutU32;
    assert b[4..|b| - 4] == Payload(r) && b[|b| - 4..] == c(Payload(r));
    assert b[4..84] == r.header;
  }

  lemma FieldsLie(ahead: seq<byte>, p: Persisted, behind: seq<byte>)
    requires Writable(p)
    ensures var s := ahead + PersistedBytes(p) + behind;
            && (p.Checked? ==> HasTriple(s, |ahead| + 1, p.location.file, p.location.offset, p.location.len))
            && (p.WasConnected? ==>
                  && HasTriple(s, |ahead| + 1, p.location.file, p.location.offset, p.location.len)
                  && HasTriple(s, |ahead| + 13, p.undo.file, p.undo.offset, p.undo.len))
  {
    hide Triple, HasTriple;
    if p.Checked? {
      var at := Triple(p.location.file, p.location.offset, p.location.len);
      TripleLies(ahead + [1], p.location.file, p.location.offset, p.location.len, behind);
      Associates(ahead, [1], at);
    } else if p.WasConnected? {
      var (at, undo) := (Triple(p.location.file, p.location.offset, p.location.len),
                         Triple(p.undo.file, p.undo.offset, p.undo.len));
      TripleLies(ahead + [2], p.location.file, p.location.offset, p.location.len, undo + behind);
      TripleLies(ahead + [2] + at, p.undo.file, p.undo.offset, p.undo.len, behind);
      Associates(ahead, [2] + at, undo);
      Associates(ahead, [2], at);
      Associates(ahead + [2] + at, undo, behind);
    }
  }

  /** The bytes of a record, place by place: length, header, tag, fields, checksum. */
  lemma RecordLayout(c: Checksum, r: Record)
    requires Writable(r.persisted)
    ensures var (b, p) := (RecordBytes(c, r), r.persisted);
            && 89 <= |b| && b[0] == |b| - 8 && b[1] == b[2] == b[3] == 0 && b[4..84] == r.header
            && b[|b| - 4..] == c(b[4..|b| - 4])
            && (p.Accepted? ==> |b| == 89 && b[84] == 0)
            && (p.Checked? ==>
                  |b| == 101 && b[84] == 1 && HasTriple(b, 85, p.location.file, p.location.offset, p.location.len))
            && (p.WasConnected? ==>
                  && |b| == 113 && b[84] == 2 && HasTriple(b, 85, p.location.file, p.location.offset, p.location.len)
                  && HasTriple(b, 97, p.undo.file, p.undo.offset, p.undo.len))
            && (p.RefusedBy? ==>
                  && |b| == 90 && b[84] == 3 && (p.stage.AcceptHeader? <==> b[85] == 1)
                  && (p.stage.CheckBlock? <==> b[85] == 2) && (p.stage.AcceptBlock? <==> b[85] == 3)
                  && (p.stage.Confirm? <==> b[85] == 4) && (p.stage.Connect? <==> b[85] == 5))
  {
    RecordEnds(c, r);
    FieldsLie(PutU32(|Payload(r)|) + r.header, r.persisted, c(Payload(r)));
    hide HasTriple, RecordBytes, Payload, PutU32;
  }

  ghost predicate AllWritable(records: seq<Record>) {
    forall k :: 0 <= k < |records| ==> Writable(records[k].persisted)
  }

  ghost function JournalOf(c: Checksum, records: seq<Record>): seq<byte>
    requires AllWritable(records)
  {
    if |records| == 0 then [] else RecordBytes(c, records[0]) + JournalOf(c, records[1..])
  }

  ghost function RecordAt(payload: seq<byte>): Result<Record> {
    if |payload| < 80 then Err(Truncated(80, |payload|))
    else
      match PersistedAt(payload[80..])
      case Failed(error) => Err(error)
      case Parsed(persisted, rest) =>
        if rest == [] then Ok(Record(payload[..80], persisted)) else Err(Trailing(|rest|))
  }

  ghost function ReadOne(c: Checksum, s: seq<byte>): (f: Found)
    ensures f.Found? ==> |f.rest| < |s|
  {
    if |s| < 4 then Stopped(AtEnd)
    else
      var declared := GetU32(s[..4]);
      if declared >= MAX_RECORD_BYTES || |s| < 8 + declared then Stopped(TornTail(declared))
      else if s[4 + declared..8 + declared] != c(s[4..4 + declared]) then Stopped(TornTail(declared))
      else
        match RecordAt(s[4..4 + declared])
        case Err(error) => Stopped(Broken(error))
        case Ok(record) => Found(record, s[8 + declared..])
  }

  ghost function ReadAll(c: Checksum, s: seq<byte>): (seq<Record>, Ending)
    decreases |s|
  {
    match ReadOne(c, s)
    case Stopped(ending) => ([], ending)
    case Found(record, rest) =>
      var more := ReadAll(c, rest);
      ([record] + more.0, more.1)
  }

  lemma FrontIsWritable(records: seq<Record>, n: nat)
    requires AllWritable(records) && n <= |records|
    ensures AllWritable(records[..n]) && AllWritable(records[n..])
    ensures n < |records| ==> Writable(records[n].persisted)
  {
  }

  lemma RecordRoundTrip(r: Record)
    requires Writable(r.persisted)
    ensures RecordAt(Payload(r)) == Ok(r)
  {
    hide PersistedAt, PersistedBytes;
    PersistedRoundTrip(r.persisted);
    assert Payload(r)[80..] == PersistedBytes(r.persisted) && Payload(r)[..80] == r.header;
  }

  lemma OneRoundTrip(c: Checksum, r: Record, rest: seq<byte>)
    requires Writable(r.persisted)
    ensures ReadOne(c, RecordBytes(c, r) + rest) == Found(r, rest)
  {
    hide RecordAt, Payload, PutU32, GetU32;
    var s, n := RecordBytes(c, r) + rest, |Payload(r)|;
    RecordRoundTrip(r);
    U32RoundTrip(n);
    assert s[..4] == PutU32(n);
    assert s[4..4 + n] == Payload(r);
    assert s[4 + n..8 + n] == c(Payload(r));
    assert s[8 + n..] == rest;
  }

  /** Whole records decode to themselves, and the rest of the file to whatever it does alone. */
  lemma {:induction false} WholeRecordsRead(c: Checksum, records: seq<Record>, tail: seq<byte>)
    requires AllWritable(records)
    ensures ReadAll(c, JournalOf(c, records) + tail) == (records + ReadAll(c, tail).0, ReadAll(c, tail).1)
    decreases |records|
  {
    hide ReadAll, JournalOf, RecordBytes, Writable, Payload, AllWritable;
    if |records| == 0 {
      NoRecords(c, records);
      NothingAhead(tail);
      NothingAhead(ReadAll(c, tail).0);
    } else {
      JournalOfUnfolds(c, records);
      Associates(RecordBytes(c, records[0]), JournalOf(c, records[1..]), tail);
      FirstRead(c, records[0], JournalOf(c, records[1..]) + tail);
      WholeRecordsRead(c, records[1..], tail);
      HeadAndTail(records);
      Associates([records[0]], records[1..], ReadAll(c, tail).0);
    }
  }

  lemma BothWritable(a: seq<Record>, b: seq<Record>)
    requires AllWritable(a) && AllWritable(b)
    ensures AllWritable(a + b)
  {
  }

  /** One record, then the others. */
  lemma JournalOfUnfolds(c: Checksum, records: seq<Record>)
    requires AllWritable(records) && |records| > 0
    ensures Writable(records[0].persisted) && AllWritable(records[1..])
    ensures JournalOf(c, records) == RecordBytes(c, records[0]) + JournalOf(c, records[1..])
  {
  }

  lemma {:induction false} JournalOfAppended(c: Checksum, a: seq<Record>, b: seq<Record>)
    requires AllWritable(a) && AllWritable(b)
    ensures AllWritable(a + b) && JournalOf(c, a + b) == JournalOf(c, a) + JournalOf(c, b)
    decreases |a|, 1
  {
    hide RecordBytes, Writable, Payload, AllWritable;
    BothWritable(a, b);
    if |a| == 0 {
      NothingAhead(b);
      NothingAhead(JournalOf(c, b));
    } else {
      AppendedUnfolds(c, a, b);
    }
  }

  lemma {:induction false} AppendedUnfolds(c: Checksum, a: seq<Record>, b: seq<Record>)
    requires AllWritable(a) && AllWritable(b) && AllWritable(a + b) && |a| > 0
    ensures JournalOf(c, a + b) == JournalOf(c, a) + JournalOf(c, b)
    decreases |a|, 0
  {
    hide RecordBytes, Writable, Payload, AllWritable, JournalOf;
    JournalOfUnfolds(c, a);
    JournalOfUnfolds(c, a + b);
    TailOfSum(a, b);
    JournalOfAppended(c, a[1..], b);
    Associates(RecordBytes(c, a[0]), JournalOf(c, a[1..]), JournalOf(c, b));
  }

  // ----- a file cut anywhere ----------------------------------------------------------------------

  /** How a journal ends when its last bytes are a record's first `left`. */
  ghost function EndOfCut(ending: Ending, left: nat): bool {
    if left < 4 then ending == AtEnd else ending.TornTail?
  }

  /** The longest prefix of the records whose bytes all lie in the first `k`. */
  ghost predicate LongestWhole(c: Checksum, records: seq<Record>, k: nat, n: nat)
    requires AllWritable(records)
  {
    && n <= |records|
    && |JournalOf(c, records[..n])| <= k
    && (n < |records| ==> k < |JournalOf(c, records[..n + 1])|)
  }

  lemma FragmentStops(c: Checksum, r: Record, k: nat)
    requires Writable(r.persisted) && k < |RecordBytes(c, r)|
    ensures ReadAll(c, RecordBytes(c, r)[..k]).0 == []
    ensures EndOfCut(ReadAll(c, RecordBytes(c, r)[..k]).1, k)
  {
    hide Payload, PutU32, GetU32, RecordAt;
    if k >= 4 {
      var n := |Payload(r)|;
      U32RoundTrip(n);
      assert RecordBytes(c, r)[..k][..4] == PutU32(n);
    }
  }

  /** The first `k` bytes decode to the first `n` records, and `n` is as many as fit in them. */
  ghost predicate DecodesTo(c: Checksum, records: seq<Record>, k: nat, n: nat)
    requires AllWritable(records) && k <= |JournalOf(c, records)|
  {
    && LongestWhole(c, records, k, n)
    && ReadAll(c, JournalOf(c, records)[..k]).0 == records[..n]
    && EndOfCut(ReadAll(c, JournalOf(c, records)[..k]).1, k - |JournalOf(c, records[..n])|)
  }

  /**
    A journal cut after any number of bytes decodes to its longest whole-record prefix. No fragment
    is ever taken for a record, whatever the checksum function does.
   */
  lemma {:induction false} CutReadsLongestPrefix(c: Checksum, records: seq<Record>, k: nat) returns (n: nat)
    requires AllWritable(records) && k <= |JournalOf(c, records)|
    ensures DecodesTo(c, records, k, n)
    decreases |records|
  {
    hide JournalOf, RecordBytes, Writable, Payload, AllWritable, DecodesTo, ReadAll;
    if |records| == 0 {
      n := 0;
      CutOfNothing(c, records, k);
    } else {
      JournalLength(c, records);
      var first := |RecordBytes(c, records[0])|;
      if k < first {
        n := 0;
        CutInFirst(c, records, k);
      } else {
        n := CutReadsLongestPrefix(c, records[1..], k - first);
        CutBehindFirst(c, records, k, n);
        n := n + 1;
      }
    }
  }

  lemma JournalLength(c: Checksum, records: seq<Record>)
    requires AllWritable(records) && |records| > 0
    ensures Writable(records[0].persisted) && AllWritable(records[1..])
    ensures |JournalOf(c, records)| == |RecordBytes(c, records[0])| + |JournalOf(c, records[1..])|
  {
    hide RecordBytes, Writable, Payload;
  }

  lemma CutOfNothing(c: Checksum, records: seq<Record>, k: nat)
    requires AllWritable(records) && |records| == 0 && k <= |JournalOf(c, records)|
    ensures DecodesTo(c, records, k, 0)
  {
    hide ReadAll, EndOfCut;
    assert records[..0] == [] && JournalOf(c, records)[..k] == [];
    EmptyEnds(c);
  }

  lemma NoRecords(c: Checksum, records: seq<Record>)
    requires AllWritable(records) && |records| == 0
    ensures records == [] && JournalOf(c, records) == []
  {
  }

  lemma CutInFirst(c: Checksum, records: seq<Record>, k: nat)
    requires AllWritable(records) && |records| > 0
    requires Writable(records[0].persisted) && k < |RecordBytes(c, records[0])|
    requires k <= |JournalOf(c, records)|
    ensures DecodesTo(c, records, k, 0)
  {
    hide ReadAll, RecordBytes, EndOfCut, Writable, Payload, JournalOf, AllWritable;
    FrontIsWritable(records, 0);
    JournalOfUnfolds(c, records);
    CutOfSum(RecordBytes(c, records[0]), JournalOf(c, records[1..]), k);
    FragmentStops(c, records[0], k);
    OneMore(c, records, 1);
    NoRecords(c, records[..0]);
  }

  lemma CutBehindFirst(c: Checksum, records: seq<Record>, k: nat, n: nat)
    requires AllWritable(records) && |records| > 0 && AllWritable(records[1..])
    requires Writable(records[0].persisted) && |RecordBytes(c, records[0])| <= k <= |JournalOf(c, records)|
    requires k - |RecordBytes(c, records[0])| <= |JournalOf(c, records[1..])|
    requires DecodesTo(c, records[1..], k - |RecordBytes(c, records[0])|, n)
    ensures DecodesTo(c, records, k, n + 1)
  {
    hide ReadAll, RecordBytes, EndOfCut, Writable, Payload, JournalOf, AllWritable;
    var first := RecordBytes(c, records[0]);
    var tail := JournalOf(c, records[1..])[..k - |first|];
    JournalOfUnfolds(c, records);
    CutOfSum(first, JournalOf(c, records[1..]), k);
    FirstRead(c, records[0], tail);
    FrontIsWritable(records, n + 1);
    OneMore(c, records, n + 1);
    if n + 1 < |records| {
      FrontIsWritable(records, n + 2);
      OneMore(c, records, n + 2);
    }
    HeadAndTail(records[..n + 1]);
    assert records[..n + 1][1..] == records[1..][..n];
  }

  lemma FirstRead(c: Checksum, r: Record, tail: seq<byte>)
    requires Writable(r.persisted)
    ensures ReadAll(c, RecordBytes(c, r) + tail) == ([r] + ReadAll(c, tail).0, ReadAll(c, tail).1)
  {
    hide ReadOne, RecordBytes, Writable;
    OneRoundTrip(c, r, tail);
  }

  lemma EmptyEnds(c: Checksum)
    ensures ReadAll(c, []) == ([], AtEnd) && EndOfCut(AtEnd, 0)
  {
  }

  lemma OneMore(c: Checksum, records: seq<Record>, n: nat)
    requires AllWritable(records) && 0 < n <= |records|
    ensures JournalOf(c, records[..n]) == RecordBytes(c, records[0]) + JournalOf(c, records[1..][..n - 1])
  {
    hide RecordBytes, Writable, Payload;
    assert records[..n][1..] == records[1..][..n - 1];
    assert records[..n][0] == records[0];
  }

  /** A cut that keeps what was synced keeps every record that was synced whole. */
  lemma {:induction false} LongestIsMonotone(c: Checksum, records: seq<Record>, j: nat, k: nat, n: nat)
    requires AllWritable(records) && j <= |records| && LongestWhole(c, records, k, n)
    requires |JournalOf(c, records[..j])| <= k
    ensures j <= n
  {
    hide JournalOf, Writable;
    if j > n {
      var (front, back) := (records[..n + 1], records[n + 1..j]);
      assert records[..j] == front + back;
      JournalOfAppended(c, front, back);
      assert false;
    }
  }

  // ----- a second run behind a torn tail ----------------------------------------------------------

  lemma RecordStarts(c: Checksum, r: Record)
    requires Writable(r.persisted)
    ensures RecordBytes(c, r)[..4] == [|Payload(r)|, 0, 0, 0]
  {
    hide Payload, Writable, PutU32;
    var n := |Payload(r)|;
    SmallLength(n);
    Associates(PutU32(n), Payload(r), c(Payload(r)));
    CutOfSum(PutU32(n), Payload(r) + c(Payload(r)), 4);
  }

  lemma SmallLength(n: nat)
    requires n < MAX_RECORD_BYTES
    ensures PutU32(n)[..4] == PutU32(n) == [n, 0, 0, 0]
  {
  }

  /** A length read across the end of a short fragment is no record's length. */
  lemma SplicedLength(n: nat, m: nat, k: nat, tail: seq<byte>)
    requires 80 < n < MAX_RECORD_BYTES && 80 < m < MAX_RECORD_BYTES && 0 < k < 4
    requires |tail| >= 4 && tail[..4] == ([n, 0, 0, 0][..k] + [m, 0, 0, 0])[..4]
    ensures GetU32(tail[..4]) >= MAX_RECORD_BYTES
  {
    assert tail[..4][0] == n && tail[..4][k] == m;
  }

  /** Records appended behind a fragment of one to three bytes are out of reach, whatever they are. */
  lemma ShortFragmentHides(c: Checksum, before: seq<Record>, r: Record, k: nat, later: seq<Record>)
    requires AllWritable(before) && Writable(r.persisted) && AllWritable(later)
    requires 0 < k < 4 && |later| > 0
    ensures var s := JournalOf(c, before) + (RecordBytes(c, r)[..k] + JournalOf(c, later));
            ReadAll(c, s).0 == before && ReadAll(c, s).1.TornTail?
  {
    hide Payload, Writable, RecordBytes, ReadAll, JournalOf;
    var tail := RecordBytes(c, r)[..k] + JournalOf(c, later);
    WholeRecordsRead(c, before, tail);
    ShortFragmentStops(c, r, k, later);
    NothingBehind(before);
  }

  lemma ShortFragmentStops(c: Checksum, r: Record, k: nat, later: seq<Record>)
    requires Writable(r.persisted) && AllWritable(later) && 0 < k < 4 && |later| > 0
    ensures var tail := RecordBytes(c, r)[..k] + JournalOf(c, later);
            ReadAll(c, tail).0 == [] && ReadAll(c, tail).1.TornTail?
  {
    hide Payload, Writable, RecordBytes, JournalOf, RecordAt, GetU32;
    JournalOfUnfolds(c, later);
    var n, m := |Payload(r)|, |Payload(later[0])|;
    RecordStarts(c, r);
    RecordStarts(c, later[0]);
    var tail := RecordBytes(c, r)[..k] + JournalOf(c, later);
    FourOf(RecordBytes(c, r), JournalOf(c, later), k, n, m);
    SplicedLength(n, m, k, tail);
  }

  lemma FourOf(a: seq<byte>, b: seq<byte>, k: nat, n: byte, m: byte)
    requires |a| >= 4 && |b| >= 4 && a[..4] == [n, 0, 0, 0] && b[..4] == [m, 0, 0, 0] && k < 4
    ensures (a[..k] + b)[..4] == ([n, 0, 0, 0][..k] + [m, 0, 0, 0])[..4]
  {
    assert a[..k] == a[..4][..k];
    assert (a[..k] + b)[..4] == (a[..k] + b[..4])[..4];
  }

  /** What a reader meets past the length of a cut record: the rest of its `k` bytes, and those behind. */
  function Spliced(c: Checksum, r: Record, k: nat, behind: seq<byte>): seq<byte>
    requires Writable(r.persisted) && 4 <= k <= |RecordBytes(c, r)|
  {
    RecordBytes(c, r)[4..k] + behind
  }

  /** The payload it takes from there, as long as the cut record's was to be. */
  function SplicedPayload(c: Checksum, r: Record, k: nat, behind: seq<byte>): seq<byte>
    requires Writable(r.persisted) && 4 <= k <= |RecordBytes(c, r)| && 8 + |Payload(r)| <= k + |behind|
  {
    Spliced(c, r, k, behind)[..|Payload(r)|]
  }

  /** The spliced bytes are all there, and the checksum of the payload happens to stand behind it. */
  predicate Accident(c: Checksum, r: Record, k: nat, behind: seq<byte>)
    requires Writable(r.persisted) && 4 <= k <= |RecordBytes(c, r)|
  {
    var n := |Payload(r)|;
    8 + n <= k + |behind|
    && c(SplicedPayload(c, r, k, behind)) == Spliced(c, r, k, behind)[n..n + 4]
  }

  lemma SplicedIs(c: Checksum, r: Record, k: nat, behind: seq<byte>)
    requires Writable(r.persisted) && 4 <= k <= |RecordBytes(c, r)|
    ensures var (tail, u, n) := (RecordBytes(c, r)[..k] + behind, Spliced(c, r, k, behind), |Payload(r)|);
            && |tail| == |u| + 4 && tail[..4] == PutU32(n)
            && (8 + n <= |tail| ==>
                  tail[4..4 + n] == u[..n] && tail[4 + n..8 + n] == u[n..n + 4] && tail[8 + n..] == u[n + 4..])
  {
    hide Payload, PutU32, Writable, RecordBytes;
    var (s, n) := (RecordBytes(c, r), |Payload(r)|);
    var (length, u) := (s[..4], s[4..k] + behind);
    RecordIs(c, r);
    CutOfSum(PutU32(n), Payload(r) + c(Payload(r)), 4);
    NothingBehind(PutU32(n));
    assert s[..k] == length + s[4..k];
    Associates(length, s[4..k], behind);
    CutOfSum(length, u, 4);
    NothingBehind(length);
    if 8 + n <= k + |behind| {
      SliceOfSum(length, u, 4, 4 + n);
      SliceOfSum(length, u, 4 + n, 8 + n);
      SliceOfSum(length, u, 8 + n, k + |behind|);
    }
  }

  lemma RecordIs(c: Checksum, r: Record)
    requires Writable(r.persisted)
    ensures RecordBytes(c, r) == PutU32(|Payload(r)|) + (Payload(r) + c(Payload(r)))
  {
    hide Payload, PutU32, Writable;
    Associates(PutU32(|Payload(r)|), Payload(r), c(Payload(r)));
  }

  /** What a fragment of four bytes or more, and bytes behind it, are read as. */
  lemma FragmentReads(c: Checksum, r: Record, k: nat, behind: seq<byte>)
    requires Writable(r.persisted) && 4 <= k <= |RecordBytes(c, r)|
    ensures ReadAll(c, RecordBytes(c, r)[..k] + behind)
            == if !Accident(c, r, k, behind) then ([], TornTail(|Payload(r)|))
               else match RecordAt(SplicedPayload(c, r, k, behind))
                    case Err(error) => ([], Broken(error))
                    case Ok(found) =>
                      var more := ReadAll(c, Spliced(c, r, k, behind)[|Payload(r)| + 4..]);
                      ([found] + more.0, more.1)
  {
    hide Payload, PutU32, GetU32, RecordAt, RecordBytes, Spliced, Writable;
    SplicedIs(c, r, k, behind);
    U32RoundTrip(|Payload(r)|);
  }

  /**
    Two runs with a crash between them. With no fragment left, the second run's records are read back
    behind the first's. With a fragment of one to three bytes nothing of them is read. With a longer
    one the file reads on only if the checksum over the cut record's bytes, filled up with the second
    run's, is the four bytes of the second run that stand there: then either the filled-up payload is
    no record, and the load ends in an error, or it is one that nobody wrote there, and reading goes
    on in the middle of a record.
   */
  lemma SecondRunReads(c: Checksum, before: seq<Record>, r: Record, k: nat, later: seq<Record>)
    requires AllWritable(before) && Writable(r.persisted) && AllWritable(later)
    requires k < |RecordBytes(c, r)| && |later| > 0
    ensures var behind := JournalOf(c, later);
            var (got, ending) := ReadAll(c, JournalOf(c, before) + (RecordBytes(c, r)[..k] + behind));
            && (k == 0 ==> got == before + later && ending == AtEnd)
            && (0 < k < 4 ==> got == before && ending.TornTail?)
            && (k >= 4 ==>
                  && (!Accident(c, r, k, behind) ==> got == before && ending == TornTail(|Payload(r)|))
                  && (Accident(c, r, k, behind) ==>
                        var found := RecordAt(SplicedPayload(c, r, k, behind));
                        && (found.Err? ==> got == before && ending == Broken(found.error))
                        && (found.Ok? ==> before + [found.value] <= got)))
  {
    hide Payload, RecordBytes, ReadAll, JournalOf, AllWritable, Accident, SplicedPayload, RecordAt, Writable;
    var behind := JournalOf(c, later);
    var tail := RecordBytes(c, r)[..k] + behind;
    WholeRecordsRead(c, before, tail);
    if k == 0 {
      NothingBehind(behind);
      NothingAhead(behind);
      assert RecordBytes(c, r)[..0] == [];
      WholeRecordsRead(c, later, []);
      EmptyEnds(c);
      NothingBehind(later);
    } else if k < 4 {
      ShortFragmentStops(c, r, k, later);
      NothingBehind(before);
    } else {
      FragmentReads(c, r, k, behind);
      NothingBehind(before);
      Continues(before, ReadAll(c, tail).0);
    }
  }

  lemma Continues(before: seq<Record>, more: seq<Record>)
    ensures |more| > 0 ==> before + [more[0]] <= before + more
  {
  }

  // ----- the loops --------------------------------------------------------------------------------

  method PutRecord(c: Checksum, bytes: seq<byte>, r: Record) returns (more: seq<byte>)
    requires Writable(r.persisted)
    ensures more == bytes + RecordBytes(c, r)
  {
    hide PersistedBytes, PutU32, Writable;
    var payload := r.header + PersistedBytes(r.persisted);
    assert payload == Payload(r) && |payload| < MAX_RECORD_BYTES;
    more := bytes + PutU32(|payload|) + payload + c(payload);
    Associates(bytes, PutU32(|payload|), payload);
    Associates(bytes, PutU32(|payload|) + payload, c(payload));
  }

  method PutRecords(c: Checksum, records: seq<Record>) returns (bytes: seq<byte>)
    requires AllWritable(records)
    ensures bytes == JournalOf(c, records)
  {
    hide RecordBytes, PersistedBytes;
    bytes := [];
    for i := 0 to |records|
      invariant bytes == JournalOf(c, records[..i])
    {
      JournalOfAppended(c, records[..i], [records[i]]);
      assert records[..i + 1] == records[..i] + [records[i]];
      assert RecordBytes(c, records[i]) + [] == RecordBytes(c, records[i]);
      assert [records[i]][1..] == [];
      bytes := PutRecord(c, bytes, records[i]);
    }
    assert records[..|records|] == records;
  }

  method ReadTriple(reader: Reader) returns (r: Result<(nat, nat, nat)>)
    modifies reader
    ensures match TripleAt(old(reader.bytes))
            case Parsed(value, rest) => r == Ok(value) && reader.bytes == rest
            case Failed(error) => r == Err(error)
  {
    hide DecodeU32;
    var file := reader.U32();
    if file.Err? {
      return Err(file.error);
    }
    var offset := reader.U32();
    if offset.Err? {
      return Err(offset.error);
    }
    var len := reader.U32();
    r := if len.Err? then Err(len.error) else Ok((file.value, offset.value, len.value));
  }

  method ReadPersisted(reader: Reader) returns (r: Result<Persisted>)
    modifies reader
    ensures match PersistedAt(old(reader.bytes))
            case Parsed(value, rest) => r == Ok(value) && reader.bytes == rest
            case Failed(error) => r == Err(error)
  {
    hide TripleAt;
    var tag := reader.Take(1);
    if tag.Err? {
      return Err(tag.error);
    }
    match tag.value[0] {
      case 0 =>
        r := Ok(Accepted);
      case 1 =>
        var at := ReadTriple(reader);
        r := if at.Err? then Err(at.error) else Ok(Checked(Location(at.value.0, at.value.1, at.value.2)));
      case 2 =>
        var at := ReadTriple(reader);
        if at.Err? {
          return Err(at.error);
        }
        var undo := ReadTriple(reader);
        r := if undo.Err? then Err(undo.error)
             else Ok(WasConnected(Location(at.value.0, at.value.1, at.value.2),
                                  UndoLocation(undo.value.0, undo.value.1, undo.value.2)));
      case 3 =>
        var stage := reader.Take(1);
        if stage.Err? {
          return Err(stage.error);
        }
        var known := StageOfTag(stage.value[0]);
        r := if known.Some? then Ok(RefusedBy(known.value)) else Err(BadTag(stage.value[0]));
      case other =>
        r := Err(BadTag(other));
    }
  }

  method ParseRecord(payload: seq<byte>) returns (r: Result<Record>)
    ensures r == RecordAt(payload)
  {
    hide PersistedAt;
    var reader := new Reader(payload);
    var header := reader.Take(80);
    if header.Err? {
      return Err(header.error);
    }
    var persisted := ReadPersisted(reader);
    if persisted.Err? {
      return Err(persisted.error);
    }
    var end := reader.Finish();
    r := if end.Ok? then Ok(Record(header.value, persisted.value)) else Err(end.error);
  }

  /** What `ReadOne` finds at the front of the remaining bytes, and the bytes behind it left to read. */
  method ReadRecord(c: Checksum, file: Reader) returns (f: Found)
    modifies file
    ensures f == ReadOne(c, old(file.bytes))
    ensures f.Found? ==> file.bytes == f.rest
  {
    hide RecordAt, GetU32;
    var length := file.Take(4);
    if length.Err? {
      return Stopped(AtEnd);
    }
    var declared := GetU32(length.value);
    if declared >= MAX_RECORD_BYTES {
      return Stopped(TornTail(declared));
    }
    var payload := file.Take(declared);
    if payload.Err? {
      return Stopped(TornTail(declared));
    }
    var four := file.Take(4);
    if four.Err? {
      return Stopped(TornTail(declared));
    }
    ghost var s := old(file.bytes);
    assert payload.value == s[4..4 + declared] && four.value == s[4 + declared..8 + declared];
    if four.value != c(payload.value) {
      return Stopped(TornTail(declared));
    }
    var record := ParseRecord(payload.value);
    f := if record.Err? then Stopped(Broken(record.error)) else Found(record.value, file.bytes);
  }

  /** The replay's loop over the file. */
  method ReadRecords(c: Checksum, bytes: seq<byte>) returns (records: seq<Record>, ending: Ending)
    ensures (records, ending) == ReadAll(c, bytes)
  {
    hide ReadOne;
    var file := new Reader(bytes);
    records := [];
    NothingAhead(ReadAll(c, bytes).0);
    while true
      invariant ReadAll(c, bytes).1 == ReadAll(c, file.bytes).1
      invariant ReadAll(c, bytes).0 == records + ReadAll(c, file.bytes).0
      decreases |file.bytes|
    {
      var f := ReadRecord(c, file);
      if f.Stopped? {
        NothingBehind(records);
        return records, f.ending;
      }
      Associates(records, [f.record], ReadAll(c, f.rest).0);
      records := records + [f.record];
    }
  }
}
