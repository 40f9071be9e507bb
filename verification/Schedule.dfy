/**
  The download schedule: which block is asked of which peer, what has arrived, and what the two
  tables kept about it, on two threads, have to do with each other.

  The chain thread owns the in-flight map, the delivered set and one row per slot. Each connection
  owns a table of what it was asked for, which its reader empties as blocks come in; the blocks then
  wait in a queue for the chain thread. Time is left out.
 */
module Schedule {
  import opened Bytes
  import opened Arena

  const PEER_SLOTS: nat := 32
  const MAX_BLOCKS_IN_FLIGHT: nat := 16
  const MAX_UNSTORED_BLOCKS: nat := 1024
  const MAX_DELIVERED_BLOCKS: nat := MAX_UNSTORED_BLOCKS + PEER_SLOTS * MAX_BLOCKS_IN_FLIGHT

  /** A block on its way from a reader to the chain thread, under the slot its peer sat in. */
  datatype Message = Message(slot: nat, hash: Hash)

  /** Connections are told apart by when they were made; `rows` is whom each row was last told about. */
  datatype State = State(
    inFlight: map<Hash, nat>,
    delivered: set<Hash>,
    rows: seq<Option<nat>>,
    conns: seq<Option<nat>>,
    tables: seq<seq<Hash>>,
    queue: seq<Message>)

  function Start(): State {
    State(map[], {}, seq(PEER_SLOTS, _ => None), seq(PEER_SLOTS, _ => None), seq(PEER_SLOTS, _ => []), [])
  }

  /** The blocks a slot owes. */
  ghost function Owed(inFlight: map<Hash, nat>, slot: nat): set<Hash> {
    set h | h in inFlight && inFlight[h] == slot
  }

  ghost predicate Distinct(t: seq<Hash>) {
    forall j, k :: 0 <= j < k < |t| ==> t[j] != t[k]
  }

  // ----- the steps --------------------------------------------------------------------------------

  datatype Op =
    | Arrive(slot: nat, since: nat)
    | Depart(slot: nat)
    | Answer(slot: nat, hash: Hash)
    | Receive
    | Touch(slot: nat)
    | Ask(slot: nat, hashes: seq<Hash>)

  /** A table without one block, wherever it stood. */
  ghost function Without(t: seq<Hash>, h: Hash): seq<Hash> {
    if |t| == 0 then [] else if t[0] == h then t[1..] else [t[0]] + Without(t[1..], h)
  }

  ghost function Forgotten(inFlight: map<Hash, nat>, slot: nat): map<Hash, nat> {
    map h | h in inFlight && inFlight[h] != slot :: inFlight[h]
  }

  /** Match a row to its slot, and take back what a peer that has gone was owing. */
  ghost function Matched(s: State, slot: nat): State
    requires slot < |s.rows| == |s.conns|
  {
    if s.rows[slot] == s.conns[slot] then s
    else s.(rows := s.rows[slot := s.conns[slot]], inFlight := Forgotten(s.inFlight, slot))
  }

  /** One turn of the request loop, `None` where an assertion in it fails. */
  ghost function AskedOne(s: State, slot: nat, h: Hash): Option<State>
    requires slot < |s.tables|
  {
    if |s.tables[slot]| >= MAX_BLOCKS_IN_FLIGHT || h in s.tables[slot] || h in s.inFlight then None
    else Some(s.(inFlight := s.inFlight[h := slot], tables := s.tables[slot := s.tables[slot] + [h]]))
  }

  ghost function AskedAll(s: State, slot: nat, hashes: seq<Hash>): (r: Option<State>)
    requires slot < |s.tables|
    ensures r.Some? ==> |r.value.tables| == |s.tables|
  {
    if |hashes| == 0 then Some(s)
    else
      match AskedAll(s, slot, hashes[..|hashes| - 1])
      case None => None
      case Some(t) => AskedOne(t, slot, hashes[|hashes| - 1])
  }

  /** The whole request with the two assertions behind its loop. */
  ghost function Asked(s: State, slot: nat, hashes: seq<Hash>): Option<State>
    requires slot < |s.tables|
  {
    match AskedAll(s, slot, hashes)
    case None => None
    case Some(t) =>
      if |Owed(t.inFlight, slot)| > MAX_BLOCKS_IN_FLIGHT
         || |t.inFlight| > PEER_SLOTS * MAX_BLOCKS_IN_FLIGHT
      then None else Some(t)
  }

  /** A block off the queue, `None` where an assertion stops it. */
  ghost function Received(s: State): Option<State>
    requires |s.queue| > 0 && s.queue[0].slot < |s.rows| == |s.conns|
  {
    var m := s.queue[0];
    var t := s.(queue := s.queue[1..]);
    if m.hash !in s.inFlight then Some(t)
    else if s.inFlight[m.hash] != m.slot then None
    else
      var u := t.(inFlight := s.inFlight - {m.hash}, delivered := s.delivered + {m.hash});
      if |u.delivered| > MAX_DELIVERED_BLOCKS then None else Some(Matched(u, m.slot))
  }

  /** What the environment and the schedule's own guards admit. */
  ghost predicate Legal(s: State, op: Op) {
    && |s.rows| == |s.conns| == |s.tables| == PEER_SLOTS
    && match op
       case Arrive(slot, _) => slot < PEER_SLOTS && s.conns[slot].None?
       case Depart(slot) => slot < PEER_SLOTS && s.conns[slot].Some?
       case Answer(slot, hash) => slot < PEER_SLOTS && s.conns[slot].Some? && hash in s.tables[slot]
       case Receive => |s.queue| > 0 && s.queue[0].slot < PEER_SLOTS
       case Touch(slot) => slot < PEER_SLOTS
       case Ask(slot, hashes) =>
         && slot < PEER_SLOTS && s.conns[slot].Some? && s.rows[slot] == s.conns[slot]
         && |s.delivered| < MAX_UNSTORED_BLOCKS
         && Distinct(hashes) && |hashes| + |Owed(s.inFlight, slot)| <= MAX_BLOCKS_IN_FLIGHT
         && forall h :: h in hashes ==> h !in s.inFlight && h !in s.delivered
  }

  ghost function Step(s: State, op: Op): Option<State>
    requires Legal(s, op)
  {
    match op
    case Arrive(slot, since) => Some(s.(conns := s.conns[slot := Some(since)], tables := s.tables[slot := []]))
    case Depart(slot) => Some(s.(conns := s.conns[slot := None], tables := s.tables[slot := []]))
    case Answer(slot, hash) =>
      Some(s.(tables := s.tables[slot := Without(s.tables[slot], hash)],
              queue := s.queue + [Message(slot, hash)]))
    case Receive => Received(s)
    case Touch(slot) => Some(Matched(s, slot))
    case Ask(slot, hashes) => Asked(s, slot, hashes)
  }

  /** Whether a block waits in the queue. */
  ghost predicate Waits(s: State, h: Hash) {
    exists k :: 0 <= k < |s.queue| && s.queue[k].hash == h
  }

  /** Nobody is asked for a block that already waits in the queue. */
  ghost predicate Clear(s: State, op: Op) {
    op.Ask? ==> forall h :: h in op.hashes ==> !Waits(s, h)
  }

  /** A run, as far as it got: `None` once an assertion has failed. */
  ghost predicate IsRun(trace: seq<State>, ops: seq<Op>) {
    && |trace| == |ops| + 1 && trace[0] == Start()
    && forall k :: 0 <= k < |ops| ==> Legal(trace[k], ops[k]) && Step(trace[k], ops[k]) == Some(trace[k + 1])
  }

  ghost predicate ClearRun(trace: seq<State>, ops: seq<Op>)
    requires IsRun(trace, ops)
  {
    forall k :: 0 <= k < |ops| ==> Clear(trace[k], ops[k])
  }

  // ----- what every step keeps --------------------------------------------------------------------

  /** A table lists blocks its slot owes, once each, and only a matched connection was asked anything. */
  ghost predicate TableOk(s: State, slot: nat)
    requires slot < |s.rows| == |s.conns| == |s.tables|
  {
    && Distinct(s.tables[slot])
    && (forall h :: h in s.tables[slot] ==> h in s.inFlight && s.inFlight[h] == slot)
    && (s.tables[slot] != [] ==> s.conns[slot].Some? && s.rows[slot] == s.conns[slot])
  }

  /** A queued block, if it is in flight at all, is so from the slot it came from and off its table. */
  ghost predicate QueuedOk(s: State, k: nat)
    requires k < |s.queue| && |s.tables| == PEER_SLOTS
  {
    var m := s.queue[k];
    && m.slot < PEER_SLOTS
    && (m.hash in s.inFlight ==> s.inFlight[m.hash] == m.slot && m.hash !in s.tables[m.slot])
    && forall j :: 0 <= j < k ==> s.queue[j].hash != m.hash
  }

  ghost predicate Tables(s: State)
    requires |s.rows| == |s.conns| == |s.tables| == PEER_SLOTS
  {
    forall slot :: 0 <= slot < PEER_SLOTS ==> TableOk(s, slot)
  }

  ghost predicate Queued(s: State)
    requires |s.tables| == PEER_SLOTS
  {
    forall k :: 0 <= k < |s.queue| ==> QueuedOk(s, k)
  }

  ghost predicate Bounds(inFlight: map<Hash, nat>, delivered: set<Hash>) {
    && (forall h :: h in inFlight ==> inFlight[h] < PEER_SLOTS)
    && (forall slot :: 0 <= slot < PEER_SLOTS ==> |Owed(inFlight, slot)| <= MAX_BLOCKS_IN_FLIGHT)
    && inFlight.Keys !! delivered
    && |inFlight| + |delivered| < MAX_DELIVERED_BLOCKS
  }

  /** The chain thread's books and the readers' tables, the queue left aside. */
  ghost predicate Books(s: State) {
    && |s.rows| == |s.conns| == |s.tables| == PEER_SLOTS
    && Bounds(s.inFlight, s.delivered)
    && Tables(s)
  }

  ghost predicate Inv(s: State) {
    Books(s) && Queued(s)
  }

  // ----- counting ---------------------------------------------------------------------------------

  ghost function OwedBelow(inFlight: map<Hash, nat>, n: nat): set<Hash> {
    set h | h in inFlight && inFlight[h] < n
  }

  lemma {:induction false} FleetIsBounded(inFlight: map<Hash, nat>, n: nat)
    requires forall slot :: 0 <= slot < n ==> |Owed(inFlight, slot)| <= MAX_BLOCKS_IN_FLIGHT
    ensures |OwedBelow(inFlight, n)| <= n * MAX_BLOCKS_IN_FLIGHT
  {
    if n == 0 {
      assert OwedBelow(inFlight, 0) == {};
    } else {
      FleetIsBounded(inFlight, n - 1);
      assert OwedBelow(inFlight, n) == OwedBelow(inFlight, n - 1) + Owed(inFlight, n - 1);
      assert |OwedBelow(inFlight, n)| <= |OwedBelow(inFlight, n - 1)| + |Owed(inFlight, n - 1)|;
    }
  }

  /** Sixteen a slot is five hundred and twelve in all. */
  lemma InFlightIsBounded(inFlight: map<Hash, nat>)
    requires forall h :: h in inFlight ==> inFlight[h] < PEER_SLOTS
    requires forall slot :: 0 <= slot < PEER_SLOTS ==> |Owed(inFlight, slot)| <= MAX_BLOCKS_IN_FLIGHT
    ensures |inFlight| <= PEER_SLOTS * MAX_BLOCKS_IN_FLIGHT
  {
    FleetIsBounded(inFlight, PEER_SLOTS);
    assert OwedBelow(inFlight, PEER_SLOTS) == inFlight.Keys;
  }

  lemma {:induction false} DistinctIsSmall(t: seq<Hash>, owed: set<Hash>)
    requires Distinct(t) && forall h :: h in t ==> h in owed
    ensures |t| <= |owed|
    decreases |t|
  {
    if |t| > 0 {
      var n := |t| - 1;
      assert t == t[..n] + [t[n]];
      forall h | h in t[..n] ensures h in owed - {t[n]} {
        var j :| 0 <= j < n && t[j] == h;
        assert t[j] != t[n];
      }
      DistinctIsSmall(t[..n], owed - {t[n]});
    }
  }

  lemma {:induction false} WithoutIs(t: seq<Hash>, h: Hash)
    requires Distinct(t)
    ensures Distinct(Without(t, h)) && forall x :: x in Without(t, h) <==> x in t && x != h
    decreases |t|
  {
    if |t| > 0 {
      HeadAndTail(t);
      assert Distinct(t[1..]);
      WithoutIs(t[1..], h);
      assert t[0] !in t[1..];
    }
  }

  lemma OwedAfterAsk(inFlight: map<Hash, nat>, h: Hash, slot: nat, other: nat)
    requires h !in inFlight
    ensures Owed(inFlight[h := slot], other) == if other == slot then Owed(inFlight, slot) + {h} else Owed(inFlight, other)
  {
  }

  // ----- one step at a time -----------------------------------------------------------------------

  /** A slot can be forgotten whatever is queued from it. */
  lemma MatchedKeeps(s: State, slot: nat)
    requires Inv(s) && slot < PEER_SLOTS
    ensures Inv(Matched(s, slot))
  {
    if s.rows[slot] != s.conns[slot] {
      var t := Matched(s, slot);
      ForgottenKeepsBounds(s.inFlight, s.delivered, slot);
      hide Bounds;
      forall other | 0 <= other < PEER_SLOTS ensures TableOk(t, other) {
        assert TableOk(s, other);
      }
      forall k | 0 <= k < |t.queue| ensures QueuedOk(t, k) {
        assert QueuedOk(s, k);
      }
    }
  }

  lemma ForgottenKeepsBounds(inFlight: map<Hash, nat>, delivered: set<Hash>, slot: nat)
    requires Bounds(inFlight, delivered)
    ensures Bounds(Forgotten(inFlight, slot), delivered)
  {
    var kept := Forgotten(inFlight, slot);
    SmallerMap(kept, inFlight);
    forall other | 0 <= other < PEER_SLOTS ensures |Owed(kept, other)| <= MAX_BLOCKS_IN_FLIGHT {
      assert Owed(kept, other) <= Owed(inFlight, other);
      Subset(Owed(kept, other), Owed(inFlight, other));
    }
  }

  lemma {:induction false} Subset<T>(a: set<T>, b: set<T>)
    requires a <= b
    ensures |a| <= |b|
  {
    assert b == a + (b - a);
  }

  lemma SmallerMap(a: map<Hash, nat>, b: map<Hash, nat>)
    requires a.Keys <= b.Keys
    ensures |a| <= |b|
  {
    Subset(a.Keys, b.Keys);
  }

  lemma AskOneKeeps(s: State, slot: nat, h: Hash)
    requires Books(s) && slot < PEER_SLOTS && s.conns[slot].Some? && s.rows[slot] == s.conns[slot]
    requires |s.delivered| < MAX_UNSTORED_BLOCKS && |Owed(s.inFlight, slot)| < MAX_BLOCKS_IN_FLIGHT
    requires h !in s.inFlight && h !in s.delivered
    ensures var r := AskedOne(s, slot, h);
            && r.Some? && Books(r.value)
            && r.value.inFlight == s.inFlight[h := slot] && r.value.delivered == s.delivered
            && r.value.rows == s.rows && r.value.conns == s.conns && r.value.queue == s.queue
            && |Owed(r.value.inFlight, slot)| == |Owed(s.inFlight, slot)| + 1
  {
    assert TableOk(s, slot);
    DistinctIsSmall(s.tables[slot], Owed(s.inFlight, slot));
    var t := s.(inFlight := s.inFlight[h := slot], tables := s.tables[slot := s.tables[slot] + [h]]);
    AskKeepsBounds(s.inFlight, s.delivered, slot, h);
    OwedAfterAsk(s.inFlight, h, slot, slot);
    hide Bounds;
    forall other | 0 <= other < PEER_SLOTS ensures TableOk(t, other) {
      assert TableOk(s, other);
    }
  }

  lemma AskKeepsBounds(inFlight: map<Hash, nat>, delivered: set<Hash>, slot: nat, h: Hash)
    requires Bounds(inFlight, delivered) && slot < PEER_SLOTS && h !in inFlight && h !in delivered
    requires |delivered| < MAX_UNSTORED_BLOCKS && |Owed(inFlight, slot)| < MAX_BLOCKS_IN_FLIGHT
    ensures Bounds(inFlight[h := slot], delivered)
  {
    var more := inFlight[h := slot];
    forall other | 0 <= other < PEER_SLOTS ensures |Owed(more, other)| <= MAX_BLOCKS_IN_FLIGHT {
      OwedAfterAsk(inFlight, h, slot, other);
    }
    InFlightIsBounded(more);
  }

  lemma {:induction false} AskAllKeeps(s: State, slot: nat, hashes: seq<Hash>)
    requires Books(s) && slot < PEER_SLOTS == |s.tables| && s.conns[slot].Some? && s.rows[slot] == s.conns[slot]
    requires |s.delivered| < MAX_UNSTORED_BLOCKS && Distinct(hashes)
    requires |hashes| + |Owed(s.inFlight, slot)| <= MAX_BLOCKS_IN_FLIGHT
    requires forall h :: h in hashes ==> h !in s.inFlight && h !in s.delivered
    ensures var r := AskedAll(s, slot, hashes);
            && r.Some? && Books(r.value)
            && r.value.delivered == s.delivered
            && r.value.rows == s.rows && r.value.conns == s.conns && r.value.queue == s.queue
            && r.value.inFlight.Keys == s.inFlight.Keys + (set h | h in hashes)
            && |Owed(r.value.inFlight, slot)| == |Owed(s.inFlight, slot)| + |hashes|
    decreases |hashes|
  {
    hide Books, AskedOne, Owed;
    if |hashes| > 0 {
      var n := |hashes| - 1;
      var last := hashes[n];
      AskAllKeeps(s, slot, hashes[..n]);
      var t := AskedAll(s, slot, hashes[..n]).value;
      assert last !in hashes[..n];
      AskOneKeeps(t, slot, last);
      assert forall h :: h in hashes <==> h in hashes[..n] || h == last;
    }
  }

  /** What a request that goes through leaves behind. */
  lemma {:induction false} AskedAllIs(s: State, slot: nat, hashes: seq<Hash>)
    requires slot < |s.tables| && AskedAll(s, slot, hashes).Some?
    ensures AskedAll(s, slot, hashes).value
            == s.(inFlight := s.inFlight + OwedBy(hashes, slot),
                  tables := s.tables[slot := s.tables[slot] + hashes])
    decreases |hashes|
  {
    hide OwedBy;
    if |hashes| == 0 {
      NothingAsked(s, slot);
    } else {
      var n := |hashes| - 1;
      AskedAllIs(s, slot, hashes[..n]);
      var t := AskedAll(s, slot, hashes[..n]).value;
      OwedByGrows(s.inFlight, hashes, slot, n);
      assert hashes[..n + 1] == hashes;
      Associates(s.tables[slot], hashes[..n], [hashes[n]]);
      assert AskedAll(s, slot, hashes) == AskedOne(t, slot, hashes[n]);
    }
  }

  lemma NothingAsked(s: State, slot: nat)
    requires slot < |s.tables|
    ensures s.(inFlight := s.inFlight + OwedBy([], slot), tables := s.tables[slot := s.tables[slot] + []]) == s
  {
    assert s.inFlight + OwedBy([], slot) == s.inFlight;
    NothingBehind(s.tables[slot]);
    assert s.tables[slot := s.tables[slot]] == s.tables;
  }

  lemma OwedByGrows(inFlight: map<Hash, nat>, hashes: seq<Hash>, slot: nat, i: nat)
    requires i < |hashes|
    ensures hashes[..i + 1] == hashes[..i] + [hashes[i]]
    ensures (inFlight + OwedBy(hashes[..i], slot))[hashes[i] := slot] == inFlight + OwedBy(hashes[..i + 1], slot)
  {
    assert hashes[..i + 1] == hashes[..i] + [hashes[i]];
    var (a, b) := (OwedBy(hashes[..i], slot), OwedBy(hashes[..i + 1], slot));
    assert b.Keys == a.Keys + {hashes[i]};
  }

  ghost function OwedBy(hashes: seq<Hash>, slot: nat): map<Hash, nat> {
    map h | h in hashes :: slot
  }

  /** From books that agree, a legal request fails no assertion and keeps them, whatever is queued. */
  lemma AskKeeps(s: State, slot: nat, hashes: seq<Hash>)
    requires Books(s) && Legal(s, Ask(slot, hashes))
    ensures Asked(s, slot, hashes).Some? && Books(Asked(s, slot, hashes).value)
    ensures Asked(s, slot, hashes).value
            == s.(inFlight := s.inFlight + OwedBy(hashes, slot),
                  tables := s.tables[slot := s.tables[slot] + hashes])
  {
    hide Tables, AskedAll, OwedBy;
    AskAllKeeps(s, slot, hashes);
    AskedAllIs(s, slot, hashes);
    InFlightIsBounded(AskedAll(s, slot, hashes).value.inFlight);
  }

  /** It keeps the queue in order as well exactly when it names no block that waits there. */
  lemma AskKeepsQueueIff(s: State, slot: nat, hashes: seq<Hash>)
    requires Inv(s) && Legal(s, Ask(slot, hashes))
    ensures Asked(s, slot, hashes).Some?
    ensures Inv(Asked(s, slot, hashes).value) <==> Clear(s, Ask(slot, hashes))
  {
    hide Bounds, Tables, Asked;
    AskKeeps(s, slot, hashes);
    var t := Asked(s, slot, hashes).value;
    forall k | 0 <= k < |s.queue|
      ensures s.queue[k].hash in hashes ==> Waits(s, s.queue[k].hash) && !QueuedOk(t, k)
      ensures s.queue[k].hash !in hashes ==> QueuedOk(t, k)
    {
      assert QueuedOk(s, k);
    }
  }

  /** What any number of requests may do: new blocks in flight, each in the table of the slot asked. */
  ghost predicate Added(s: State, t: State)
    requires |s.tables| == |t.tables| == PEER_SLOTS
  {
    && t.queue == s.queue
    && (forall h :: h in s.inFlight ==> h in t.inFlight && t.inFlight[h] == s.inFlight[h])
    && (forall h :: h in t.inFlight && h !in s.inFlight ==>
          t.inFlight[h] < PEER_SLOTS && h in t.tables[t.inFlight[h]])
    && (forall slot, h :: 0 <= slot < PEER_SLOTS && h in t.tables[slot] && h in s.inFlight ==> h in s.tables[slot])
  }

  lemma AddedOnce(s: State, t: State, slot: nat, hashes: seq<Hash>)
    requires |s.tables| == |t.tables| == PEER_SLOTS && Added(s, t)
    requires Legal(t, Ask(slot, hashes)) && Asked(t, slot, hashes).Some?
    ensures |Asked(t, slot, hashes).value.tables| == PEER_SLOTS && Added(s, Asked(t, slot, hashes).value)
  {
    hide Asked;
    AskedIs(t, slot, hashes);
  }

  lemma AskedIs(s: State, slot: nat, hashes: seq<Hash>)
    requires slot < |s.tables| && Asked(s, slot, hashes).Some?
    ensures Asked(s, slot, hashes).value
            == s.(inFlight := s.inFlight + OwedBy(hashes, slot),
                  tables := s.tables[slot := s.tables[slot] + hashes])
  {
    hide AskedAll, OwedBy;
    AskedAllIs(s, slot, hashes);
  }

  /** A pass of requests keeps the queue in order exactly when no block that waits there came in flight. */
  lemma AddedKeepsQueueIff(s: State, t: State)
    requires Inv(s) && Books(t) && Added(s, t)
    ensures Inv(t) <==>
            forall k :: 0 <= k < |s.queue| && s.queue[k].hash in t.inFlight ==> s.queue[k].hash in s.inFlight
  {
    hide Bounds, Tables;
    forall k | 0 <= k < |s.queue|
      ensures QueuedOk(t, k) <==> (s.queue[k].hash in t.inFlight ==> s.queue[k].hash in s.inFlight)
    {
      assert QueuedOk(s, k);
    }
  }

  lemma ReceiveKeeps(s: State)
    requires Inv(s) && Legal(s, Receive)
    ensures Received(s).Some? && Inv(Received(s).value)
  {
    hide Matched, Bounds, Distinct;
    var m := s.queue[0];
    assert QueuedOk(s, 0);
    var t := s.(queue := s.queue[1..]);
    forall k | 0 <= k < |t.queue| ensures QueuedOk(t, k) {
      assert QueuedOk(s, k + 1);
    }
    forall slot | 0 <= slot < PEER_SLOTS ensures TableOk(t, slot) {
      assert TableOk(s, slot);
    }
    if m.hash in s.inFlight {
      var u := t.(inFlight := s.inFlight - {m.hash}, delivered := s.delivered + {m.hash});
      ReceiveKeepsBounds(s.inFlight, s.delivered, m.hash);
      forall slot | 0 <= slot < PEER_SLOTS ensures TableOk(u, slot) {
        assert TableOk(s, slot);
        assert m.hash !in s.tables[slot];
      }
      forall k | 0 <= k < |u.queue| ensures QueuedOk(u, k) {
        assert QueuedOk(t, k);
      }
      MatchedKeeps(u, m.slot);
    }
  }

  lemma ReceiveKeepsBounds(inFlight: map<Hash, nat>, delivered: set<Hash>, h: Hash)
    requires Bounds(inFlight, delivered) && h in inFlight
    ensures Bounds(inFlight - {h}, delivered + {h}) && |delivered + {h}| <= MAX_DELIVERED_BLOCKS
  {
    var left := inFlight - {h};
    assert left.Keys == inFlight.Keys - {h};
    assert |left.Keys| == |inFlight.Keys| - 1;
    forall slot | 0 <= slot < PEER_SLOTS ensures |Owed(left, slot)| <= MAX_BLOCKS_IN_FLIGHT {
      Subset(Owed(left, slot), Owed(inFlight, slot));
    }
  }

  lemma TableStepKeeps(s: State, op: Op)
    requires Inv(s) && Legal(s, op) && (op.Arrive? || op.Depart?)
    ensures Step(s, op).Some? && Inv(Step(s, op).value)
  {
    hide Bounds;
    var t := Step(s, op).value;
    forall slot | 0 <= slot < PEER_SLOTS ensures TableOk(t, slot) {
      assert TableOk(s, slot);
    }
    forall k | 0 <= k < |t.queue| ensures QueuedOk(t, k) {
      assert QueuedOk(s, k);
    }
  }

  lemma AnswerKeeps(s: State, slot: nat, hash: Hash)
    requires Inv(s) && Legal(s, Answer(slot, hash))
    ensures Inv(Step(s, Answer(slot, hash)).value)
  {
    hide Bounds, Without;
    var t := Step(s, Answer(slot, hash)).value;
    assert TableOk(s, slot);
    WithoutIs(s.tables[slot], hash);
    forall other | 0 <= other < PEER_SLOTS ensures TableOk(t, other) {
      assert TableOk(s, other);
    }
    forall k | 0 <= k < |t.queue| ensures QueuedOk(t, k) {
      if k < |s.queue| {
        assert QueuedOk(s, k);
      } else {
        forall j | 0 <= j < k ensures t.queue[j].hash != hash {
          assert QueuedOk(s, j);
        }
      }
    }
  }

  /**
    Every legal step of either thread, from a state in order, fails no assertion; and it leaves a
    state in order exactly when it asks nobody for a block that waits in the queue.
   */
  lemma StepKeepsIff(s: State, op: Op)
    requires Inv(s) && Legal(s, op)
    ensures Step(s, op).Some?
    ensures Inv(Step(s, op).value) <==> Clear(s, op)
  {
    hide Inv, Matched, Asked, Received, Waits;
    match op
    case Arrive(_, _) => TableStepKeeps(s, op);
    case Depart(_) => TableStepKeeps(s, op);
    case Answer(slot, hash) => AnswerKeeps(s, slot, hash);
    case Receive => ReceiveKeeps(s);
    case Touch(slot) => MatchedKeeps(s, slot);
    case Ask(slot, hashes) => AskKeepsQueueIff(s, slot, hashes);
  }

  lemma StartOk()
    ensures Inv(Start())
  {
    var s := Start();
    forall slot | 0 <= slot < PEER_SLOTS ensures |Owed(s.inFlight, slot)| <= MAX_BLOCKS_IN_FLIGHT {
      assert Owed(s.inFlight, slot) == {};
    }
    assert forall slot :: 0 <= slot < PEER_SLOTS ==> TableOk(s, slot);
  }

  lemma {:induction false} ClearRunKeeps(trace: seq<State>, ops: seq<Op>, k: nat)
    requires IsRun(trace, ops) && ClearRun(trace, ops) && k < |trace|
    ensures Inv(trace[k])
    decreases k
  {
    hide Inv, Step, Legal, Clear;
    if k == 0 {
      StartOk();
    } else {
      ClearRunKeeps(trace, ops, k - 1);
      assert Step(trace[k - 1], ops[k - 1]) == Some(trace[k - 1 + 1]);
      StepKeepsIff(trace[k - 1], ops[k - 1]);
    }
  }

  /** The states of a run are all in order if and only if it never asks for a block that waits. */
  lemma RunKeepsIff(trace: seq<State>, ops: seq<Op>)
    requires IsRun(trace, ops)
    ensures (forall k :: 0 <= k < |trace| ==> Inv(trace[k])) <==> ClearRun(trace, ops)
  {
    hide Inv, Step, Legal, Clear;
    if ClearRun(trace, ops) {
      forall k | 0 <= k < |trace| ensures Inv(trace[k]) {
        ClearRunKeeps(trace, ops, k);
      }
    }
    if forall k :: 0 <= k < |trace| ==> Inv(trace[k]) {
      forall k | 0 <= k < |ops| ensures Clear(trace[k], ops[k]) {
        assert Step(trace[k], ops[k]) == Some(trace[k + 1]);
        StepKeepsIff(trace[k], ops[k]);
        assert Inv(trace[k + 1]);
      }
    }
  }

  /** What the books being in order comes to, slot by slot and in all. */
  lemma BooksSay(s: State)
    requires Books(s)
    ensures forall a, b, h ::
              (0 <= a < PEER_SLOTS && 0 <= b < PEER_SLOTS && h in s.tables[a] && h in s.tables[b]) ==> a == b
    ensures forall a :: 0 <= a < PEER_SLOTS ==>
              |s.tables[a]| <= |Owed(s.inFlight, a)| <= MAX_BLOCKS_IN_FLIGHT
    ensures forall h :: h in s.inFlight ==> h !in s.delivered
    ensures |s.inFlight| <= PEER_SLOTS * MAX_BLOCKS_IN_FLIGHT
    ensures |s.delivered| + |s.inFlight| < MAX_UNSTORED_BLOCKS + PEER_SLOTS * MAX_BLOCKS_IN_FLIGHT
  {
    InFlightIsBounded(s.inFlight);
    forall a | 0 <= a < PEER_SLOTS
      ensures |s.tables[a]| <= |Owed(s.inFlight, a)| <= MAX_BLOCKS_IN_FLIGHT
      ensures forall h :: h in s.tables[a] ==> h in s.inFlight && s.inFlight[h] == a
    {
      assert TableOk(s, a);
      DistinctIsSmall(s.tables[a], Owed(s.inFlight, a));
    }
  }

  // ----- where each block goes --------------------------------------------------------------------

  /**
    Taking a block off the queue moves it from in flight to delivered, or drops it when nobody owes it
    any more; no other block moves.
   */
  lemma ReceiveDelivers(s: State)
    requires Inv(s) && Legal(s, Receive)
    ensures Received(s).Some?
    ensures var (m, t) := (s.queue[0], Received(s).value);
            && t.queue == s.queue[1..] && t.tables == s.tables && t.conns == s.conns
            && (m.hash !in s.inFlight ==> t == s.(queue := s.queue[1..]))
            && (m.hash in s.inFlight ==>
                  && m.hash !in t.inFlight && t.delivered == s.delivered + {m.hash}
                  && forall x :: x != m.hash && x in s.inFlight && x !in t.inFlight ==>
                       s.inFlight[x] == m.slot && s.rows[m.slot] != s.conns[m.slot])
  {
    assert QueuedOk(s, 0);
    ReceiveKeeps(s);
  }

  /** Forgetting a slot gives back every block it owed and no other. */
  lemma ForgottenIs(inFlight: map<Hash, nat>, slot: nat, other: nat)
    ensures Owed(Forgotten(inFlight, slot), other) == if other == slot then {} else Owed(inFlight, other)
  {
  }

  lemma AskedKeepsDelivered(s: State, slot: nat, hashes: seq<Hash>)
    requires slot < |s.tables| && Asked(s, slot, hashes).Some?
    ensures Asked(s, slot, hashes).value.delivered == s.delivered
  {
    AskedAllIs(s, slot, hashes);
  }

  /** Nothing leaves the delivered set. */
  lemma StepKeepsDelivered(s: State, op: Op)
    requires Legal(s, op) && Step(s, op).Some?
    ensures s.delivered <= Step(s, op).value.delivered
  {
    hide Asked;
    if op.Ask? {
      AskedKeepsDelivered(s, op.slot, op.hashes);
    }
  }

  lemma {:induction false} DeliveredStays(trace: seq<State>, ops: seq<Op>, j: nat, k: nat)
    requires IsRun(trace, ops) && j <= k < |trace|
    ensures trace[j].delivered <= trace[k].delivered
    decreases k
  {
    hide Legal, Step;
    if j < k {
      DeliveredStays(trace, ops, j, k - 1);
      assert Step(trace[k - 1], ops[k - 1]) == Some(trace[k - 1 + 1]);
      StepKeepsDelivered(trace[k - 1], ops[k - 1]);
    }
  }

  /** The bounds need no condition: they hold in every state of every run. */
  lemma {:induction false} EveryRunIsBounded(trace: seq<State>, ops: seq<Op>, k: nat)
    requires IsRun(trace, ops) && k < |trace|
    ensures Bounds(trace[k].inFlight, trace[k].delivered)
    decreases k
  {
    hide Bounds, Step, Legal;
    if k == 0 {
      StartOk();
      StartIsBounded();
    } else {
      EveryRunIsBounded(trace, ops, k - 1);
      assert Step(trace[k - 1], ops[k - 1]) == Some(trace[k - 1 + 1]);
      StepKeepsBounds(trace[k - 1], ops[k - 1]);
    }
  }

  lemma StartIsBounded()
    ensures Bounds(Start().inFlight, Start().delivered)
  {
    StartOk();
  }

  lemma StepKeepsBounds(s: State, op: Op)
    requires Legal(s, op) && Step(s, op).Some? && Bounds(s.inFlight, s.delivered)
    ensures Bounds(Step(s, op).value.inFlight, Step(s, op).value.delivered)
  {
    hide Bounds, Asked, Without;
    match op
    case Ask(slot, hashes) =>
      AskedAllBounded(s, slot, hashes);
      AskedIsAskedAll(s, slot, hashes);
    case Receive =>
      var m := s.queue[0];
      if m.hash in s.inFlight {
        ReceiveKeepsBounds(s.inFlight, s.delivered, m.hash);
        ForgottenKeepsBounds(s.inFlight - {m.hash}, s.delivered + {m.hash}, m.slot);
      }
    case Touch(slot) => ForgottenKeepsBounds(s.inFlight, s.delivered, slot);
    case _ =>
  }

  lemma AskedIsAskedAll(s: State, slot: nat, hashes: seq<Hash>)
    requires slot < |s.tables| && Asked(s, slot, hashes).Some?
    ensures AskedAll(s, slot, hashes) == Asked(s, slot, hashes)
    ensures Asked(s, slot, hashes).value.delivered == s.delivered
  {
    AskedAllIs(s, slot, hashes);
  }

  lemma {:induction false} AskedAllBounded(s: State, slot: nat, hashes: seq<Hash>)
    requires slot < PEER_SLOTS == |s.tables| && Bounds(s.inFlight, s.delivered) && Distinct(hashes)
    requires |s.delivered| < MAX_UNSTORED_BLOCKS
    requires |hashes| + |Owed(s.inFlight, slot)| <= MAX_BLOCKS_IN_FLIGHT
    requires forall h :: h in hashes ==> h !in s.inFlight && h !in s.delivered
    ensures var r := AskedAll(s, slot, hashes);
            r.Some? ==>
              && Bounds(r.value.inFlight, r.value.delivered) && r.value.delivered == s.delivered
              && r.value.inFlight.Keys == s.inFlight.Keys + (set h | h in hashes)
              && |Owed(r.value.inFlight, slot)| == |Owed(s.inFlight, slot)| + |hashes|
    decreases |hashes|
  {
    hide Bounds, Owed;
    if |hashes| > 0 && AskedAll(s, slot, hashes).Some? {
      var n := |hashes| - 1;
      AskedAllBounded(s, slot, hashes[..n]);
      var t := AskedAll(s, slot, hashes[..n]).value;
      assert hashes[n] !in hashes[..n];
      AskKeepsBounds(t.inFlight, t.delivered, slot, hashes[n]);
      OwedByOneMore(t.inFlight, hashes[n], slot);
      assert forall h :: h in hashes <==> h in hashes[..n] || h == hashes[n];
    }
  }

  lemma OwedByOneMore(inFlight: map<Hash, nat>, h: Hash, slot: nat)
    requires h !in inFlight
    ensures |Owed(inFlight[h := slot], slot)| == |Owed(inFlight, slot)| + 1
  {
    OwedAfterAsk(inFlight, h, slot, slot);
  }

  /**
    A block that has arrived is never in flight again, in any later state of any run; in a clear run
    it is in no table either.
   */
  lemma NeverAskedAgain(trace: seq<State>, ops: seq<Op>, j: nat, k: nat, h: Hash)
    requires IsRun(trace, ops) && j <= k < |trace| && h in trace[j].delivered
    ensures h !in trace[k].inFlight
    ensures ClearRun(trace, ops) ==>
              forall slot :: 0 <= slot < |trace[k].tables| ==> h !in trace[k].tables[slot]
  {
    hide IsRun, ClearRun;
    DeliveredStays(trace, ops, j, k);
    EveryRunIsBounded(trace, ops, k);
    if ClearRun(trace, ops) {
      ClearRunKeeps(trace, ops, k);
      forall slot | 0 <= slot < |trace[k].tables| ensures h !in trace[k].tables[slot] {
        assert TableOk(trace[k], slot);
      }
    }
  }

  // ----- what holds in every run, clear or not ----------------------------------------------------

  /**
    What a table is worth when nothing is assumed of the run: a block listed there is owed by the
    slot, or has arrived from somebody else in the meantime.
   */
  ghost predicate TableSays(s: State, slot: nat)
    requires slot < |s.rows| == |s.conns| == |s.tables|
  {
    && Distinct(s.tables[slot]) && |s.tables[slot]| <= MAX_BLOCKS_IN_FLIGHT
    && (forall h :: h in s.tables[slot] ==> (h in s.inFlight && s.inFlight[h] == slot) || h in s.delivered)
    && (s.tables[slot] != [] ==> s.conns[slot].Some? && s.rows[slot] == s.conns[slot])
  }

  ghost predicate Sane(s: State) {
    && |s.rows| == |s.conns| == |s.tables| == PEER_SLOTS
    && Bounds(s.inFlight, s.delivered)
    && (forall slot :: 0 <= slot < PEER_SLOTS ==> TableSays(s, slot))
    && (forall k :: 0 <= k < |s.queue| ==> s.queue[k].slot < PEER_SLOTS)
  }

  /** Books that agree, over a queue of known slots, are sane. */
  lemma BooksAreSane(s: State)
    requires Books(s) && forall k :: 0 <= k < |s.queue| ==> s.queue[k].slot < PEER_SLOTS
    ensures Sane(s)
  {
    BooksSay(s);
    hide Bounds;
    forall slot | 0 <= slot < PEER_SLOTS ensures TableSays(s, slot) {
      assert TableOk(s, slot);
    }
  }

  lemma InvIsSane(s: State)
    requires Inv(s)
    ensures Sane(s)
  {
    hide Bounds, Tables;
    forall k | 0 <= k < |s.queue| ensures s.queue[k].slot < PEER_SLOTS {
      assert QueuedOk(s, k);
    }
    BooksAreSane(s);
  }

  /** The loop of a request goes through exactly when the table has room and lists none of the blocks. */
  lemma {:induction false} AskedAllIff(s: State, slot: nat, hashes: seq<Hash>)
    requires slot < |s.tables| && Distinct(hashes) && |s.tables[slot]| <= MAX_BLOCKS_IN_FLIGHT
    requires forall h :: h in hashes ==> h !in s.inFlight
    ensures AskedAll(s, slot, hashes).Some?
            <==> |s.tables[slot]| + |hashes| <= MAX_BLOCKS_IN_FLIGHT
                 && forall h :: h in hashes ==> h !in s.tables[slot]
    decreases |hashes|
  {
    if |hashes| > 0 {
      var n := |hashes| - 1;
      var (front, last) := (hashes[..n], hashes[n]);
      assert hashes == front + [last] && last !in front;
      AskedAllIff(s, slot, front);
      if AskedAll(s, slot, front).Some? {
        AskedAllIs(s, slot, front);
      }
    }
  }

  /**
    The exact condition on the assertions of a request, in every state of every run: the blocks are
    more than the table has room for. The schedule counts the room from its own map, so a block that
    is still listed after it has arrived takes up room the schedule does not see.
   */
  lemma RequestFailsIff(s: State, slot: nat, hashes: seq<Hash>)
    requires Sane(s) && Legal(s, Ask(slot, hashes))
    ensures Asked(s, slot, hashes) == None <==> |s.tables[slot]| + |hashes| > MAX_BLOCKS_IN_FLIGHT
  {
    assert TableSays(s, slot);
    AskedAllIff(s, slot, hashes);
    AskedAllBounded(s, slot, hashes);
    hide AskedAll, Owed, Distinct;
    if AskedAll(s, slot, hashes).Some? {
      InFlightIsBounded(AskedAll(s, slot, hashes).value.inFlight);
    }
  }

  /** A request for all the room the schedule sees fails exactly when the table lists more than is owed. */
  lemma FullRequestFailsIff(s: State, slot: nat, hashes: seq<Hash>)
    requires Sane(s) && Legal(s, Ask(slot, hashes))
    requires |hashes| + |Owed(s.inFlight, slot)| == MAX_BLOCKS_IN_FLIGHT
    ensures Asked(s, slot, hashes) == None <==> |s.tables[slot]| > |Owed(s.inFlight, slot)|
  {
    hide Asked, Owed, Sane;
    RequestFailsIff(s, slot, hashes);
  }

  /** The same for a block off the queue: it is in flight from a slot it did not come from. */
  lemma ReceiveFailsIff(s: State)
    requires Sane(s) && Legal(s, Receive)
    ensures Received(s) == None <==> Trips(s, 0)
  {
    hide Matched, Bounds;
    if s.queue[0].hash in s.inFlight {
      ReceiveKeepsBounds(s.inFlight, s.delivered, s.queue[0].hash);
    }
  }

  lemma MatchedIsSane(s: State, slot: nat)
    requires Sane(s) && slot < PEER_SLOTS
    ensures Sane(Matched(s, slot))
  {
    ForgottenKeepsBounds(s.inFlight, s.delivered, slot);
    hide Bounds, Distinct;
    var t := Matched(s, slot);
    forall other | 0 <= other < PEER_SLOTS ensures TableSays(t, other) {
      assert TableSays(s, other);
    }
  }

  lemma ReceivedIsSane(s: State)
    requires Sane(s) && Legal(s, Receive) && Received(s).Some?
    ensures Sane(Received(s).value)
  {
    hide Bounds, Distinct, Matched;
    var m := s.queue[0];
    var t := s.(queue := s.queue[1..]);
    forall other | 0 <= other < PEER_SLOTS ensures TableSays(t, other) {
      assert TableSays(s, other);
    }
    if m.hash in s.inFlight {
      var u := t.(inFlight := s.inFlight - {m.hash}, delivered := s.delivered + {m.hash});
      ReceiveKeepsBounds(s.inFlight, s.delivered, m.hash);
      forall other | 0 <= other < PEER_SLOTS ensures TableSays(u, other) {
        assert TableSays(s, other);
      }
      MatchedIsSane(u, m.slot);
    }
  }

  lemma AskedIsSane(s: State, slot: nat, hashes: seq<Hash>)
    requires Sane(s) && Legal(s, Ask(slot, hashes)) && Asked(s, slot, hashes).Some?
    ensures Sane(Asked(s, slot, hashes).value)
  {
    hide Bounds, Asked, AskedAll, Owed;
    RequestFailsIff(s, slot, hashes);
    AskedIs(s, slot, hashes);
    StepKeepsBounds(s, Ask(slot, hashes));
    var t := Asked(s, slot, hashes).value;
    assert TableSays(s, slot);
    DistinctTogether(s.tables[slot], hashes);
    forall other | 0 <= other < PEER_SLOTS ensures TableSays(t, other) {
      assert TableSays(s, other);
    }
  }

  lemma DistinctTogether(a: seq<Hash>, b: seq<Hash>)
    requires Distinct(a) && Distinct(b) && forall h :: h in b ==> h !in a
    ensures Distinct(a + b)
  {
    var t := a + b;
    forall j, k | 0 <= j < k < |t| ensures t[j] != t[k] {
      if k >= |a| {
        assert t[k] == b[k - |a|] && t[k] in b;
      }
    }
  }

  lemma TableStepIsSane(s: State, op: Op)
    requires Sane(s) && Legal(s, op) && (op.Arrive? || op.Depart? || op.Answer?)
    ensures Sane(Step(s, op).value)
  {
    hide Bounds, Without;
    var t := Step(s, op).value;
    assert TableSays(s, op.slot);
    if op.Answer? {
      WithoutIs(s.tables[op.slot], op.hash);
      DistinctIsSmall(Without(s.tables[op.slot], op.hash), set h | h in s.tables[op.slot]);
      SeqIsAtLeastItsSet(s.tables[op.slot]);
    }
    forall other | 0 <= other < PEER_SLOTS ensures TableSays(t, other) {
      assert TableSays(s, other);
    }
  }

  lemma {:induction false} SeqIsAtLeastItsSet(t: seq<Hash>)
    ensures |set h | h in t| <= |t|
    decreases |t|
  {
    if |t| > 0 {
      var n := |t| - 1;
      SeqIsAtLeastItsSet(t[..n]);
      assert t == t[..n] + [t[n]];
      assert (set h | h in t) == (set h | h in t[..n]) + {t[n]};
    } else {
      assert (set h | h in t) == {};
    }
  }

  lemma StepIsSane(s: State, op: Op)
    requires Sane(s) && Legal(s, op) && Step(s, op).Some?
    ensures Sane(Step(s, op).value)
  {
    hide Sane, Matched, Asked, Received, Without;
    match op
    case Receive => ReceivedIsSane(s);
    case Touch(slot) => MatchedIsSane(s, slot);
    case Ask(slot, hashes) => AskedIsSane(s, slot, hashes);
    case _ => TableStepIsSane(s, op);
  }

  /** Every state of every run is sane, so the two exact conditions hold in all of them. */
  lemma {:induction false} EveryRunIsSane(trace: seq<State>, ops: seq<Op>, k: nat)
    requires IsRun(trace, ops) && k < |trace|
    ensures Sane(trace[k])
    decreases k
  {
    hide Sane, Step, Legal;
    if k == 0 {
      StartOk();
      InvIsSane(trace[0]);
    } else {
      EveryRunIsSane(trace, ops, k - 1);
      assert Step(trace[k - 1], ops[k - 1]) == Some(trace[k - 1 + 1]);
      StepIsSane(trace[k - 1], ops[k - 1]);
    }
  }

  // ----- what asking for a waiting block leads to -------------------------------------------------

  /** What the queue needs for blocks to be taken off it. */
  ghost predicate Draining(s: State) {
    && |s.rows| == |s.conns| == PEER_SLOTS && Bounds(s.inFlight, s.delivered)
    && (forall k :: 0 <= k < |s.queue| ==> s.queue[k].slot < PEER_SLOTS)
    && (forall j, k :: 0 <= j < k < |s.queue| ==> s.queue[j].hash != s.queue[k].hash)
    && (forall k :: 0 <= k < |s.queue| && Trips(s, k) ==> Owing(s, s.queue[k].hash))
  }

  /** The block is in flight from a slot other than the one it came from. */
  ghost predicate Trips(s: State, k: nat)
    requires k < |s.queue|
  {
    s.queue[k].hash in s.inFlight && s.inFlight[s.queue[k].hash] != s.queue[k].slot
  }

  /** The slot that owes a block is matched to its connection. */
  ghost predicate Owing(s: State, h: Hash)
    requires |s.rows| == |s.conns| == PEER_SLOTS
  {
    h in s.inFlight && s.inFlight[h] < PEER_SLOTS && s.rows[s.inFlight[h]] == s.conns[s.inFlight[h]]
  }

  /** Taking the first `n` blocks off the queue, `None` once an assertion fails. */
  ghost function ReceivedTimes(s: State, n: nat): (r: Option<State>)
    requires |s.rows| == |s.conns| == PEER_SLOTS && n <= |s.queue|
    requires forall k :: 0 <= k < |s.queue| ==> s.queue[k].slot < PEER_SLOTS
    ensures r.Some? ==> r.value.tables == s.tables && s.delivered <= r.value.delivered
    decreases n
  {
    if n == 0 then Some(s)
    else
      match Received(s)
      case None => None
      case Some(t) => ReceivedTimes(t, n - 1)
  }

  /** One block off the queue: it trips or not, and the blocks behind it trip as they did. */
  lemma DrainOne(s: State)
    requires Draining(s) && |s.queue| > 0
    ensures Received(s) == None <==> Trips(s, 0)
    ensures !Trips(s, 0) ==>
              var t := Received(s).value;
              && Draining(t) && t.queue == s.queue[1..]
              && (forall k :: 0 <= k < |t.queue| ==> (Trips(t, k) <==> Trips(s, k + 1)))
              && s.queue[0].hash !in t.inFlight
              && (s.queue[0].hash in s.inFlight ==> s.queue[0].hash in t.delivered)
  {
    hide Bounds;
    var m := s.queue[0];
    if m.hash in s.inFlight {
      ReceiveKeepsBounds(s.inFlight, s.delivered, m.hash);
      ForgottenKeepsBounds(s.inFlight - {m.hash}, s.delivered + {m.hash}, m.slot);
    }
    if !Trips(s, 0) {
      var t := Received(s).value;
      forall k | 0 <= k < |t.queue|
        ensures Trips(t, k) <==> Trips(s, k + 1)
        ensures Trips(t, k) ==> Owing(t, t.queue[k].hash)
        ensures t.queue[k].slot < PEER_SLOTS
      {
        assert t.queue[k] == s.queue[k + 1] && s.queue[k + 1].hash != m.hash;
        assert Trips(s, k + 1) ==> Owing(s, s.queue[k + 1].hash);
      }
    }
  }

  lemma {:induction false} DrainFails(s: State, n: nat)
    requires Draining(s) && n <= |s.queue|
    ensures ReceivedTimes(s, n) == None <==> exists k :: 0 <= k < n && Trips(s, k)
    decreases n
  {
    hide Draining, Received, Bounds;
    if n > 0 {
      DrainingSays(s);
      DrainOne(s);
      if !Trips(s, 0) {
        var t := Received(s).value;
        DrainFails(t, n - 1);
        forall k | 0 <= k < n - 1 ensures Trips(t, k) <==> Trips(s, k + 1) {
        }
        if k :| 0 <= k < n && Trips(s, k) {
          assert k > 0 && Trips(t, k - 1);
        }
      }
    }
  }

  lemma DrainingSays(s: State)
    requires Draining(s)
    ensures |s.rows| == |s.conns| == PEER_SLOTS && forall k :: 0 <= k < |s.queue| ==> s.queue[k].slot < PEER_SLOTS
  {
  }

  lemma AskedDrains(s: State, slot: nat, hashes: seq<Hash>)
    requires Inv(s) && Legal(s, Ask(slot, hashes))
    ensures Asked(s, slot, hashes).Some?
    ensures var t := Asked(s, slot, hashes).value;
            && Draining(t) && t.queue == s.queue && t.tables[slot] == s.tables[slot] + hashes
            && |t.tables| == PEER_SLOTS
            && forall k :: 0 <= k < |s.queue| ==>
                 (Trips(t, k) <==> s.queue[k].hash in hashes && s.queue[k].slot != slot)
  {
    hide Bounds, Tables, Asked;
    AskKeeps(s, slot, hashes);
    var t := Asked(s, slot, hashes).value;
    forall k | 0 <= k < |s.queue|
      ensures Trips(t, k) <==> s.queue[k].hash in hashes && s.queue[k].slot != slot
      ensures Trips(t, k) ==> Owing(t, t.queue[k].hash)
      ensures s.queue[k].slot < PEER_SLOTS
      ensures forall j :: 0 <= j < k ==> s.queue[j].hash != s.queue[k].hash
    {
      assert QueuedOk(s, k);
    }
  }

  /**
    The exact condition on the assertion that a block answers the peer it was asked of. Let a legal
    request follow a state in order: taking the first `n` blocks off the queue after it fails if and
    only if one of them was asked for again, of a slot other than the one it came from.
   */
  lemma LateBlockFailsIff(s: State, slot: nat, hashes: seq<Hash>, n: nat)
    requires Inv(s) && Legal(s, Ask(slot, hashes)) && n <= |s.queue|
    ensures Asked(s, slot, hashes).Some? && Draining(Asked(s, slot, hashes).value)
    ensures Asked(s, slot, hashes).value.queue == s.queue
    ensures ReceivedTimes(Asked(s, slot, hashes).value, n) == None
            <==> exists k :: 0 <= k < n && s.queue[k].hash in hashes && s.queue[k].slot != slot
  {
    hide Bounds, Tables, Asked, Draining, Inv, Legal, ReceivedTimes, Trips;
    AskLegalSays(s, slot, hashes);
    AskedDrains(s, slot, hashes);
    var t := Asked(s, slot, hashes).value;
    DrainingSays(t);
    DrainFails(t, n);
    if k :| 0 <= k < n && s.queue[k].hash in hashes && s.queue[k].slot != slot {
      assert Trips(t, k);
    }
  }

  /**
    The other failure. Ask the next occupant of a slot for a block the last one left queued: once it
    is taken off, the block is delivered and no longer in flight, and still in the table of a peer
    that was asked for it. That entry takes up room: from there on a legal request to the slot fails
    exactly when it and the table together exceed the table's bound.
   */
  lemma ReplacedPeerKeepsTable(s: State, slot: nat, hashes: seq<Hash>, k: nat)
    requires Inv(s) && Legal(s, Ask(slot, hashes)) && k < |s.queue|
    requires s.queue[k].hash in hashes && s.queue[k].slot == slot
    ensures Asked(s, slot, hashes).Some? && Draining(Asked(s, slot, hashes).value)
    ensures Asked(s, slot, hashes).value.queue == s.queue
    ensures var r := ReceivedTimes(Asked(s, slot, hashes).value, k + 1);
            r.Some? ==>
              var (h, t) := (s.queue[k].hash, r.value);
              && h in t.delivered && h !in t.inFlight && Sane(t) && !Inv(t)
              && t.tables[slot] == s.tables[slot] + hashes && h in t.tables[slot]
              && forall more :: Legal(t, Ask(slot, more)) ==>
                   (Asked(t, slot, more) == None <==> |t.tables[slot]| + |more| > MAX_BLOCKS_IN_FLIGHT)
  {
    hide Bounds, Asked, Inv, Legal, ReceivedTimes, Draining, Trips, Sane;
    AskedDrains(s, slot, hashes);
    AskLegalSays(s, slot, hashes);
    var t := Asked(s, slot, hashes).value;
    DrainingSays(t);
    AskedBlockIsOwed(s, slot, hashes, k);
    DrainDelivers(t, k);
    InvIsSane(s);
    AskedIsSane(s, slot, hashes);
    var r := ReceivedTimes(t, k + 1);
    if r.Some? {
      ReceivedTimesIsSane(t, k + 1);
      SaneShape(r.value);
      NotInOrder(r.value, slot, s.queue[k].hash);
      forall more | Legal(r.value, Ask(slot, more))
        ensures Asked(r.value, slot, more) == None <==> |r.value.tables[slot]| + |more| > MAX_BLOCKS_IN_FLIGHT
      {
        RequestFailsIff(r.value, slot, more);
      }
    }
  }

  lemma SaneShape(s: State)
    requires Sane(s)
    ensures |s.rows| == |s.conns| == |s.tables| == PEER_SLOTS
    ensures forall k :: 0 <= k < |s.queue| ==> s.queue[k].slot < PEER_SLOTS
  {
  }

  lemma {:induction false} ReceivedTimesIsSane(s: State, n: nat)
    requires Sane(s) && |s.rows| == |s.conns| == PEER_SLOTS && n <= |s.queue|
    requires forall k :: 0 <= k < |s.queue| ==> s.queue[k].slot < PEER_SLOTS
    ensures ReceivedTimes(s, n).Some? ==> Sane(ReceivedTimes(s, n).value)
    decreases n
  {
    hide Sane, Received;
    if n > 0 && ReceivedTimes(s, n).Some? {
      SaneShape(s);
      ReceivedIsSane(s);
      ReceivedLeaves(s);
      ReceivedTimesIsSane(Received(s).value, n - 1);
    }
  }

  lemma ReceivedLeaves(s: State)
    requires |s.queue| > 0 && s.queue[0].slot < |s.rows| == |s.conns| && Received(s).Some?
    ensures Received(s).value.queue == s.queue[1..]
    ensures |Received(s).value.rows| == |Received(s).value.conns| == |s.rows|
  {
  }

  lemma AskLegalSays(s: State, slot: nat, hashes: seq<Hash>)
    requires Legal(s, Ask(slot, hashes))
    ensures slot < PEER_SLOTS == |s.tables|
  {
  }

  lemma AskedBlockIsOwed(s: State, slot: nat, hashes: seq<Hash>, k: nat)
    requires Inv(s) && Legal(s, Ask(slot, hashes)) && k < |s.queue|
    requires s.queue[k].hash in hashes && s.queue[k].slot == slot
    ensures Asked(s, slot, hashes).Some?
    ensures var t := Asked(s, slot, hashes).value;
            t.queue == s.queue && |t.rows| == |t.conns| == PEER_SLOTS && Owing(t, s.queue[k].hash)
  {
    hide Bounds, Tables, Asked;
    AskKeeps(s, slot, hashes);
  }

  lemma NotInOrder(s: State, slot: nat, h: Hash)
    requires slot < |s.tables| && h in s.tables[slot] && h !in s.inFlight
    ensures !Inv(s)
  {
    if |s.rows| == |s.conns| == |s.tables| {
      assert !TableOk(s, slot);
    }
  }

  /** A block owed by a matched slot is delivered when its turn in the queue comes. */
  lemma {:induction false} DrainDelivers(s: State, k: nat)
    requires Draining(s) && k < |s.queue| && |s.rows| == |s.conns| == PEER_SLOTS
    requires Owing(s, s.queue[k].hash)
    requires forall j :: 0 <= j < |s.queue| ==> s.queue[j].slot < PEER_SLOTS
    ensures var r := ReceivedTimes(s, k + 1);
            r.Some? ==> s.queue[k].hash in r.value.delivered && s.queue[k].hash !in r.value.inFlight
    decreases k
  {
    hide Bounds, Received;
    var r := ReceivedTimes(s, k + 1);
    if r.Some? {
      DrainOne(s);
      var t := Received(s).value;
      if k == 0 {
        assert ReceivedTimes(t, 0) == Some(t);
      } else {
        OwingStays(s, s.queue[k].hash, k);
        assert t.queue[k - 1] == s.queue[k];
        DrainDelivers(t, k - 1);
      }
    }
  }

  lemma OwingStays(s: State, h: Hash, k: nat)
    requires Draining(s) && 0 < k < |s.queue| && s.queue[k].hash == h && Owing(s, h) && Received(s).Some?
    ensures |Received(s).value.rows| == |Received(s).value.conns| == PEER_SLOTS && Owing(Received(s).value, h)
  {
    hide Bounds;
    assert s.queue[0].hash != h;
  }

  // ----- a block from a peer that has gone --------------------------------------------------------

  /** The calls of a peer that leaves with its block queued, and of the peer asked instead. */
  function LateOps(h: Hash): seq<Op> {
    [Arrive(0, 1), Touch(0), Ask(0, [h]), Answer(0, h), Depart(0), Touch(0),
     Arrive(1, 2), Touch(1), Ask(1, [h])]
  }

  function At(inFlight: map<Hash, nat>, rows: (Option<nat>, Option<nat>), conns: (Option<nat>, Option<nat>),
              tables: (seq<Hash>, seq<Hash>), queue: seq<Message>): State
  {
    var none := seq(PEER_SLOTS, _ => None);
    State(inFlight, {}, none[0 := rows.0][1 := rows.1], none[0 := conns.0][1 := conns.1],
          seq(PEER_SLOTS, _ => [])[0 := tables.0][1 := tables.1], queue)
  }

  function LateTrace(h: Hash): (trace: seq<State>)
    ensures |trace| == 10
  {
    var (none, one, two) := (None, Some(1), Some(2));
    [ At(map[], (none, none), (none, none), ([], []), []),
      At(map[], (none, none), (one, none), ([], []), []),
      At(map[], (one, none), (one, none), ([], []), []),
      At(map[h := 0], (one, none), (one, none), ([h], []), []),
      At(map[h := 0], (one, none), (one, none), ([], []), [Message(0, h)]),
      At(map[h := 0], (one, none), (none, none), ([], []), [Message(0, h)]),
      At(map[], (none, none), (none, none), ([], []), [Message(0, h)]),
      At(map[], (none, none), (none, two), ([], []), [Message(0, h)]),
      At(map[], (none, two), (none, two), ([], []), [Message(0, h)]),
      At(map[h := 1], (none, two), (none, two), ([], [h]), [Message(0, h)]) ]
  }

  lemma AskFirst(s: State, slot: nat, h: Hash)
    requires slot < PEER_SLOTS == |s.tables| == |s.rows| == |s.conns|
    requires s.conns[slot].Some? && s.rows[slot] == s.conns[slot]
    requires s.inFlight == map[] && s.delivered == {} && s.tables[slot] == []
    ensures Legal(s, Ask(slot, [h]))
    ensures Step(s, Ask(slot, [h])) == Some(s.(inFlight := map[h := slot], tables := s.tables[slot := [h]]))
  {
    assert Owed(s.inFlight, slot) == {};
    assert [h][..0] == [];
    assert AskedAll(s, slot, []) == Some(s);
    var t := s.(inFlight := map[h := slot], tables := s.tables[slot := [h]]);
    assert s.inFlight[h := slot] == t.inFlight && s.tables[slot] + [h] == [h];
    assert AskedOne(s, slot, h) == Some(t);
    assert Owed(t.inFlight, slot) == {h};
    assert |t.inFlight| == 1;
  }

  lemma AllForgotten(h: Hash)
    ensures Forgotten(map[h := 0], 0) == map[] && Without([h], h) == []
    ensures Forgotten(map[], 0) == map[] && Forgotten(map[], 1) == map[]
  {
  }

  /**
    The schedule does reach such a state. Let a peer leave with its block still queued, its row be
    forgotten, and the block be asked of another peer: taking the late block off the queue fails.
   */
  lemma LateBlockTrips(h: Hash)
    ensures var trace := LateTrace(h);
            && IsRun(trace, LateOps(h))
            && Legal(trace[9], Receive) && Step(trace[9], Receive) == None
  {
    var (trace, ops) := (LateTrace(h), LateOps(h));
    AllForgotten(h);
    AskFirst(trace[2], 0, h);
    AskFirst(trace[8], 1, h);
    forall k | 0 <= k < 9 ensures Legal(trace[k], ops[k]) && Step(trace[k], ops[k]) == Some(trace[k + 1]) {
      LateStep(h, k);
    }
    assert trace[0] == Start();
  }

  lemma Slots<T>(base: seq<T>, a: T, b: T, x: T)
    requires |base| == PEER_SLOTS
    ensures base[0 := a][1 := b][0 := x] == base[0 := x][1 := b]
    ensures base[0 := a][1 := b][1 := x] == base[0 := a][1 := x]
  {
  }

  lemma LateStep(h: Hash, k: nat)
    requires k < 9
    ensures Legal(LateTrace(h)[k], LateOps(h)[k])
    ensures Step(LateTrace(h)[k], LateOps(h)[k]) == Some(LateTrace(h)[k + 1])
  {
    hide Asked, Forgotten, Without, Received;
    var (trace, ops) := (LateTrace(h), LateOps(h));
    AllForgotten(h);
    var none: Option<nat>, one, two := None, Some(1), Some(2);
    var base: seq<Option<nat>> := seq(PEER_SLOTS, _ => None);
    var empty: seq<seq<Hash>> := seq(PEER_SLOTS, _ => []);
    if k == 2 {
      AskFirst(trace[2], 0, h);
      Slots(empty, [], [], [h]);
    } else if k == 8 {
      AskFirst(trace[8], 1, h);
      Slots(empty, [], [], [h]);
    } else if k < 2 {
      Slots(base, none, none, one);
      Slots(empty, [], [], []);
    } else if k < 6 {
      NothingAhead([Message(0, h)]);
      Slots(base, one, none, none);
      Slots(empty, [h], [], []);
      Slots(empty, [], [], []);
    } else {
      Slots(base, none, none, two);
      Slots(empty, [], [], []);
    }
  }

  // ----- a table that lists too much --------------------------------------------------------------

  /** The calls of a peer that leaves with its block queued, and of the next one in its slot. */
  function StaleOps(h: Hash, hashes: seq<Hash>): seq<Op> {
    [Arrive(0, 1), Touch(0), Ask(0, [h]), Answer(0, h), Depart(0), Touch(0),
     Arrive(0, 2), Touch(0), Ask(0, hashes), Receive]
  }

  ghost function StaleTrace(h: Hash, hashes: seq<Hash>): (trace: seq<State>)
    ensures |trace| == 11
  {
    var (none, two) := (None, Some(2));
    var owed := OwedBy(hashes, 0);
    LateTrace(h)[..7]
    + [ At(map[], (none, none), (two, none), ([], []), [Message(0, h)]),
        At(map[], (two, none), (two, none), ([], []), [Message(0, h)]),
        At(owed, (two, none), (two, none), (hashes, []), [Message(0, h)]),
        At(owed - {h}, (two, none), (two, none), (hashes, []), []).(delivered := {h}) ]
  }

  lemma {:induction false} SetOfDistinct(t: seq<Hash>)
    requires Distinct(t)
    ensures |set h | h in t| == |t|
    decreases |t|
  {
    if |t| > 0 {
      var n := |t| - 1;
      SetOfDistinct(t[..n]);
      assert t == t[..n] + [t[n]] && t[n] !in t[..n];
      assert (set h | h in t) == (set h | h in t[..n]) + {t[n]};
    } else {
      assert (set h | h in t) == {};
    }
  }

  /** Sixteen blocks at once, of a slot that owes nothing. */
  lemma AskSixteen(s: State, slot: nat, hashes: seq<Hash>)
    requires slot < PEER_SLOTS == |s.tables| == |s.rows| == |s.conns|
    requires s.conns[slot].Some? && s.rows[slot] == s.conns[slot]
    requires s.inFlight == map[] && s.delivered == {} && s.tables[slot] == []
    requires Distinct(hashes) && |hashes| == MAX_BLOCKS_IN_FLIGHT
    ensures Legal(s, Ask(slot, hashes))
    ensures Step(s, Ask(slot, hashes))
            == Some(s.(inFlight := OwedBy(hashes, slot), tables := s.tables[slot := hashes]))
  {
    hide Bounds, AskedAll, OwedBy, Owed, Distinct;
    NobodyOwes(slot);
    StartIsBounded();
    assert s.inFlight == Start().inFlight;
    AskedAllIff(s, slot, hashes);
    AskedAllBounded(s, slot, hashes);
    AskedAllIs(s, slot, hashes);
    BoundsSay(AskedAll(s, slot, hashes).value.inFlight, s.delivered);
    NothingAhead(hashes);
    OnlyThese(hashes, slot);
  }

  lemma NobodyOwes(slot: nat)
    ensures Owed(map[], slot) == {}
  {
  }

  lemma OnlyThese(hashes: seq<Hash>, slot: nat)
    ensures map[] + OwedBy(hashes, slot) == OwedBy(hashes, slot)
  {
  }

  lemma BoundsSay(inFlight: map<Hash, nat>, delivered: set<Hash>)
    requires Bounds(inFlight, delivered)
    ensures |inFlight| <= PEER_SLOTS * MAX_BLOCKS_IN_FLIGHT
    ensures forall slot :: 0 <= slot < PEER_SLOTS ==> |Owed(inFlight, slot)| <= MAX_BLOCKS_IN_FLIGHT
  {
    InFlightIsBounded(inFlight);
  }

  lemma StaleStep(h: Hash, hashes: seq<Hash>, k: nat)
    requires k < 10 && Distinct(hashes) && |hashes| == MAX_BLOCKS_IN_FLIGHT && h in hashes
    ensures Legal(StaleTrace(h, hashes)[k], StaleOps(h, hashes)[k])
    ensures Step(StaleTrace(h, hashes)[k], StaleOps(h, hashes)[k]) == Some(StaleTrace(h, hashes)[k + 1])
  {
    hide Asked, Forgotten, Without, Received, OwedBy, Distinct, LateTrace;
    var (trace, ops) := (StaleTrace(h, hashes), StaleOps(h, hashes));
    if k < 6 {
      LateStep(h, k);
      SameOps(h, hashes, k);
    } else {
      LateTraceAt(h);
      AllForgotten(h);
      var none: Option<nat>, two := None, Some(2);
      var base: seq<Option<nat>> := seq(PEER_SLOTS, _ => None);
      var empty: seq<seq<Hash>> := seq(PEER_SLOTS, _ => []);
      Slots(base, none, none, two);
      Slots(empty, [], [], []);
      Slots(empty, [], [], hashes);
      if k == 8 {
        AskSixteen(trace[8], 0, hashes);
      } else if k == 9 {
        ReceiveStale(h, hashes);
      }
    }
  }

  lemma SameOps(h: Hash, hashes: seq<Hash>, k: nat)
    requires k < 6
    ensures StaleOps(h, hashes)[k] == LateOps(h)[k]
  {
  }

  lemma LateTraceAt(h: Hash)
    ensures LateTrace(h)[6] == At(map[], (None, None), (None, None), ([], []), [Message(0, h)])
  {
  }

  lemma ReceiveStale(h: Hash, hashes: seq<Hash>)
    requires h in hashes
    ensures var s := StaleTrace(h, hashes)[9];
            Legal(s, Receive) && Received(s) == Some(StaleTrace(h, hashes)[10])
  {
    hide LateTrace;
    var s := StaleTrace(h, hashes)[9];
    assert s.queue[1..] == [];
    assert s.delivered + {h} == {h} && |{h}| == 1;
  }

  /**
    The schedule reaches a request that fails. A peer leaves with its block queued; the next one in
    its slot is asked for sixteen, that block among them; the late block is taken for the new peer's.
    The slot then owes fifteen and lists sixteen, and one more is one too many.
   */
  lemma StaleTableTrips(h: Hash, hashes: seq<Hash>, more: Hash)
    requires Distinct(hashes) && |hashes| == MAX_BLOCKS_IN_FLIGHT && h in hashes && more !in hashes
    ensures var trace := StaleTrace(h, hashes);
            && IsRun(trace, StaleOps(h, hashes))
            && Legal(trace[10], Ask(0, [more])) && Step(trace[10], Ask(0, [more])) == None
  {
    hide Step, LateTrace;
    var (trace, ops) := (StaleTrace(h, hashes), StaleOps(h, hashes));
    forall k | 0 <= k < 10 ensures Legal(trace[k], ops[k]) && Step(trace[k], ops[k]) == Some(trace[k + 1]) {
      StaleStep(h, hashes, k);
    }
    StaleStarts(h, hashes);
    EveryRunIsSane(trace, ops, 10);
    FifteenOwed(h, hashes);
    RequestFailsIff(trace[10], 0, [more]);
    StepIsAsked(trace[10], 0, [more]);
  }

  lemma StaleStarts(h: Hash, hashes: seq<Hash>)
    ensures StaleTrace(h, hashes)[0] == Start()
  {
  }

  lemma StepIsAsked(s: State, slot: nat, hashes: seq<Hash>)
    requires Legal(s, Ask(slot, hashes))
    ensures Step(s, Ask(slot, hashes)) == Asked(s, slot, hashes)
  {
  }

  lemma FifteenOwed(h: Hash, hashes: seq<Hash>)
    requires Distinct(hashes) && |hashes| == MAX_BLOCKS_IN_FLIGHT && h in hashes
    ensures |Owed(OwedBy(hashes, 0) - {h}, 0)| == MAX_BLOCKS_IN_FLIGHT - 1
  {
    SetOfDistinct(hashes);
    assert Owed(OwedBy(hashes, 0) - {h}, 0) == (set x | x in hashes) - {h};
  }
}
