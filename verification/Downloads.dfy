/**
  The schedule and the per-peer request table in their own form, each method proved against the
  transition system of `Schedule`, with the blocks to ask for coming from the window walk.
 */
module Downloads {
  import opened Bytes
  import opened Arena
  import opened HeaderTrees
  import TS = TreeState
  import S = Schedule
  import W = Window

  /** What one peer was asked for and has not given yet, oldest first. */
  class Requests {
    var outstanding: seq<Hash>
    const max: nat

    constructor (max: nat)
      requires 0 < max <= S.MAX_BLOCKS_IN_FLIGHT
      ensures this.max == max && outstanding == []
    {
      this.max := max;
      outstanding := [];
    }

    method Record(hash: Hash) returns (recorded: bool)
      modifies this
      ensures recorded <==> |old(outstanding)| < max && hash !in old(outstanding)
      ensures outstanding == old(outstanding) + if recorded then [hash] else []
    {
      if |outstanding| >= max {
        return false;
      }
      if hash in outstanding {
        return false;
      }
      outstanding := outstanding + [hash];
      return true;
    }

    /** Take the request a block answers; a block nobody asked for changes nothing. */
    method Take(hash: Hash) returns (taken: bool)
      modifies this
      ensures taken <==> hash in old(outstanding)
      ensures outstanding == S.Without(old(outstanding), hash)
    {
      var at: nat := 0;
      while at < |outstanding| && outstanding[at] != hash
        invariant at <= |outstanding| && forall j :: 0 <= j < at ==> outstanding[j] != hash
      {
        at := at + 1;
      }
      FirstWithout(outstanding, hash, at);
      if at == |outstanding| {
        return false;
      }
      outstanding := outstanding[..at] + outstanding[at + 1..];
      return true;
    }

    method Clear() returns (givenUp: nat)
      modifies this
      ensures outstanding == [] && givenUp == |old(outstanding)|
    {
      givenUp := |outstanding|;
      outstanding := [];
    }
  }

  lemma {:induction false} FirstWithout(t: seq<Hash>, h: Hash, at: nat)
    requires at <= |t| && (forall j :: 0 <= j < at ==> t[j] != h) && (at < |t| ==> t[at] == h)
    ensures S.Without(t, h) == if at < |t| then t[..at] + t[at + 1..] else t
    decreases |t|
  {
    if |t| > 0 && at > 0 {
      FirstWithout(t[1..], h, at - 1);
      HeadAndTail(t);
      if at < |t| {
        assert t[1..][..at - 1] == t[1..at] && t[1..][at..] == t[at + 1..];
        assert [t[0]] + t[1..at] == t[..at];
      }
    }
  }

  datatype Row = Row(since: Option<nat>, bestKnown: Option<nat>, lastCommon: Option<nat>)

  /** A connection in a slot: when it was made, its table, and whether it may be asked for blocks. */
  datatype Connection = Connection(since: nat, requests: Requests, mayAsk: bool, limited: bool)

  type Slots = seq<Option<Connection>>

  ghost predicate Apart(slots: Slots) {
    forall i, j :: 0 <= i < j < |slots| && slots[i].Some? && slots[j].Some? ==>
      slots[i].value.requests != slots[j].value.requests
  }

  function SinceOf(slot: Option<Connection>): Option<nat> {
    if slot.Some? then Some(slot.value.since) else None
  }

  ghost function TablesOf(slots: Slots): (tables: set<Requests>) {
    set i | 0 <= i < |slots| && slots[i].Some? :: slots[i].value.requests
  }

  ghost function TableAt(slots: Slots, i: nat): seq<Hash>
    requires i < |slots|
    reads TablesOf(slots)
  {
    if slots[i].Some? then slots[i].value.requests.outstanding else []
  }

  class Scheduler {
    var inFlight: map<Hash, nat>
    var delivered: set<Hash>
    var rows: seq<Row>
    /** The slots that are marked as stalling; since when is left out. */
    var stalling: set<nat>

    constructor ()
      ensures inFlight == map[] && delivered == {} && rows == seq(S.PEER_SLOTS, _ => Row(None, None, None))
      ensures stalling == {}
    {
      inFlight, delivered, stalling := map[], {}, {};
      rows := seq(S.PEER_SLOTS, _ => Row(None, None, None));
    }

    /** The books of both threads together. */
    ghost function View(slots: Slots, queue: seq<S.Message>): S.State
      reads this, TablesOf(slots)
    {
      S.State(inFlight, delivered,
              seq(|rows|, i requires 0 <= i < |rows| reads this => rows[i].since),
              seq(|slots|, i requires 0 <= i < |slots| => SinceOf(slots[i])),
              seq(|slots|, i requires 0 <= i < |slots| reads TablesOf(slots) => TableAt(slots, i)),
              queue)
    }

    /** A scan of everything in flight. */
    method InFlightFor(slot: nat) returns (n: nat)
      ensures n == |S.Owed(inFlight, slot)|
    {
      n := 0;
      var left := inFlight.Keys;
      assert S.Owed(inFlight, slot) - left == {};
      while left != {}
        invariant left <= inFlight.Keys && n == |S.Owed(inFlight, slot) - left|
        decreases |left|
      {
        var h :| h in left;
        var fewer := left - {h};
        if inFlight[h] == slot {
          assert S.Owed(inFlight, slot) - fewer == (S.Owed(inFlight, slot) - left) + {h};
          n := n + 1;
        } else {
          assert S.Owed(inFlight, slot) - fewer == S.Owed(inFlight, slot) - left;
        }
        left := fewer;
      }
      assert S.Owed(inFlight, slot) - {} == S.Owed(inFlight, slot);
    }

    /** Reset a row, and take back the blocks its peer was owing. */
    method Forget(slot: nat, since: Option<nat>)
      requires slot < |rows|
      modifies this
      ensures rows == old(rows)[slot := Row(since, None, None)] && delivered == old(delivered)
      ensures inFlight == S.Forgotten(old(inFlight), slot) && stalling == old(stalling) - {slot}
    {
      stalling := stalling - {slot};
      rows := rows[slot := Row(since, None, None)];
      inFlight := map h | h in inFlight && inFlight[h] != slot :: inFlight[h];
    }

    /** Bring one row up to date: the books change as the matching step says, and no other row does. */
    method MatchRow(slot: nat, slots: Slots, ghost queue: seq<S.Message>)
      requires slot < |rows| == |slots|
      modifies this
      ensures View(slots, queue) == S.Matched(old(View(slots, queue)), slot)
      ensures |rows| == |old(rows)| && forall i :: 0 <= i < |rows| && i != slot ==> rows[i] == old(rows)[i]
      ensures rows[slot] == old(rows)[slot] || rows[slot] == Row(SinceOf(slots[slot]), None, None)
      ensures rows[slot].since == SinceOf(slots[slot]) && delivered == old(delivered)
      ensures stalling == if old(rows)[slot].since == SinceOf(slots[slot]) then old(stalling) else old(stalling) - {slot}
    {
      if rows[slot].since != SinceOf(slots[slot]) {
        Forget(slot, SinceOf(slots[slot]));
      }
    }

    /** Match every row against its slot: afterwards each row is about the connection in it. */
    method Reconcile(slots: Slots, ghost queue: seq<S.Message>)
      requires |rows| == |slots| == S.PEER_SLOTS && S.Inv(View(slots, queue))
      modifies this
      ensures S.Inv(View(slots, queue)) && |rows| == S.PEER_SLOTS && delivered == old(delivered)
      ensures forall i :: 0 <= i < |rows| ==> rows[i].since == SinceOf(slots[i])
      ensures forall i :: 0 <= i < |rows| ==>
                rows[i] == old(rows)[i] || rows[i] == Row(SinceOf(slots[i]), None, None)
    {
      hide S.Bounds, S.Tables, S.Queued;
      for slot := 0 to S.PEER_SLOTS
        invariant |rows| == S.PEER_SLOTS && S.Inv(View(slots, queue)) && delivered == old(delivered)
        invariant forall i :: 0 <= i < slot ==>
                    rows[i].since == SinceOf(slots[i])
                    && (rows[i] == old(rows)[i] || rows[i] == Row(SinceOf(slots[i]), None, None))
        invariant forall i :: slot <= i < |rows| ==> rows[i] == old(rows)[i]
      {
        S.MatchedKeeps(View(slots, queue), slot);
        MatchRow(slot, slots, queue);
      }
    }

    /**
      Ask one peer for blocks: each goes into its table and into the in-flight map. False where the
      table refuses one, which the source asserts it does not.
     */
    method Request(slot: nat, requests: Requests, hashes: seq<Hash>) returns (ok: bool)
      requires slot < S.PEER_SLOTS && 0 < |hashes| <= S.MAX_BLOCKS_IN_FLIGHT && S.Distinct(hashes)
      requires |requests.outstanding| <= requests.max == S.MAX_BLOCKS_IN_FLIGHT
      requires forall h :: h in hashes ==> h !in inFlight
      modifies this, requests
      ensures ok <==> |old(requests.outstanding)| + |hashes| <= S.MAX_BLOCKS_IN_FLIGHT
                      && forall h :: h in hashes ==> h !in old(requests.outstanding)
      ensures ok ==> inFlight == old(inFlight) + S.OwedBy(hashes, slot)
      ensures ok ==> requests.outstanding == old(requests.outstanding) + hashes
      ensures delivered == old(delivered) && rows == old(rows) && stalling == old(stalling)
    {
      hide S.OwedBy, S.Distinct;
      NothingOwed(inFlight, hashes, slot);
      for i := 0 to |hashes|
        invariant inFlight == old(inFlight) + S.OwedBy(hashes[..i], slot)
        invariant requests.outstanding == old(requests.outstanding) + hashes[..i]
        invariant |requests.outstanding| <= S.MAX_BLOCKS_IN_FLIGHT
        invariant forall j :: 0 <= j < i ==> hashes[j] !in old(requests.outstanding)
        invariant delivered == old(delivered) && rows == old(rows) && stalling == old(stalling)
      {
        OneMoreOwed(old(inFlight), hashes, slot, i);
        Associates(old(requests.outstanding), hashes[..i], [hashes[i]]);
        var recorded := requests.Record(hashes[i]);
        if !recorded {
          assert hashes[i] in hashes;
          return false;
        }
        assert hashes[i] !in inFlight;
        inFlight := inFlight[hashes[i] := slot];
      }
      assert hashes[..|hashes|] == hashes;
      ok := true;
    }

    /** A block has come off the queue; false where an assertion fails. */
    method BlockReceived(slots: Slots, ghost queue: seq<S.Message>, message: S.Message) returns (ok: bool)
      requires |rows| == |slots| == S.PEER_SLOTS && message.slot < S.PEER_SLOTS
      requires |queue| > 0 && queue[0] == message
      modifies this
      ensures ok <==> S.Received(old(View(slots, queue))).Some?
      ensures ok ==> Some(View(slots, queue[1..])) == S.Received(old(View(slots, queue)))
      ensures ok ==> stalling == if message.hash in old(inFlight) then old(stalling) - {message.slot} else old(stalling)
    {
      ghost var before := View(slots, queue);
      if message.hash !in inFlight {
        return true;
      }
      if inFlight[message.hash] != message.slot {
        return false;
      }
      inFlight := inFlight - {message.hash};
      delivered := delivered + {message.hash};
      if |delivered| > S.MAX_DELIVERED_BLOCKS {
        return false;
      }
      stalling := stalling - {message.slot};
      assert View(slots, queue[1..])
          == before.(queue := queue[1..], inFlight := inFlight, delivered := delivered);
      MatchRow(message.slot, slots, queue[1..]);
      return true;
    }

    /** The rows name nodes of the tree. */
    predicate RowsIn(n: nat)
      reads this
    {
      |rows| == S.PEER_SLOTS
      && forall i :: 0 <= i < |rows| ==>
           && (rows[i].bestKnown.Some? ==> rows[i].bestKnown.value < n)
           && (rows[i].lastCommon.Some? ==> rows[i].lastCommon.value < n)
    }

    /**
      The next blocks for one peer, and its row with the left edge moved: of a peer whose chain is worth
      it, the lowest `want` candidates of the window above the edge, and of any other nothing.
     */
    method WalkFor(slot: nat, tree: HeaderTree, minimumWork: nat, want: nat, limited: bool)
      returns (hashes: seq<Hash>, staller: Option<nat>, row: Row)
      requires tree.Valid() && RowsIn(|tree.nodes|) && slot < |rows| && 0 < want <= S.MAX_BLOCKS_IN_FLIGHT
      ensures Walked(tree.View(), W.Books(inFlight, delivered, minimumWork), rows[slot], slot, want, limited,
                     hashes, staller, row)
      ensures |hashes| <= want && S.Distinct(hashes) && EachNew(tree.View(), inFlight, delivered, hashes)
      ensures row.lastCommon.Some? ==> row.lastCommon.value < |tree.nodes|
    {
      hide TS.Sound, W.Expected, W.CommonOf, W.NewEdge, Built, Linked, S.Distinct, Walked, EachNew;
      var books := W.Books(inFlight, delivered, minimumWork);
      var peer := new W.PeerDownload(rows[slot].bestKnown, rows[slot].lastCommon);
      var walk := W.NextBlocks(tree, books, peer, slot, want, limited);
      WalkIsFresh(tree, books, rows[slot], slot, want, limited, walk);
      hashes := seq(|walk.blocks|, k requires 0 <= k < |walk.blocks| && walk.blocks[k] < |tree.nodes| reads tree
                      => tree.nodes[walk.blocks[k]].hash);
      staller := walk.staller;
      row := Row(rows[slot].since, rows[slot].bestKnown, peer.lastCommon);
      DistinctHashes(tree.View(), walk.blocks, hashes);
      AreNew(tree.View(), inFlight, delivered, walk.blocks, hashes);
      IsWalked(tree.View(), books, rows[slot], slot, want, limited, walk, hashes, row);
      if row.bestKnown.Some? {
        EdgeInRange(tree, books, rows[slot]);
      }
    }

    /** How much room a peer has, the blocks to fill it with, and who holds it up when it owes nothing itself. */
    method Pick(slot: nat, slots: Slots, tree: HeaderTree, minimumWork: nat, ghost queue: seq<S.Message>)
      returns (hashes: seq<Hash>)
      requires tree.Valid() && RowsIn(|tree.nodes|) && slot < |slots| == S.PEER_SLOTS && slots[slot].Some?
      modifies this
      ensures View(slots, queue) == old(View(slots, queue)) && RowsIn(|tree.nodes|)
      ensures |rows| == |old(rows)| && forall i :: 0 <= i < |rows| && i != slot ==> rows[i] == old(rows)[i]
      ensures rows[slot].since == old(rows)[slot].since && old(stalling) <= stalling
      ensures Turn(tree.View(), W.Books(inFlight, delivered, minimumWork), old(rows)[slot], slot,
                   slots[slot].value.limited, old(stalling), hashes, rows[slot], stalling)
      ensures hashes == []
              || (S.Distinct(hashes) && |hashes| + |S.Owed(inFlight, slot)| <= S.MAX_BLOCKS_IN_FLIGHT)
      ensures EachNew(tree.View(), inFlight, delivered, hashes)
    {
      hide TS.Sound, TS.Shaped, Built, Linked, S.Owed, S.Distinct, Walked, EachNew, Turn;
      NothingIsNew(tree.View(), inFlight, delivered);
      hashes := [];
      var outstanding := InFlightFor(slot);
      if outstanding < S.MAX_BLOCKS_IN_FLIGHT {
        var row, staller;
        hashes, staller, row := WalkFor(slot, tree, minimumWork, S.MAX_BLOCKS_IN_FLIGHT - outstanding,
                                        slots[slot].value.limited);
        WalkedSays(tree.View(), W.Books(inFlight, delivered, minimumWork), rows[slot], slot,
                   S.MAX_BLOCKS_IN_FLIGHT - outstanding, slots[slot].value.limited, hashes, staller, row);
        rows := rows[slot := row];
        if staller.Some? && outstanding == 0 {
          stalling := stalling + {staller.value};
        }
        IsTurn(tree.View(), W.Books(inFlight, delivered, minimumWork), old(rows)[slot], slot,
               slots[slot].value.limited, old(stalling), hashes, staller, row, stalling);
      } else {
        NoTurn(tree.View(), W.Books(inFlight, delivered, minimumWork), rows[slot], slot,
               slots[slot].value.limited, stalling);
      }
    }

    /** One turn of the loop over the slots: one legal request, and false where an assertion of it fails. */
    method AskOne(slot: nat, slots: Slots, tree: HeaderTree, minimumWork: nat, ghost queue: seq<S.Message>)
      returns (hashes: seq<Hash>, ok: bool)
      requires tree.Valid() && RowsIn(|tree.nodes|) && slot < |slots| == S.PEER_SLOTS && Apart(slots)
      requires S.Sane(View(slots, queue)) && |delivered| < S.MAX_UNSTORED_BLOCKS
      requires slots[slot].Some? && rows[slot].since == SinceOf(slots[slot])
      requires slots[slot].value.requests.max == S.MAX_BLOCKS_IN_FLIGHT
      modifies this, slots[slot].value.requests
      ensures |rows| == |old(rows)| && forall i :: 0 <= i < |rows| && i != slot ==> rows[i] == old(rows)[i]
      ensures rows[slot].since == old(rows)[slot].since && old(stalling) <= stalling
      ensures Turn(tree.View(), W.Books(old(inFlight), delivered, minimumWork), old(rows)[slot], slot,
                   slots[slot].value.limited, old(stalling), hashes, rows[slot], stalling)
      ensures S.Distinct(hashes) && EachNew(tree.View(), old(inFlight), delivered, hashes)
      ensures S.Legal(old(View(slots, queue)), S.Ask(slot, hashes))
      ensures ok <==> S.Asked(old(View(slots, queue)), slot, hashes).Some?
      ensures ok ==> Some(View(slots, queue)) == S.Asked(old(View(slots, queue)), slot, hashes)
      ensures ok ==> inFlight == old(inFlight) + S.OwedBy(hashes, slot)
      ensures RowsIn(|tree.nodes|) && delivered == old(delivered)
      ensures ok ==> View(slots, queue).rows == old(View(slots, queue)).rows
    {
      hide TS.Sound, Built, S.Sane, S.Asked, S.Owed, S.OwedBy, S.Distinct, S.Legal, Turn, EachNew;
      ghost var before := View(slots, queue);
      hashes := Pick(slot, slots, tree, minimumWork, queue);
      EachIsNew(tree.View(), inFlight, delivered, hashes);
      AskGoesThroughIff(before, slot, hashes);
      NoHashes(inFlight, slot);
      ok := true;
      if hashes != [] {
        ok := Request(slot, slots[slot].value.requests, hashes);
        if ok {
          assert View(slots, queue).rows == before.rows;
          TableGrows(slots, slot, before, hashes, View(slots, queue));
          assert View(slots, queue) == S.Asked(before, slot, hashes).value;
        }
      }
    }

    /**
      One pass over the slots, skipped once a window of blocks waits to be stored; false where an
      assertion fails. Otherwise every peer that may be asked ends up owing sixteen blocks, or with
      nothing left to ask it for in its window, and no other peer is asked. From books that agree no
      assertion fails, whatever is queued; and the queue is still in order afterwards exactly when no
      block that waits in it was asked for.
     */
    method AskForBlocks(slots: Slots, tree: HeaderTree, minimumWork: nat, ghost queue: seq<S.Message>)
      returns (ok: bool)
      requires tree.Valid() && RowsIn(|tree.nodes|) && |slots| == S.PEER_SLOTS && Apart(slots)
      requires S.Sane(View(slots, queue))
      requires forall i :: 0 <= i < |slots| ==>
                 && rows[i].since == SinceOf(slots[i])
                 && (slots[i].Some? ==> slots[i].value.requests.max == S.MAX_BLOCKS_IN_FLIGHT)
      modifies this, TablesOf(slots)
      ensures RowsIn(|tree.nodes|) && delivered == old(delivered) && old(stalling) <= stalling
      ensures ok ==> S.Sane(View(slots, queue)) && S.Added(old(View(slots, queue)), View(slots, queue))
      ensures ok ==> forall i :: 0 <= i < |slots| ==> rows[i].since == SinceOf(slots[i])
      ensures ok && |delivered| < S.MAX_UNSTORED_BLOCKS ==>
                forall i :: 0 <= i < |slots| && MayAsk(slots[i]) ==>
                  Served(tree.View(), inFlight, delivered, minimumWork, old(rows)[i], slots[i].value.limited, i)
      ensures ok ==> forall i :: 0 <= i < |slots| && !MayAsk(slots[i]) ==>
                rows[i] == old(rows)[i] && S.Owed(inFlight, i) == S.Owed(old(inFlight), i)
      ensures S.Books(old(View(slots, queue))) ==> ok && S.Books(View(slots, queue))
      ensures S.Inv(old(View(slots, queue))) ==>
                (S.Inv(View(slots, queue)) <==>
                 forall k :: 0 <= k < |queue| && queue[k].hash in inFlight ==> queue[k].hash in old(inFlight))
      ensures |old(delivered)| >= S.MAX_UNSTORED_BLOCKS ==>
                ok && View(slots, queue) == old(View(slots, queue)) && rows == old(rows) && stalling == old(stalling)
    {
      hide S.Books, S.Sane, S.Inv, TS.Sound, Built, Linked, S.Asked, S.Legal, S.Added, Served, Turn, EachNew, S.Owed,
        S.OwedBy, S.Distinct;
      ghost var before := View(slots, queue);
      NothingAdded(before);
      if |delivered| < S.MAX_UNSTORED_BLOCKS {
        for slot := 0 to S.PEER_SLOTS
          invariant tree.Valid() && RowsIn(|tree.nodes|) && delivered == old(delivered) && old(stalling) <= stalling
          invariant S.Sane(View(slots, queue)) && S.Added(before, View(slots, queue))
          invariant S.Books(before) ==> S.Books(View(slots, queue))
          invariant forall i :: 0 <= i < |slots| ==> rows[i].since == SinceOf(slots[i])
          invariant forall i :: 0 <= i < |slots| && (slot <= i || !MayAsk(slots[i])) ==>
                      rows[i] == old(rows)[i] && S.Owed(inFlight, i) == S.Owed(old(inFlight), i)
          invariant forall i :: 0 <= i < slot && MayAsk(slots[i]) ==>
                      Served(tree.View(), inFlight, delivered, minimumWork, old(rows)[i], slots[i].value.limited, i)
        {
          if MayAsk(slots[slot]) {
            ghost var was := View(slots, queue);
            assert forall i :: 0 <= i < |slots| ==> was.rows[i] == SinceOf(slots[i]);
            ghost var marked := stalling;
            var asked;
            asked, ok := AskOne(slot, slots, tree, minimumWork, queue);
            ghost var agree := S.Books(was);
            if agree {
              S.AskKeeps(was, slot, asked);
            }
            if !ok {
              InvHasBooks(before);
              return;
            }
            S.AskedIsSane(was, slot, asked);
            S.AddedOnce(before, was, slot, asked);
            AllServed(tree.View(), was.inFlight, delivered, minimumWork, old(rows), slots, slot, marked, asked,
                      rows[slot], stalling);
          }
        }
      }
      ok := true;
      InvHasBooks(before);
      if S.Inv(before) {
        S.AddedKeepsQueueIff(before, View(slots, queue));
      }
    }
  }

  predicate MayAsk(slot: Option<Connection>) { slot.Some? && slot.value.mayAsk }

  // ----- what one turn asks for -------------------------------------------------------------------

  /** The peer's best chain has at least the work of the active one, and the work every chain needs. */
  ghost predicate Worth(s: TS.State, minimumWork: nat, row: Row) {
    && row.bestKnown.Some? && row.bestKnown.value < |s.nodes| && s.tip < |s.nodes|
    && s.nodes[row.bestKnown.value].chainwork >= s.nodes[s.tip].chainwork
    && s.nodes[row.bestKnown.value].chainwork >= minimumWork
  }

  ghost function HashesOf(s: TS.State, blocks: seq<nat>): seq<Hash>
    requires forall k :: 0 <= k < |blocks| ==> blocks[k] < |s.nodes|
  {
    seq(|blocks|, k requires 0 <= k < |blocks| => s.nodes[blocks[k]].hash)
  }

  /** Each hash is that of an accepted header whose block is nowhere yet. */
  ghost predicate EachNew(s: TS.State, inFlight: map<Hash, nat>, delivered: set<Hash>, hashes: seq<Hash>) {
    forall k :: 0 <= k < |hashes| ==>
      && hashes[k] !in inFlight && hashes[k] !in delivered
      && hashes[k] in s.index && s.index[hashes[k]] < |s.status| && s.status[s.index[hashes[k]]] == TS.HeaderAccepted
  }

  lemma AreNew(s: TS.State, inFlight: map<Hash, nat>, delivered: set<Hash>, blocks: seq<nat>, hashes: seq<Hash>)
    requires |hashes| == |blocks| && forall k :: 0 <= k < |hashes| ==>
               && blocks[k] < |s.status| && hashes[k] in s.index && s.index[hashes[k]] == blocks[k]
               && hashes[k] !in inFlight && hashes[k] !in delivered && s.status[blocks[k]] == TS.HeaderAccepted
    ensures EachNew(s, inFlight, delivered, hashes)
  {
  }

  lemma NothingIsNew(s: TS.State, inFlight: map<Hash, nat>, delivered: set<Hash>)
    ensures EachNew(s, inFlight, delivered, [])
  {
  }

  lemma EachIsNew(s: TS.State, inFlight: map<Hash, nat>, delivered: set<Hash>, hashes: seq<Hash>)
    requires EachNew(s, inFlight, delivered, hashes)
    ensures forall k :: 0 <= k < |hashes| ==> hashes[k] !in inFlight && hashes[k] !in delivered
  {
  }

  lemma NoHashes(inFlight: map<Hash, nat>, slot: nat)
    ensures inFlight + S.OwedBy([], slot) == inFlight && S.Distinct([])
  {
  }

  /** The left edge of the window a row's walk starts from. */
  ghost function EdgeOf(s: TS.State, row: Row): (edge: nat)
    requires TS.Shaped(s) && row.bestKnown.Some? && row.bestKnown.value < |s.nodes|
    requires row.lastCommon.Some? ==> row.lastCommon.value < |s.nodes|
    ensures edge < |s.nodes| && OnPath(s.nodes, edge, row.bestKnown.value)
  {
    W.CommonOf(s, row.lastCommon, row.bestKnown.value)
  }

  /** The candidates of a row's window, lowest first. */
  ghost function Offers(s: TS.State, books: W.Books, row: Row, limited: bool): (blocks: seq<nat>)
    requires TS.Shaped(s) && row.bestKnown.Some? && row.bestKnown.value < |s.nodes|
    requires row.lastCommon.Some? ==> row.lastCommon.value < |s.nodes|
  {
    var (best, edge) := (row.bestKnown.value, EdgeOf(s, row));
    W.Candidates(s, books, best, limited, s.nodes[edge].height + 1, W.LastHeight(s, best, edge))
  }

  lemma OffersAreNodes(s: TS.State, books: W.Books, row: Row, limited: bool)
    requires TS.Shaped(s) && row.bestKnown.Some? && row.bestKnown.value < |s.nodes|
    requires row.lastCommon.Some? ==> row.lastCommon.value < |s.nodes|
    ensures forall k :: 0 <= k < |Offers(s, books, row, limited)| ==> Offers(s, books, row, limited)[k] < |s.nodes|
  {
    hide TS.Shaped, W.Candidates, W.CommonOf;
    var (best, edge) := (row.bestKnown.value, EdgeOf(s, row));
    var (first, last) := (s.nodes[edge].height + 1, W.LastHeight(s, best, edge));
    W.CandidatesClimb(s, books, best, limited, first, last);
    W.AllAtLeast(s.nodes, Offers(s, books, row, limited), first, last);
  }

  /** The peer that holds this one up: nothing to ask for, and the lowest block in flight is another's. */
  ghost function HeldUpBy(s: TS.State, books: W.Books, row: Row, slot: nat, want: nat, limited: bool): Option<nat> {
    if TS.Shaped(s) && Worth(s, books.minimumWork, row) && (row.lastCommon.Some? ==> row.lastCommon.value < |s.nodes|)
    then W.Expected(s, books, row.bestKnown.value, slot, want, limited, EdgeOf(s, row)).staller else None
  }

  /** What a walk with this much room comes to. */
  ghost predicate Walked(s: TS.State, books: W.Books, before: Row, slot: nat, want: nat, limited: bool,
                         hashes: seq<Hash>, staller: Option<nat>, after: Row)
  {
    && TS.Shaped(s) && (before.bestKnown.Some? ==> before.bestKnown.value < |s.nodes|)
    && (before.lastCommon.Some? ==> before.lastCommon.value < |s.nodes|)
    && staller == HeldUpBy(s, books, before, slot, want, limited)
    && if Worth(s, books.minimumWork, before) then
         var (best, edge, offers) := (before.bestKnown.value, EdgeOf(s, before), Offers(s, books, before, limited));
         && (forall k :: 0 <= k < |offers| ==> offers[k] < |s.nodes|)
         && hashes == HashesOf(s, Take(offers, want))
         && after == before.(lastCommon := Some(W.NewEdge(s, books, best, edge)))
       else hashes == [] && after == before
  }

  lemma IsWalked(s: TS.State, books: W.Books, before: Row, slot: nat, want: nat, limited: bool, walk: W.Walk,
                 hashes: seq<Hash>, after: Row)
    requires TS.Shaped(s) && (before.bestKnown.Some? ==> before.bestKnown.value < |s.nodes|)
    requires before.lastCommon.Some? ==> before.lastCommon.value < |s.nodes|
    requires after.since == before.since && after.bestKnown == before.bestKnown
    requires if Worth(s, books.minimumWork, before) then
               && walk == W.Expected(s, books, before.bestKnown.value, slot, want, limited, EdgeOf(s, before))
               && after.lastCommon == Some(W.NewEdge(s, books, before.bestKnown.value, EdgeOf(s, before)))
             else walk == W.Walk([], None) && after.lastCommon == before.lastCommon
    requires |hashes| == |walk.blocks|
    requires forall k :: 0 <= k < |hashes| ==> walk.blocks[k] < |s.nodes| && hashes[k] == s.nodes[walk.blocks[k]].hash
    ensures Walked(s, books, before, slot, want, limited, hashes, walk.staller, after)
  {
    hide TS.Shaped, W.Candidates, W.CommonOf, W.FirstOwing, W.Refused, W.NewEdge;
    if Worth(s, books.minimumWork, before) {
      OffersAreNodes(s, books, before, limited);
      assert walk.blocks == Take(Offers(s, books, before, limited), want);
    }
  }

  lemma WalkedSays(s: TS.State, books: W.Books, before: Row, slot: nat, want: nat, limited: bool,
                   hashes: seq<Hash>, staller: Option<nat>, after: Row)
    requires Walked(s, books, before, slot, want, limited, hashes, staller, after)
    ensures after.since == before.since && after.bestKnown == before.bestKnown
  {
  }

  lemma WalkedHashes(s: TS.State, books: W.Books, before: Row, slot: nat, want: nat, limited: bool,
                     hashes: seq<Hash>, staller: Option<nat>, after: Row)
    requires Walked(s, books, before, slot, want, limited, hashes, staller, after) && Worth(s, books.minimumWork, before)
    ensures var offers := Offers(s, books, before, limited);
            && |hashes| == (if want < |offers| then want else |offers|)
            && forall k :: 0 <= k < |hashes| ==> offers[k] < |s.nodes| && hashes[k] == s.nodes[offers[k]].hash
  {
    hide W.Expected, W.NewEdge, Offers, EdgeOf, Linked;
  }

  /**
    One peer's turn: nothing at sixteen; below it, the walk with the room that is left, and a mark for
    the peer that holds this one up if it owes nothing itself.
   */
  ghost predicate Turn(s: TS.State, books: W.Books, before: Row, slot: nat, limited: bool, marked: set<nat>,
                       hashes: seq<Hash>, after: Row, marks: set<nat>)
  {
    var owed := |S.Owed(books.inFlight, slot)|;
    if owed >= S.MAX_BLOCKS_IN_FLIGHT then hashes == [] && after == before && marks == marked
    else
      var want := S.MAX_BLOCKS_IN_FLIGHT - owed;
      var staller := HeldUpBy(s, books, before, slot, want, limited);
      && Walked(s, books, before, slot, want, limited, hashes, staller, after)
      && marks == if staller.Some? && owed == 0 then marked + {staller.value} else marked
  }

  lemma IsTurn(s: TS.State, books: W.Books, before: Row, slot: nat, limited: bool, marked: set<nat>,
               hashes: seq<Hash>, staller: Option<nat>, after: Row, marks: set<nat>)
    requires var owed := |S.Owed(books.inFlight, slot)|;
             && owed < S.MAX_BLOCKS_IN_FLIGHT
             && Walked(s, books, before, slot, S.MAX_BLOCKS_IN_FLIGHT - owed, limited, hashes, staller, after)
             && marks == if staller.Some? && owed == 0 then marked + {staller.value} else marked
    ensures Turn(s, books, before, slot, limited, marked, hashes, after, marks)
  {
    hide S.Owed, HeldUpBy, Offers, EdgeOf, W.NewEdge, Linked;
  }

  lemma NoTurn(s: TS.State, books: W.Books, row: Row, slot: nat, limited: bool, marked: set<nat>)
    requires |S.Owed(books.inFlight, slot)| >= S.MAX_BLOCKS_IN_FLIGHT
    ensures Turn(s, books, row, slot, limited, marked, [], row, marked)
  {
    hide Walked, S.Owed;
  }

  // ----- what a pass leaves to ask for ------------------------------------------------------------

  /**
    A block at this height of the peer's best chain that it should be asked for: an accepted header,
    its block neither here nor in flight, recent enough for a peer that keeps only the recent ones, and
    no refused block between the edge and it.
   */
  ghost predicate Missing(s: TS.State, inFlight: map<Hash, nat>, delivered: set<Hash>, best: nat, edge: nat,
                          limited: bool, x: nat)
    requires TS.Shaped(s) && best < |s.nodes| && edge < |s.nodes| && x <= s.nodes[best].height
  {
    var n := AncestorAt(s.nodes, best, x);
    && s.status[n] == TS.HeaderAccepted && s.nodes[n].hash !in inFlight && s.nodes[n].hash !in delivered
    && (limited ==> x + 286 >= s.nodes[best].height)
    && forall y :: s.nodes[edge].height < y <= x ==> !s.status[AncestorAt(s.nodes, best, y)].IsTerminal()
  }

  /** The peer owes sixteen blocks, or is not worth asking, or misses none of the 1024 above its edge. */
  ghost predicate Served(s: TS.State, inFlight: map<Hash, nat>, delivered: set<Hash>, minimumWork: nat, row: Row,
                         limited: bool, slot: nat)
  {
    && TS.Shaped(s) && (row.bestKnown.Some? ==> row.bestKnown.value < |s.nodes|)
    && (row.lastCommon.Some? ==> row.lastCommon.value < |s.nodes|)
    && (Worth(s, minimumWork, row) && |S.Owed(inFlight, slot)| < S.MAX_BLOCKS_IN_FLIGHT ==>
          var (best, edge) := (row.bestKnown.value, EdgeOf(s, row));
          forall x {:trigger AncestorAt(s.nodes, best, x)} ::
            s.nodes[edge].height < x <= s.nodes[edge].height + 1024 && x <= s.nodes[best].height ==>
              !Missing(s, inFlight, delivered, best, edge, limited, x))
  }

  /** No offer lies outside the window of 1024 above the edge, off the peer's chain, or too deep for the peer. */
  lemma OffersAreInWindow(s: TS.State, books: W.Books, row: Row, limited: bool, k: nat)
    requires TS.Shaped(s) && row.bestKnown.Some? && row.bestKnown.value < |s.nodes|
    requires row.lastCommon.Some? ==> row.lastCommon.value < |s.nodes|
    requires k < |Offers(s, books, row, limited)|
    ensures var (n, best, edge) := (Offers(s, books, row, limited)[k], row.bestKnown.value, EdgeOf(s, row));
            && n < |s.nodes| && OnPath(s.nodes, n, best)
            && s.nodes[edge].height < s.nodes[n].height <= s.nodes[edge].height + 1024
            && (limited ==> s.nodes[n].height + 286 >= s.nodes[best].height)
  {
    hide W.Candidates, W.CommonOf, Linked, OnPath, W.Wanted;
    var (best, edge) := (row.bestKnown.value, EdgeOf(s, row));
    CandidatesOnPath(s, books, best, limited, s.nodes[edge].height + 1, W.LastHeight(s, best, edge), k);
  }

  lemma {:induction false} CandidatesOnPath(
    s: TS.State, books: W.Books, best: nat, limited: bool, h: nat, last: nat, k: nat)
    requires TS.Shaped(s) && best < |s.nodes| && last <= s.nodes[best].height
    requires k < |W.Candidates(s, books, best, limited, h, last)|
    ensures var n := W.Candidates(s, books, best, limited, h, last)[k];
            && n < |s.nodes| && OnPath(s.nodes, n, best) && h <= s.nodes[n].height <= last
            && (limited ==> s.nodes[n].height + 286 >= s.nodes[best].height)
    decreases last + 1 - h
  {
    hide Linked;
    var (n, rest) := (W.BlockAt(s, best, h), W.Candidates(s, books, best, limited, h + 1, last));
    OnPathOfAncestor(s.nodes, best, h);
    if W.Wanted(s, books, best, limited, n) {
      if k > 0 {
        CandidatesOnPath(s, books, best, limited, h + 1, last, k - 1);
        assert ([n] + rest)[k] == rest[k - 1];
      }
    } else {
      assert [] + rest == rest;
      CandidatesOnPath(s, books, best, limited, h + 1, last, k);
    }
  }

  /** A missing block is among the offers. */
  lemma MissingIsOffered(s: TS.State, books: W.Books, row: Row, limited: bool, x: nat)
    requires TS.Shaped(s) && row.bestKnown.Some? && row.bestKnown.value < |s.nodes|
    requires row.lastCommon.Some? ==> row.lastCommon.value < |s.nodes|
    requires var edge := EdgeOf(s, row);
             && s.nodes[edge].height < x <= s.nodes[edge].height + 1024 && x <= s.nodes[row.bestKnown.value].height
             && Missing(s, books.inFlight, books.delivered, row.bestKnown.value, edge, limited, x)
    ensures AncestorAt(s.nodes, row.bestKnown.value, x) in Offers(s, books, row, limited)
  {
    hide W.Candidates, W.CommonOf, Linked;
    var (best, edge) := (row.bestKnown.value, EdgeOf(s, row));
    assert W.BlockAt(s, best, x) == AncestorAt(s.nodes, best, x);
    W.RefusedMeans(s, best, s.nodes[edge].height + 1, x);
    W.CandidatesAre(s, books, best, limited, s.nodes[edge].height + 1, W.LastHeight(s, best, edge), x);
  }

  lemma OwedGrows(inFlight: map<Hash, nat>, hashes: seq<Hash>, slot: nat, other: nat)
    requires S.Distinct(hashes) && forall k :: 0 <= k < |hashes| ==> hashes[k] !in inFlight
    ensures var more := inFlight + S.OwedBy(hashes, slot);
            && S.Owed(inFlight, other) <= S.Owed(more, other)
            && (other != slot ==> S.Owed(more, other) == S.Owed(inFlight, other))
            && |S.Owed(more, slot)| == |S.Owed(inFlight, slot)| + |hashes|
  {
    var added := set h | h in hashes;
    OwedIs(inFlight, hashes, slot, added);
    CountDistinct(hashes);
    hide S.Owed, S.OwedBy, S.Distinct;
    assert S.Owed(inFlight, slot) !! added;
  }

  lemma OwedIs(inFlight: map<Hash, nat>, hashes: seq<Hash>, slot: nat, added: set<Hash>)
    requires added == (set h | h in hashes) && forall k :: 0 <= k < |hashes| ==> hashes[k] !in inFlight
    ensures var more := inFlight + S.OwedBy(hashes, slot);
            && S.Owed(more, slot) == S.Owed(inFlight, slot) + added && S.Owed(inFlight, slot) !! added
            && forall other :: other != slot ==> S.Owed(more, other) == S.Owed(inFlight, other)
  {
    var more := inFlight + S.OwedBy(hashes, slot);
    forall other: nat | other != slot ensures S.Owed(more, other) == S.Owed(inFlight, other) {
      forall h ensures h in S.Owed(more, other) <==> h in S.Owed(inFlight, other) {
      }
    }
  }

  lemma {:induction false} CountDistinct(hashes: seq<Hash>)
    requires S.Distinct(hashes)
    ensures |set h | h in hashes| == |hashes|
    decreases |hashes|
  {
    if |hashes| > 0 {
      var (front, last) := (hashes[..|hashes| - 1], hashes[|hashes| - 1]);
      CountDistinct(front);
      assert hashes == front + [last] && last !in front;
      assert (set h | h in hashes) == (set h | h in front) + {last};
    }
  }

  /** A turn that goes through serves its peer. */
  lemma TurnServes(s: TS.State, books: W.Books, before: Row, slot: nat, limited: bool, marked: set<nat>,
                   hashes: seq<Hash>, after: Row, marks: set<nat>)
    requires Turn(s, books, before, slot, limited, marked, hashes, after, marks) && S.Distinct(hashes)
    requires TS.Shaped(s) && (before.bestKnown.Some? ==> before.bestKnown.value < |s.nodes|)
    requires before.lastCommon.Some? ==> before.lastCommon.value < |s.nodes|
    requires forall k :: 0 <= k < |hashes| ==> hashes[k] !in books.inFlight
    ensures Served(s, books.inFlight + S.OwedBy(hashes, slot), books.delivered, books.minimumWork, before, limited, slot)
  {
    hide S.Owed, S.OwedBy, S.Distinct, Linked, EdgeOf, Offers, Missing, Walked, HashesOf, HeldUpBy;
    var more := books.inFlight + S.OwedBy(hashes, slot);
    OwedGrows(books.inFlight, hashes, slot, slot);
    if Worth(s, books.minimumWork, before) && |S.Owed(more, slot)| < S.MAX_BLOCKS_IN_FLIGHT {
      var (best, edge, offers) := (before.bestKnown.value, EdgeOf(s, before), Offers(s, books, before, limited));
      var want := S.MAX_BLOCKS_IN_FLIGHT - |S.Owed(books.inFlight, slot)|;
      assert |S.Owed(books.inFlight, slot)| < S.MAX_BLOCKS_IN_FLIGHT;
      var staller := HeldUpBy(s, books, before, slot, want, limited);
      WalkedHashes(s, books, before, slot, want, limited, hashes, staller, after);
      forall x | s.nodes[edge].height < x <= s.nodes[edge].height + 1024 && x <= s.nodes[best].height
        ensures !Missing(s, more, books.delivered, best, edge, limited, x)
      {
        StillMissing(s, books, before, slot, hashes, limited, x);
        var n := AncestorAt(s.nodes, best, x);
        if Missing(s, more, books.delivered, best, edge, limited, x) {
          MissingIsOffered(s, books, before, limited, x);
          var k :| 0 <= k < |offers| && offers[k] == n;
          NotInFlight(s, more, books.inFlight, hashes, slot, books.delivered, best, edge, limited, x, k);
        }
      }
    }
  }

  lemma StillMissing(s: TS.State, books: W.Books, row: Row, slot: nat, hashes: seq<Hash>, limited: bool, x: nat)
    requires TS.Shaped(s) && row.bestKnown.Some? && row.bestKnown.value < |s.nodes|
    requires row.lastCommon.Some? ==> row.lastCommon.value < |s.nodes|
    requires x <= s.nodes[row.bestKnown.value].height
    ensures Missing(s, books.inFlight + S.OwedBy(hashes, slot), books.delivered, row.bestKnown.value, EdgeOf(s, row),
                    limited, x)
            ==> Missing(s, books.inFlight, books.delivered, row.bestKnown.value, EdgeOf(s, row), limited, x)
  {
    hide TS.Shaped, W.CommonOf;
  }

  lemma NotInFlight(s: TS.State, more: map<Hash, nat>, inFlight: map<Hash, nat>, hashes: seq<Hash>, slot: nat,
                    delivered: set<Hash>, best: nat, edge: nat, limited: bool, x: nat, k: nat)
    requires TS.Shaped(s) && best < |s.nodes| && edge < |s.nodes| && x <= s.nodes[best].height && k < |hashes|
    requires more == inFlight + S.OwedBy(hashes, slot) && hashes[k] == s.nodes[AncestorAt(s.nodes, best, x)].hash
    ensures !Missing(s, more, delivered, best, edge, limited, x)
  {
    hide TS.Shaped;
    assert hashes[k] in hashes;
  }

  /** More in flight leaves a served peer served. */
  lemma ServedStays(s: TS.State, inFlight: map<Hash, nat>, more: map<Hash, nat>, delivered: set<Hash>, minimumWork: nat,
                    row: Row, limited: bool, slot: nat)
    requires Served(s, inFlight, delivered, minimumWork, row, limited, slot)
    requires inFlight.Keys <= more.Keys && S.Owed(inFlight, slot) <= S.Owed(more, slot)
    ensures Served(s, more, delivered, minimumWork, row, limited, slot)
  {
    hide S.Owed, Linked, EdgeOf, Worth;
    Smaller(S.Owed(inFlight, slot), S.Owed(more, slot));
    if Worth(s, minimumWork, row) && |S.Owed(more, slot)| < S.MAX_BLOCKS_IN_FLIGHT {
      WorthHasBest(s, minimumWork, row);
      var (best, edge) := (row.bestKnown.value, EdgeOf(s, row));
      forall x | s.nodes[edge].height < x <= s.nodes[edge].height + 1024 && x <= s.nodes[best].height
        ensures !Missing(s, more, delivered, best, edge, limited, x)
      {
        var n := AncestorAt(s.nodes, best, x);
        assert !Missing(s, inFlight, delivered, best, edge, limited, x);
      }
    }
  }

  lemma WorthHasBest(s: TS.State, minimumWork: nat, row: Row)
    requires Worth(s, minimumWork, row)
    ensures row.bestKnown.Some? && row.bestKnown.value < |s.nodes|
  {
  }

  lemma Smaller(a: set<Hash>, b: set<Hash>)
    requires a <= b
    ensures |a| <= |b|
  {
    assert b == a + (b - a);
  }

  /** After one peer's turn it is served, those before it still are, and those after it are as they were. */
  lemma AllServed(s: TS.State, inFlight: map<Hash, nat>, delivered: set<Hash>, minimumWork: nat, rows: seq<Row>,
                  slots: Slots, slot: nat, marked: set<nat>, hashes: seq<Hash>, after: Row, marks: set<nat>)
    requires TS.Shaped(s) && slot < |rows| == |slots| && MayAsk(slots[slot])
    requires (rows[slot].bestKnown.Some? ==> rows[slot].bestKnown.value < |s.nodes|)
    requires (rows[slot].lastCommon.Some? ==> rows[slot].lastCommon.value < |s.nodes|)
    requires Turn(s, W.Books(inFlight, delivered, minimumWork), rows[slot], slot, slots[slot].value.limited, marked,
                  hashes, after, marks)
    requires S.Distinct(hashes) && EachNew(s, inFlight, delivered, hashes)
    requires forall i :: 0 <= i < slot && MayAsk(slots[i]) ==>
               Served(s, inFlight, delivered, minimumWork, rows[i], slots[i].value.limited, i)
    ensures var more := inFlight + S.OwedBy(hashes, slot);
            && (forall i :: 0 <= i <= slot && MayAsk(slots[i]) ==>
                  Served(s, more, delivered, minimumWork, rows[i], slots[i].value.limited, i))
            && forall i: nat :: i != slot ==> S.Owed(more, i) == S.Owed(inFlight, i)
  {
    hide S.Owed, S.OwedBy, S.Distinct, TS.Shaped, Turn, Served;
    var more := inFlight + S.OwedBy(hashes, slot);
    EachIsNew(s, inFlight, delivered, hashes);
    TurnServes(s, W.Books(inFlight, delivered, minimumWork), rows[slot], slot, slots[slot].value.limited, marked, hashes,
               after, marks);
    forall i: nat | i != slot ensures S.Owed(more, i) == S.Owed(inFlight, i) {
      OwedGrows(inFlight, hashes, slot, i);
    }
    forall i | 0 <= i < slot && MayAsk(slots[i])
      ensures Served(s, more, delivered, minimumWork, rows[i], slots[i].value.limited, i)
    {
      OwedGrows(inFlight, hashes, slot, i);
      ServedStays(s, inFlight, more, delivered, minimumWork, rows[i], slots[i].value.limited, i);
    }
  }

  // ----- the blocks a walk returns ----------------------------------------------------------------

  /** A block the window has to offer: never asked for, not here, its header good. */
  ghost predicate Askable(s: TS.State, books: W.Books, n: nat) {
    && n < |s.nodes| == |s.status| && s.nodes[n].height > 0
    && s.nodes[n].hash !in books.inFlight && s.nodes[n].hash !in books.delivered
    && s.status[n].Where().None? && !s.status[n].IsTerminal()
  }

  ghost predicate EachAskable(s: TS.State, books: W.Books, c: seq<nat>) {
    forall k :: 0 <= k < |c| ==> Askable(s, books, c[k])
  }

  lemma {:induction false} CandidatesAreAskable(
    s: TS.State, books: W.Books, best: nat, limited: bool, h: nat, last: nat)
    requires TS.Shaped(s) && best < |s.nodes| && last <= s.nodes[best].height && h > 0
    ensures EachAskable(s, books, W.Candidates(s, books, best, limited, h, last))
    decreases last + 1 - h
  {
    hide TS.Shaped, BlockIs, EachAskable;
    EachOfNothing(s, books);
    if h <= last && !s.status[BlockIs(s, best, h)].IsTerminal() {
      CandidatesAreAskable(s, books, best, limited, h + 1, last);
      var n := BlockIs(s, best, h);
      var rest := W.Candidates(s, books, best, limited, h + 1, last);
      assert W.Wanted(s, books, best, limited, n) ==> Askable(s, books, n);
      assert [] + rest == rest;
      AskableOn(s, books, n, rest);
    }
  }

  lemma EachOfNothing(s: TS.State, books: W.Books)
    ensures EachAskable(s, books, [])
  {
  }

  lemma AskableOn(s: TS.State, books: W.Books, n: nat, rest: seq<nat>)
    requires EachAskable(s, books, rest)
    ensures Askable(s, books, n) ==> EachAskable(s, books, [n] + rest)
  {
    hide Askable;
  }

  ghost function BlockIs(s: TS.State, best: nat, h: nat): (n: nat)
    requires TS.Shaped(s) && best < |s.nodes| && h <= s.nodes[best].height
    ensures n < |s.nodes| == |s.status| && n == W.BlockAt(s, best, h)
  {
    W.BlockAt(s, best, h)
  }

  lemma {:induction false} ClimbingIsDistinct(nodes: seq<Node>, c: seq<nat>, h: nat, last: nat)
    requires W.Climbs(nodes, c, h, last)
    ensures forall j, k :: 0 <= j < k < |c| ==> c[j] != c[k]
    decreases |c|
  {
    if |c| > 0 {
      var next := nodes[c[0]].height + 1;
      ClimbingIsDistinct(nodes, c[1..], next, last);
      W.AllAtLeast(nodes, c[1..], next, last);
      forall j, k | 0 <= j < k < |c| ensures c[j] != c[k] {
        assert c[k] == c[1..][k - 1];
        if j > 0 {
          assert c[j] == c[1..][j - 1];
        }
      }
    }
  }

  ghost predicate AllAskable(s: TS.State, books: W.Books, c: seq<nat>) {
    && EachAskable(s, books, c)
    && (forall j, k :: 0 <= j < k < |c| ==> c[j] != c[k])
  }

  lemma ExpectedIsAskable(
    s: TS.State, books: W.Books, best: nat, peer: nat, want: nat, limited: bool, common: nat)
    requires TS.Shaped(s) && best < |s.nodes| && common < |s.nodes| && OnPath(s.nodes, common, best)
    ensures var c := W.Expected(s, books, best, peer, want, limited, common).blocks;
            |c| <= want && AllAskable(s, books, c)
  {
    hide TS.Shaped, Askable, W.Candidates, W.FirstOwing, W.Refused;
    var first, last := s.nodes[common].height + 1, W.LastHeight(s, best, common);
    CandidatesAreAskable(s, books, best, limited, first, last);
    W.CandidatesClimb(s, books, best, limited, first, last);
    ClimbingIsDistinct(s.nodes, W.Candidates(s, books, best, limited, first, last), first, last);
  }

  lemma WalkIsFresh(
    tree: HeaderTree, books: W.Books, row: Row, peer: nat, want: nat, limited: bool, walk: W.Walk)
    requires tree.Valid() && want > 0
    requires row.bestKnown.Some? ==> row.bestKnown.value < |tree.nodes|
    requires row.lastCommon.Some? ==> row.lastCommon.value < |tree.nodes|
    requires walk.blocks == []
             || (row.bestKnown.Some?
                 && walk == W.Expected(tree.View(), books, row.bestKnown.value, peer, want, limited,
                                       W.CommonOf(tree.View(), row.lastCommon, row.bestKnown.value)))
    ensures |walk.blocks| <= want
    ensures forall k :: 0 <= k < |walk.blocks| ==>
              && walk.blocks[k] < |tree.nodes|
              && tree.nodes[walk.blocks[k]].hash !in books.inFlight
              && tree.nodes[walk.blocks[k]].hash !in books.delivered
              && tree.status[walk.blocks[k]] == TS.HeaderAccepted
    ensures forall j, k :: 0 <= j < k < |walk.blocks| ==> walk.blocks[j] != walk.blocks[k]
  {
    hide TS.Verdicts, TS.ActiveChain, TS.IsBest, TS.DirtyList, Built, W.Expected, W.CommonOf, Linked;
    if walk.blocks != [] {
      var s := tree.View();
      var common := W.CommonOf(s, row.lastCommon, row.bestKnown.value);
      ExpectedIsAskable(s, books, row.bestKnown.value, peer, want, limited, common);
      TS.GenesisOnly(tree.rules, s);
      RootIsLow(s);
      forall k | 0 <= k < |walk.blocks| ensures tree.status[walk.blocks[k]] == TS.HeaderAccepted {
        assert Askable(s, books, walk.blocks[k]);
      }
    }
  }

  lemma RootIsLow(s: TS.State)
    requires TS.Shaped(s)
    ensures s.nodes[0].height == 0
  {
  }

  lemma EdgeInRange(tree: HeaderTree, books: W.Books, row: Row)
    requires tree.Valid() && row.bestKnown.Some? && row.bestKnown.value < |tree.nodes|
    requires row.lastCommon.Some? ==> row.lastCommon.value < |tree.nodes|
    ensures W.NewEdge(tree.View(), books, row.bestKnown.value,
                      W.CommonOf(tree.View(), row.lastCommon, row.bestKnown.value)) < |tree.nodes|
  {
    hide TS.Sound, W.CommonOf, W.HeldRun, Built;
  }

  lemma DistinctHashes(s: TS.State, blocks: seq<nat>, hashes: seq<Hash>)
    requires TS.Shaped(s) && |hashes| == |blocks|
    requires forall k :: 0 <= k < |blocks| ==> blocks[k] < |s.nodes| && hashes[k] == s.nodes[blocks[k]].hash
    requires forall j, k :: 0 <= j < k < |blocks| ==> blocks[j] != blocks[k]
    ensures S.Distinct(hashes)
    ensures forall k :: 0 <= k < |hashes| ==> hashes[k] in s.index && s.index[hashes[k]] == blocks[k]
  {
  }

  // ----- asking -----------------------------------------------------------------------------------

  /** With new blocks and a matched row a request is legal, and goes through exactly when the table has room. */
  lemma AskGoesThroughIff(s: S.State, slot: nat, hashes: seq<Hash>)
    requires S.Sane(s) && slot < S.PEER_SLOTS == |s.conns| == |s.rows|
    requires s.conns[slot].Some? && s.rows[slot] == s.conns[slot] && |s.delivered| < S.MAX_UNSTORED_BLOCKS
    requires hashes == []
             || (S.Distinct(hashes) && |hashes| + |S.Owed(s.inFlight, slot)| <= S.MAX_BLOCKS_IN_FLIGHT)
    requires forall k :: 0 <= k < |hashes| ==> hashes[k] !in s.inFlight && hashes[k] !in s.delivered
    ensures S.Legal(s, S.Ask(slot, hashes))
    ensures |s.tables[slot]| <= S.MAX_BLOCKS_IN_FLIGHT
    ensures forall h :: h in hashes ==> h !in s.tables[slot] && h !in s.inFlight
    ensures S.Asked(s, slot, hashes).Some? <==> |s.tables[slot]| + |hashes| <= S.MAX_BLOCKS_IN_FLIGHT
    ensures S.Asked(s, slot, hashes).Some? ==>
              S.Asked(s, slot, hashes).value
              == s.(inFlight := s.inFlight + S.OwedBy(hashes, slot),
                    tables := s.tables[slot := s.tables[slot] + hashes])
    ensures hashes == [] ==> S.Asked(s, slot, hashes) == Some(s)
  {
    hide S.OwedBy, S.Asked;
    assert S.TableSays(s, slot);
    S.BoundsSay(s.inFlight, s.delivered);
    S.RequestFailsIff(s, slot, hashes);
    if S.Asked(s, slot, hashes).Some? {
      S.AskedIs(s, slot, hashes);
    }
    S.NothingAsked(s, slot);
  }

  lemma NothingAdded(s: S.State)
    requires S.Sane(s)
    ensures |s.tables| == S.PEER_SLOTS && S.Added(s, s)
  {
    hide S.Bounds, S.TableSays;
  }

  lemma InvHasBooks(s: S.State)
    ensures S.Inv(s) ==> S.Books(s)
  {
  }

  /** Only one table of a view changes when one peer is asked. */
  lemma TableGrows(slots: Slots, slot: nat, before: S.State, hashes: seq<Hash>, after: S.State)
    requires slot < |slots| == |before.tables| == |after.tables| == |before.conns| == |after.conns|
    requires forall i :: 0 <= i < |slots| ==>
               after.conns[i] == before.conns[i]
               && after.tables[i] == if i == slot then before.tables[i] + hashes else before.tables[i]
    ensures after.conns == before.conns && after.tables == before.tables[slot := before.tables[slot] + hashes]
  {
  }

  lemma NothingOwed(inFlight: map<Hash, nat>, hashes: seq<Hash>, slot: nat)
    ensures inFlight + S.OwedBy(hashes[..0], slot) == inFlight
  {
  }

  lemma OneMoreOwed(inFlight: map<Hash, nat>, hashes: seq<Hash>, slot: nat, i: nat)
    requires i < |hashes| && S.Distinct(hashes) && forall h :: h in hashes ==> h !in inFlight
    ensures hashes[i] !in hashes[..i] && hashes[i] !in inFlight + S.OwedBy(hashes[..i], slot)
    ensures hashes[..i + 1] == hashes[..i] + [hashes[i]]
    ensures (inFlight + S.OwedBy(hashes[..i], slot))[hashes[i] := slot]
            == inFlight + S.OwedBy(hashes[..i + 1], slot)
  {
    S.OwedByGrows(inFlight, hashes, slot, i);
  }
}
