/**
  What a replay makes of any file of records, whoever wrote them: which records it keeps, what the
  arena it leaves has to do with them, and what a later clock changes.
 */
module Reading {
  import opened Bytes
  import opened Arena
  import opened TreeState
  import opened Journal
  import opened Recovery
  import opened Restart

  /** Where the tree kept each record, up to the first it did not keep. */
  ghost function KeptIds(rules: Rules, cap: nat, file: seq<Record>, now: nat): seq<nat> {
    if |file| == 0 then []
    else
      var (before, ids) := (Replay(rules, cap, file[..|file| - 1], now), KeptIds(rules, cap, file[..|file| - 1], now));
      if before.rejected then ids
      else
        match KeptAt(Accept(rules, cap, before.tree, file[|file| - 1].header, now).1)
        case None => ids
        case Some(node) => ids + [node]
  }

  /** One more record: not looked at, turned away, or kept. */
  lemma KeptOneMore(rules: Rules, cap: nat, file: seq<Record>, now: nat)
    requires |file| > 0
    ensures var front := file[..|file| - 1];
            var (r, before) := (Replay(rules, cap, file, now), Replay(rules, cap, front, now));
            var (ids, had) := (KeptIds(rules, cap, file, now), KeptIds(rules, cap, front, now));
            && (before.rejected ==> r == before && ids == had)
            && (!before.rejected && r.rejected ==> r == before.(rejected := true) && ids == had)
            && (!before.rejected && !r.rejected ==> |ids| == |had| + 1)
  {
    hide Sound, Accept, Fresh, Noted;
  }

  /** The first `k` records are kept, and the next one ends the replay. */
  ghost predicate StopsAfter(rules: Rules, cap: nat, file: seq<Record>, now: nat, k: nat) {
    var (r, ids) := (Replay(rules, cap, file, now), KeptIds(rules, cap, file, now));
    && k <= |file| && |ids| == k && (r.rejected <==> k < |file|)
    && (r.rejected ==> Replay(rules, cap, file[..k + 1], now) == r)
    && Replay(rules, cap, file[..k], now) == r.(rejected := false) && KeptIds(rules, cap, file[..k], now) == ids
  }

  lemma StopsAtEnd(rules: Rules, cap: nat, file: seq<Record>, now: nat)
    requires |KeptIds(rules, cap, file, now)| == |file| && !Replay(rules, cap, file, now).rejected
    ensures StopsAfter(rules, cap, file, now, |file|)
  {
    hide Replay, KeptIds;
    assert file[..|file|] == file;
  }

  lemma StopsStill(rules: Rules, cap: nat, file: seq<Record>, now: nat, k: nat)
    requires |file| > 0 && StopsAfter(rules, cap, file[..|file| - 1], now, k) && k < |file| - 1
    ensures StopsAfter(rules, cap, file, now, k)
  {
    hide Replay, KeptIds;
    KeptOneMore(rules, cap, file, now);
    assert file[..|file| - 1][..k] == file[..k] && file[..|file| - 1][..k + 1] == file[..k + 1];
  }

  lemma StopsNow(rules: Rules, cap: nat, file: seq<Record>, now: nat)
    requires |file| > 0 && StopsAfter(rules, cap, file[..|file| - 1], now, |file| - 1)
    requires Replay(rules, cap, file, now).rejected
    ensures StopsAfter(rules, cap, file, now, |file| - 1)
  {
    hide Replay, KeptIds;
    KeptOneMore(rules, cap, file, now);
    assert file[..|file|] == file;
  }

  /** The records kept are those ahead of the rejected one, and nothing behind it is looked at. */
  lemma {:induction false} KeptIsAFront(rules: Rules, cap: nat, file: seq<Record>, now: nat)
    ensures StopsAfter(rules, cap, file, now, |KeptIds(rules, cap, file, now)|)
    decreases |file|
  {
    if |file| == 0 {
      StopsAtEnd(rules, cap, file, now);
    } else {
      KeptIsAFront(rules, cap, file[..|file| - 1], now);
      KeptOneMore(rules, cap, file, now);
      hide Replay, KeptIds;
      var k := |KeptIds(rules, cap, file[..|file| - 1], now)|;
      if k < |file| - 1 {
        StopsStill(rules, cap, file, now, k);
      } else if Replay(rules, cap, file, now).rejected {
        StopsNow(rules, cap, file, now);
      } else {
        StopsAtEnd(rules, cap, file, now);
      }
    }
  }

  /** Behind a rejected record, anything may follow. */
  lemma {:induction false} NothingBehindIsRead(rules: Rules, cap: nat, file: seq<Record>, more: seq<Record>, now: nat)
    requires Replay(rules, cap, file, now).rejected
    ensures Replay(rules, cap, file + more, now) == Replay(rules, cap, file, now)
    ensures KeptIds(rules, cap, file + more, now) == KeptIds(rules, cap, file, now)
    decreases |more|
  {
    hide Sound, Accept, Fresh, Noted;
    if more == [] {
      assert file + more == file;
    } else {
      NothingBehindIsRead(rules, cap, file, more[..|more| - 1], now);
      assert (file + more)[..|file + more| - 1] == file + more[..|more| - 1];
    }
  }

  // ----- the arena and the records ----------------------------------------------------------------

  /** No record carries the root's hash. */
  ghost predicate AboveRoot(rules: Rules, file: seq<Record>) {
    forall k :: 0 <= k < |file| ==> rules.hashOf(file[k].header) != rules.hashOf(rules.genesis)
  }

  /** Each record carries the hash of the entry it was kept at. */
  ghost predicate Carries(rules: Rules, nodes: seq<Node>, file: seq<Record>, ids: seq<nat>) {
    && |file| == |ids|
    && forall k :: 0 <= k < |ids| ==> 0 < ids[k] < |nodes| && rules.hashOf(file[k].header) == nodes[ids[k]].hash
  }

  /** Some record carries this entry's header. */
  ghost predicate Introduced(nodes: seq<Node>, file: seq<Record>, ids: seq<nat>, i: nat)
    requires |file| == |ids| && i < |nodes|
  {
    exists k :: 0 <= k < |ids| && ids[k] == i && file[k].header == nodes[i].header
  }

  ghost predicate AllIntroduced(nodes: seq<Node>, file: seq<Record>, ids: seq<nat>)
    requires |file| == |ids|
  {
    forall i {:trigger Introduced(nodes, file, ids, i)} :: 0 < i < |nodes| ==> Introduced(nodes, file, ids, i)
  }

  /** What a file that is kept whole and the arena it leaves say about each other. */
  ghost predicate Read(rules: Rules, cap: nat, r: Replayed, file: seq<Record>, ids: seq<nat>) {
    && |file| == |ids| && Ordered(ids) && Known(ids) == |r.tree.nodes| && (cap > 0 ==> |r.tree.nodes| <= cap)
    && Remembers(r.statuses, file, ids) && Carries(rules, r.tree.nodes, file, ids)
    && AllIntroduced(r.tree.nodes, file, ids)
  }

  /** A header that is kept is an entry's already, or the next entry's. */
  lemma KeptMeans(rules: Rules, cap: nat, s: State, header: Header, now: nat)
    requires Sound(rules, s) && rules.hashOf(header) != rules.hashOf(rules.genesis)
    ensures var (t, outcome) := Accept(rules, cap, s, header, now);
            KeptAt(outcome).Some? ==>
              var i := KeptAt(outcome).value;
              && 0 < i <= |s.nodes| && s.nodes <= t.nodes
              && (i < |s.nodes| ==> t.nodes == s.nodes)
              && (i == |s.nodes| ==> |t.nodes| == i + 1 <= cap && t.nodes[i].header == header)
              && t.nodes[i].hash == rules.hashOf(header)
  {
    hide Verdicts, ActiveChain, IsBest, DirtyList, Path, Time, AncestorAt;
    assert s.nodes[0].hash == rules.hashOf(rules.genesis);
  }

  lemma ReadNothing(rules: Rules, cap: nat, now: nat)
    ensures Read(rules, cap, Replay(rules, cap, [], now), [], [])
  {
    hide Sound;
  }

  lemma ReadGrows(rules: Rules, cap: nat, file: seq<Record>, before: Replayed, ids: seq<nat>, t: State, i: nat)
    requires |file| > 0 && Read(rules, cap, before, file[..|file| - 1], ids)
    requires 0 < i <= |before.tree.nodes| && before.tree.nodes <= t.nodes
    requires i < |before.tree.nodes| ==> t.nodes == before.tree.nodes
    requires i == |before.tree.nodes| ==> |t.nodes| == i + 1 <= cap && t.nodes[i].header == file[|file| - 1].header
    requires t.nodes[i].hash == rules.hashOf(file[|file| - 1].header)
    ensures Read(rules, cap, Replayed(t, Noted(before.statuses, i, file[|file| - 1].persisted), false), file, ids + [i])
  {
    hide Noted, Remembers, Known, Ordered;
    var n := |file| - 1;
    assert (ids + [i])[..n] == ids;
    OrderedPush(ids, i);
    RemembersOneMore(before.statuses, file, ids + [i]);
    forall j | 0 < j < |t.nodes| ensures Introduced(t.nodes, file, ids + [i], j) {
      if j < |before.tree.nodes| {
        assert Introduced(before.tree.nodes, file[..n], ids, j);
        var k :| 0 <= k < n && ids[k] == j && file[..n][k].header == before.tree.nodes[j].header;
        assert (ids + [i])[k] == j && file[k].header == t.nodes[j].header;
      } else {
        assert (ids + [i])[n] == j;
      }
    }
  }

  /** Any file without the root's hash, kept whole, is read this way. */
  lemma {:induction false} WholeIsRead(rules: Rules, cap: nat, file: seq<Record>, now: nat)
    requires AboveRoot(rules, file) && !Replay(rules, cap, file, now).rejected
    ensures Read(rules, cap, Replay(rules, cap, file, now), file, KeptIds(rules, cap, file, now))
    decreases |file|
  {
    hide Sound, Accept, Fresh, Noted, Read;
    if |file| == 0 {
      ReadNothing(rules, cap, now);
    } else {
      var front := file[..|file| - 1];
      WholeIsRead(rules, cap, front, now);
      var before := Replay(rules, cap, front, now);
      SoundIsShaped(rules, before.tree);
      KeptMeans(rules, cap, before.tree, file[|file| - 1].header, now);
      var (t, outcome) := Accept(rules, cap, before.tree, file[|file| - 1].header, now);
      ReadGrows(rules, cap, file, before, KeptIds(rules, cap, front, now), t, KeptAt(outcome).value);
    }
  }

  // ----- hashes that do not clash -----------------------------------------------------------------

  /** Records of one hash carry one header. */
  ghost predicate NoClash(rules: Rules, file: seq<Record>) {
    forall j, k :: 0 <= j < |file| && 0 <= k < |file| && rules.hashOf(file[j].header) == rules.hashOf(file[k].header) ==>
      file[j].header == file[k].header
  }

  /** Then each record carries the header of the entry it was kept at. */
  lemma ReadIsHeaded(rules: Rules, cap: nat, r: Replayed, file: seq<Record>, ids: seq<nat>)
    requires Sound(rules, r.tree) && Read(rules, cap, r, file, ids) && NoClash(rules, file)
    ensures Headed(r.tree.nodes, file, ids)
  {
    hide Verdicts, ActiveChain, IsBest, Built, DirtyList, Linked, Remembers, Known, Ordered;
    var nodes := r.tree.nodes;
    forall k | 0 <= k < |ids| ensures file[k].header == nodes[ids[k]].header {
      assert Introduced(nodes, file, ids, ids[k]);
      var j :| 0 <= j < |ids| && ids[j] == ids[k] && file[j].header == nodes[ids[k]].header;
      assert rules.hashOf(file[j].header) == rules.hashOf(file[k].header);
    }
  }

  /** A journal that is in step with its tree has no clash. */
  lemma HeadedHasNoClash(rules: Rules, s: State, file: seq<Record>, ids: seq<nat>)
    requires Sound(rules, s) && Headed(s.nodes, file, ids)
    ensures NoClash(rules, file) && AboveRoot(rules, file)
  {
    hide Verdicts, ActiveChain, IsBest, DirtyList, Linked;
    forall k | 0 <= k < |file|
      ensures s.nodes[ids[k]].hash == rules.hashOf(file[k].header) != rules.hashOf(rules.genesis)
    {
      HashIsOfHeader(rules, s.nodes, ids[k]);
      HashIsOfHeader(rules, s.nodes, 0);
      assert s.index[s.nodes[0].hash] == 0 && s.index[s.nodes[ids[k]].hash] == ids[k];
    }
    forall j, k | 0 <= j < |file| && 0 <= k < |file| && rules.hashOf(file[j].header) == rules.hashOf(file[k].header)
      ensures file[j].header == file[k].header
    {
      assert s.index[s.nodes[ids[j]].hash] == ids[j] && s.index[s.nodes[ids[k]].hash] == ids[k];
    }
  }

  // ----- the chain behind a header ----------------------------------------------------------------

  /** Headers from genesis up, each naming the hash of the one before it. */
  ghost predicate Chain(rules: Rules, path: seq<Header>) {
    && |path| > 0 && path[0] == rules.genesis
    && forall k :: 0 < k < |path| ==>
         && Previous(path[k]) == rules.hashOf(path[k - 1])
         && rules.hashOf(path[k]) != rules.hashOf(rules.genesis)
  }

  lemma {:induction false} PathIsChain(rules: Rules, s: State, i: nat)
    requires Sound(rules, s) && i < |s.nodes|
    ensures var path := Path(s.nodes, i);
            && Chain(rules, path) && path[|path| - 1] == s.nodes[i].header && (i > 0 ==> |path| > 1)
            && forall k :: 0 < k < |path| ==> exists a :: 0 < a <= i && s.nodes[a].header == path[k]
    decreases i
  {
    hide Verdicts, ActiveChain, IsBest, DirtyList, AncestorAt;
    if i > 0 {
      var p := Up(s.nodes, i);
      PathIsChain(rules, s, p);
      NextIsChild(rules, s.nodes, i);
      HashIsOfHeader(rules, s.nodes, i);
      HashIsOfHeader(rules, s.nodes, p);
      HashIsOfHeader(rules, s.nodes, 0);
      assert s.index[s.nodes[0].hash] == 0 && s.index[s.nodes[i].hash] == i;
      var (front, path) := (Path(s.nodes, p), Path(s.nodes, i));
      assert path == front + [s.nodes[i].header];
      forall k | 0 < k < |path| ensures exists a :: 0 < a <= i && s.nodes[a].header == path[k] {
        if k < |front| {
          var a :| 0 < a <= p && s.nodes[a].header == front[k];
          assert s.nodes[a].header == path[k];
        }
      }
    }
  }

  /** No two of these headers share a hash. */
  ghost predicate Told(rules: Rules, p: seq<Header>, q: seq<Header>) {
    forall j, k :: 0 < j < |p| && 0 < k < |q| && rules.hashOf(p[j]) == rules.hashOf(q[k]) ==> p[j] == q[k]
  }

  /** One header has one chain behind it. */
  lemma {:induction false} ChainsAgree(rules: Rules, p: seq<Header>, q: seq<Header>)
    requires Chain(rules, p) && Chain(rules, q) && Told(rules, p, q) && p[|p| - 1] == q[|q| - 1]
    ensures p == q
    decreases |p|
  {
    var (m, n) := (|p| - 1, |q| - 1);
    if m > 0 && n > 0 {
      if m > 1 && n > 1 {
        assert p[m - 1] == q[n - 1];
      }
      ChainsAgree(rules, p[..m], q[..n]);
      assert p == p[..m] + [p[m]] && q == q[..n] + [q[n]];
    }
  }

  // ----- records that are vouched for -------------------------------------------------------------

  /** Some record up to the `k`-th carries this header. */
  ghost predicate Mentioned(file: seq<Record>, k: nat, header: Header) {
    exists j :: 0 <= j <= k && j < |file| && file[j].header == header
  }

  /** The chain behind the `k`-th record: all of it mentioned by then, and its header passes the rules on it. */
  ghost predicate Backing(rules: Rules, file: seq<Record>, k: nat, path: seq<Header>)
    requires k < |file|
  {
    && |path| > 1 && Chain(rules, path) && path[|path| - 1] == file[k].header
    && rules.accepts(path[..|path| - 1], file[k].header)
    && forall j :: 0 < j < |path| ==> Mentioned(file, k, path[j])
  }

  ghost predicate Backed(rules: Rules, file: seq<Record>, k: nat)
    requires k < |file|
  {
    exists path :: Backing(rules, file, k, path)
  }

  /** Every record that says connected is backed. */
  ghost predicate AllBacked(rules: Rules, file: seq<Record>) {
    forall k {:trigger Backed(rules, file, k)} ::
      0 <= k < |file| && file[k].persisted.WasConnected? ==> Backed(rules, file, k)
  }

  /** What is read of such a file is vouched for. */
  lemma BackedIsVouched(rules: Rules, cap: nat, r: Replayed, file: seq<Record>, ids: seq<nat>)
    requires Sound(rules, r.tree) && Read(rules, cap, r, file, ids) && NoClash(rules, file) && AllBacked(rules, file)
    ensures Linked(r.tree.nodes) && Vouched(rules, r.tree.nodes, r.statuses)
  {
    hide Verdicts, ActiveChain, IsBest, Built, DirtyList, Known, Ordered, Last, HeaderAccepts, NoClash, Carries,
      AllIntroduced, Path;
    ReadIsHeaded(rules, cap, r, file, ids);
    forall i | 0 < i < |r.tree.nodes| && RecordedConnected(r.statuses, i) ensures HeaderAccepts(rules, r.tree.nodes, i) {
      assert StatusAt(r.statuses, i) == Last(file, ids, i);
      var k := LastIsARecord(file, ids, i);
      assert Backed(rules, file, k);
      var path :| Backing(rules, file, k, path);
      BackedIsAccepted(rules, cap, r, file, ids, k, path);
    }
  }

  lemma BackedIsAccepted(
    rules: Rules, cap: nat, r: Replayed, file: seq<Record>, ids: seq<nat>, k: nat, path: seq<Header>)
    requires Sound(rules, r.tree) && Read(rules, cap, r, file, ids) && NoClash(rules, file)
    requires Headed(r.tree.nodes, file, ids) && k < |file| && Backing(rules, file, k, path)
    ensures HeaderAccepts(rules, r.tree.nodes, ids[k])
  {
    hide Verdicts, ActiveChain, IsBest, Built, DirtyList, Known, Ordered, Last, Remembers, Carries;
    var nodes := r.tree.nodes;
    var own := Path(nodes, ids[k]);
    PathIsChain(rules, r.tree, ids[k]);
    forall i, j | 0 < i < |path| && 0 < j < |own| && rules.hashOf(path[i]) == rules.hashOf(own[j])
      ensures path[i] == own[j]
    {
      assert Mentioned(file, k, path[i]);
      var a :| 0 < a <= ids[k] && nodes[a].header == own[j];
      assert Introduced(nodes, file, ids, a);
    }
    ChainsAgree(rules, path, own);
    assert own == Path(nodes, Up(nodes, ids[k])) + [nodes[ids[k]].header];
    assert own[..|own| - 1] == Path(nodes, Up(nodes, ids[k]));
  }

  /** Records behind it do not take a record's backing away. */
  lemma AllBackedTogether(rules: Rules, file: seq<Record>, batch: seq<Record>)
    requires AllBacked(rules, file)
    requires forall q {:trigger batch[q]} :: 0 <= q < |batch| && batch[q].persisted.WasConnected? ==>
               Backed(rules, file + batch, |file| + q)
    ensures AllBacked(rules, file + batch)
  {
    hide Chain;
    var all := file + batch;
    forall k | 0 <= k < |all| && all[k].persisted.WasConnected? ensures Backed(rules, all, k) {
      if k < |file| {
        assert Backed(rules, file, k);
        var path :| Backing(rules, file, k, path);
        forall j | 0 < j < |path| ensures Mentioned(all, k, path[j]) {
          assert Mentioned(file, k, path[j]);
          var i :| 0 <= i <= k && i < |file| && file[i].header == path[j];
          assert all[i].header == path[j];
        }
        assert Backing(rules, all, k, path);
      } else {
        assert all[k] == batch[k - |file|];
      }
    }
  }

  lemma FrontIsBacked(rules: Rules, file: seq<Record>, n: nat)
    requires AllBacked(rules, file) && n <= |file|
    ensures AllBacked(rules, file[..n])
  {
    hide Chain;
    forall k | 0 <= k < n && file[..n][k].persisted.WasConnected? ensures Backed(rules, file[..n], k) {
      assert Backed(rules, file, k);
      var path :| Backing(rules, file, k, path);
      forall j | 0 < j < |path| ensures Mentioned(file[..n], k, path[j]) {
        assert Mentioned(file, k, path[j]);
        var i :| 0 <= i <= k && i < |file| && file[i].header == path[j];
        assert file[..n][i].header == path[j];
      }
      assert Backing(rules, file[..n], k, path);
    }
  }

  // ----- the clock --------------------------------------------------------------------------------

  lemma LaterKeeps(rules: Rules, cap: nat, s: State, header: Header, now: nat, later: nat)
    requires Shaped(s) && now <= later && KeptAt(Accept(rules, cap, s, header, now).1).Some?
    ensures Accept(rules, cap, s, header, later) == Accept(rules, cap, s, header, now)
  {
    hide Path, Time, Linked;
  }

  /** A file that one clock keeps whole reads the same at every later one. */
  lemma {:induction false} LaterReadsTheSame(rules: Rules, cap: nat, file: seq<Record>, now: nat, later: nat)
    requires now <= later && !Replay(rules, cap, file, now).rejected
    ensures Replay(rules, cap, file, later) == Replay(rules, cap, file, now)
    decreases |file|
  {
    hide Sound, Accept, Fresh, Noted;
    if |file| > 0 {
      var front := file[..|file| - 1];
      LaterReadsTheSame(rules, cap, front, now, later);
      var s := Replay(rules, cap, front, now).tree;
      SoundIsShaped(rules, s);
      LaterKeeps(rules, cap, s, file[|file| - 1].header, now, later);
    }
  }

  // ----- the load ---------------------------------------------------------------------------------

  /** A load sees no more of a file than what replay keeps. */
  lemma LoadSeesKept(rules: Rules, cap: nat, a: seq<Record>, b: seq<Record>, now: nat, marker: Hash)
    requires var (p, q) := (Replay(rules, cap, a, now), Replay(rules, cap, b, now));
             p.tree == q.tree && p.statuses == q.statuses
    ensures Load(rules, cap, a, now, marker) == Load(rules, cap, b, now, marker)
  {
    hide Sound, Replay, ApplyUpTo, ConnectUpTo, Fresh;
  }

  /** With genesis for its marker a load of any file goes through. */
  lemma GenesisLoads(rules: Rules, cap: nat, file: seq<Record>, now: nat)
    ensures var r := Load(rules, cap, file, now, rules.hashOf(rules.genesis));
            r.Loaded? && r.tree.nodes == Replay(rules, cap, file, now).tree.nodes
  {
    hide Verdicts, ActiveChain, IsBest, DirtyList, Linked, Replay, ApplyUpTo, Fresh;
    var replayed := Replay(rules, cap, file, now);
    FreshIsReady(rules, replayed.tree, replayed.statuses);
    ApplyUpToApplies(rules, replayed.tree, replayed.statuses, |replayed.tree.nodes|);
    var applied := ApplyUpTo(replayed.tree, replayed.statuses, |replayed.tree.nodes|);
    assert applied.nodes[0].hash == rules.hashOf(rules.genesis);
  }
}
