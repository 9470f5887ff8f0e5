/** A file with room for one byte cannot be mixed: every write fills it or leaves it alone, so a
    region holds the file after some number of writes even while its peer is being brought in. */
module OneByte {
  import opened Bytes
  import opened Replication
  import opened Invariant
  import opened Safety

  ghost predicate SomePrefix(size: nat, h: seq<Op>, data: seq<byte>) {
    OpsFit(size, h) && exists m: nat :: m <= |h| && data == Replay(size, h, m)
  }

  ghost predicate AllPrefixes(s: State) {
    forall p :: p in s.props ==> SomePrefix(s.cfg.size, s.hist, s.props[p].data)
  }

  lemma PrefixExtend(size: nat, h: seq<Op>, op: Op, data: seq<byte>)
    requires SomePrefix(size, h, data) && op.off + |op.bytes| <= size
    ensures SomePrefix(size, h + [op], data)
  {
    hide Replay;
    var m: nat :| m <= |h| && data == Replay(size, h, m);
    assert OpsFit(size, h + [op]);
    ReplayExtend(size, h, op, m);
  }

  /** A write of write k's bytes over anything. */
  lemma FillsOrLeaves(size: nat, h: seq<Op>, k: nat, data: seq<byte>)
    requires size <= 1 && k < |h| && |data| == size && SomePrefix(size, h, data)
    ensures h[k].off + |h[k].bytes| <= |data|
    ensures SomePrefix(size, h, Splice(data, h[k].off, h[k].bytes))
  {
    var r := Splice(data, h[k].off, h[k].bytes);
    if h[k].bytes == [] {
      assert r == data;
    } else {
      assert r == Replay(size, h, k + 1);
    }
  }

  /** Until its snapshot arrives a peer is sent the writes in order. */
  lemma HeadIsWrite(size: nat, h: seq<Op>, n: nat, p: Peer)
    requires PeerOk(size, h, n, p) && p.chan != [] && p.chan[0].Data?
    requires p.stage.Joining? || (p.stage.Syncing? && p.stage.ahead > 0)
    ensures exists k: nat :: k < |h| && p.chan[0].off == h[k].off && p.chan[0].bytes == h[k].bytes
  {
    hide ZeroFrom, Replay, FileLen, NumOf, OpsFit;
    match p.stage
    case Joining => RegularTail(h, 2 * n - |p.chan|, p.chan);
    case Syncing(ahead, resume, upto) =>
      assert p.chan[..ahead][0] == p.chan[0];
      RegularTail(h, 2 * resume - ahead, p.chan[..ahead]);
  }

  lemma ReplicaPrefixes(size: nat, h: seq<Op>, n: nat, p: Peer)
    requires PeerOk(size, h, n, p) && (p.stage.Live? || p.stage.SyncingWord?)
    ensures SomePrefix(size, h, p.data)
  {
    hide Regular, Replay, FileLen, NumOf, OpsFit;
  }

  lemma DeliverPrefix(size: nat, h: seq<Op>, n: nat, p: Peer)
    requires size <= 1 && PeerOk(size, h, n, p) && SomePrefix(size, h, p.data)
    requires p.chan != [] && Fits(p.chan[0], |p.data|)
    ensures SomePrefix(size, h, DeliverAt(p).data)
  {
    hide SomePrefix, JoiningOk, SyncingOk, SyncingWordOk, LiveOk, OpsFit;
    PeerOkDeliver(size, h, n, p);
    var q := DeliverAt(p);
    if q.stage.Live? || q.stage.SyncingWord? {
      ReplicaPrefixes(size, h, n, q);
    } else if p.chan[0].Data? {
      HeadIsWrite(size, h, n, p);
      var k: nat :| k < |h| && p.chan[0].off == h[k].off && p.chan[0].bytes == h[k].bytes;
      FillsOrLeaves(size, h, k, p.data);
    }
  }

  lemma JoiningPrefix(s: State, x: Addr)
    requires Inv(s)
    ensures SomePrefix(s.cfg.size, s.hist, JoiningPeer(s, x).data)
  {
    assert Replay(s.cfg.size, s.hist, 0) == Zeros(s.cfg.size);
    if x in s.departed {
      hide SomePrefix, PeerOk;
      var k: nat :| k <= s.Posted() && PeerOk(s.cfg.size, s.hist, k, s.departed[x]);
      ReplicaPrefixes(s.cfg.size, s.hist, k, s.departed[x]);
    }
  }

  lemma PrefixesSame(s: State, t: State)
    requires AllPrefixes(s) && t.cfg == s.cfg && t.hist == s.hist
    requires forall p :: p in t.props ==> p in s.props && t.props[p].data == s.props[p].data
    ensures AllPrefixes(t)
  {
    hide SomePrefix;
  }

  /** A peer is connected, the one it replaces, if any, being gone. */
  lemma ConnectPrefixes(s: State, x: Addr, cause: Cause)
    requires AllPrefixes(s) && SomePrefix(s.cfg.size, s.hist, JoiningPeer(s, x).data)
    ensures AllPrefixes(ConnectedTo(s, x, cause))
  {
    hide SomePrefix, JoiningPeer;
  }

  lemma DeletedPrefixes(s: State, p: Addr, kept: bool, replacement: Option<Addr>)
    requires Inv(s) && AllPrefixes(s) && Enabled(s, PeerDeleted(p, kept, replacement))
    ensures AllPrefixes(Next(s, PeerDeleted(p, kept, replacement)))
  {
    hide SomePrefix, Inv, Core, DepartedOk, JoiningPeer;
    var t := Dropped(s, p, kept);
    PrefixesSame(s, t);
    match replacement
    case Some(x) =>
      DroppedPrefix(s, p, kept, x);
      ConnectPrefixes(t, x, Deleted);
    case None =>
      PrefixesSame(t, Next(s, PeerDeleted(p, kept, replacement)));
  }

  /** The server that was just dropped, if it is the one connected, comes back as it was. */
  lemma DroppedPrefix(s: State, p: Addr, kept: bool, x: Addr)
    requires Inv(s) && AllPrefixes(s) && p in s.props
    ensures SomePrefix(s.cfg.size, s.hist, JoiningPeer(Dropped(s, p, kept), x).data)
  {
    hide SomePrefix, Inv;
    JoiningPrefix(s, x);
  }

  lemma PrefixesNext(s: State, e: Event)
    requires Inv(s) && s.cfg.size <= 1 && AllPrefixes(s) && Enabled(s, e)
    ensures AllPrefixes(Next(s, e))
  {
    hide Inv, SomePrefix, JoiningPeer, Dropped, ConnectedTo, AllPrefixes, DeliverAt, Splice;
    var t := Next(s, e);
    match e
    case BeginWrite(op) => BeginPrefixes(s, op);
    case Deliver(p) => DeliverPrefixes(s, p);
    case PeerDeleted(p, kept, replacement) => DeletedPrefixes(s, p, kept, replacement);
    case ChildEvent(Some(x)) =>
      JoiningPrefix(s, x);
      SameJoiner(s, x);
      PrefixesSame(s, s.(childWatch := false));
      ConnectPrefixes(s.(childWatch := false), x, Joined);
    case _ => PrefixesSame(s, t);
  }

  lemma SameJoiner(s: State, x: Addr)
    ensures JoiningPeer(s.(childWatch := false), x) == JoiningPeer(s, x)
  {
  }

  lemma BeginPrefixes(s: State, op: Op)
    requires Inv(s) && AllPrefixes(s) && Enabled(s, BeginWrite(op))
    ensures AllPrefixes(Next(s, BeginWrite(op)))
  {
    hide SomePrefix, PeersOk, MembershipOk, AcksOk, DepartedOk;
    ClientSize(s);
    forall p | p in s.props ensures SomePrefix(s.cfg.size, s.hist + [op], s.props[p].data) {
      PrefixExtend(s.cfg.size, s.hist, op, s.props[p].data);
    }
  }

  lemma DeliverPrefixes(s: State, p: Addr)
    requires Inv(s) && s.cfg.size <= 1 && AllPrefixes(s) && Enabled(s, Deliver(p))
    ensures AllPrefixes(Next(s, Deliver(p)))
  {
    hide SomePrefix, PeerOk, QueueOk, DeliverAt;
    DeliverPrefix(s.cfg.size, s.hist, s.Posted(), s.props[p]);
  }

  lemma {:induction false} RunPrefixes(s: State, es: seq<Event>, t: State)
    requires Initial(s) && s.cfg.size <= 1 && Run(s, es) == Some(t)
    ensures Inv(t) && t.cfg == s.cfg && AllPrefixes(t)
  {
    hide Inv, AllPrefixes, Enabled, Initial, Next;
    if es == [] {
      InitialInv(s);
      InitialPrefixes(s);
    } else {
      var u, e := Run(s, es[..|es| - 1]).value, es[|es| - 1];
      RunPrefixes(s, es[..|es| - 1], u);
      NextInv(u, e);
      NextConfig(u, e);
      PrefixesNext(u, e);
    }
  }

  lemma InitialPrefixes(s: State)
    requires Initial(s)
    ensures AllPrefixes(s)
  {
    assert Replay(s.cfg.size, [], 0) == Zeros(s.cfg.size);
  }

  /** In every reachable state every peer's region is the file after some number of writes. */
  lemma AlwaysPrefixes(t: State, p: Addr)
    requires Reachable(t) && t.cfg.size <= 1 && p in t.props
    ensures SomePrefix(t.cfg.size, t.hist, t.props[p].data)
  {
    hide SomePrefix, Run, Initial;
    var s: State :| Initial(s) && Reaches(s, t);
    var es :| Run(s, es) == Some(t);
    SameConfig(s, es, t);
    RunPrefixes(s, es, t);
  }

  lemma NextConfig(s: State, e: Event)
    requires Enabled(s, e)
    ensures Next(s, e).cfg == s.cfg
  {
    hide DeliverAt, PostTo, PollAt, Splice, Fits, Completed, JoiningPeer, SnapshotTo;
  }

  lemma {:induction false} SameConfig(s: State, es: seq<Event>, t: State)
    requires Run(s, es) == Some(t)
    ensures t.cfg == s.cfg
  {
    hide Enabled, Next;
    if es != [] {
      var u := Run(s, es[..|es| - 1]).value;
      SameConfig(s, es[..|es| - 1], u);
      NextConfig(u, es[|es| - 1]);
    }
  }
}
