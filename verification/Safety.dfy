/** The whole-system invariant: the client, its membership, every peer's replica and token
    queue, and how many peers may still owe an acknowledged write. */
module Safety {
  import opened Bytes
  import opened Replication
  import opened Invariant

  // ---- token queues ----

  /** Tokens are posted in write order; op_queue is the end of that list, the marked tokens are
      everything before it, and whatever is marked has left the channel. */
  ghost predicate QueueOk(sync: bool, n: nat, p: Peer) {
    && |p.posted| <= n
    && (forall j :: 0 <= j < |p.posted| ==> p.posted[j] == n - |p.posted| + j)
    && |p.queue| <= |p.posted|
    && if sync then p.queue == [] && p.marked == {} else
         && p.queue == p.posted[|p.posted| - |p.queue|..]
         && (forall t :: t in p.marked <==> n - |p.posted| <= t < n - |p.queue|)
         && (forall j :: 0 <= j < |p.chan| && p.chan[j].tok.WriteTok? ==> n - |p.queue| <= p.chan[j].tok.num)
  }

  lemma QueuePost(sync: bool, n: nat, p: Peer, off: nat, bytes: seq<byte>, word: nat)
    requires QueueOk(sync, n, p)
    ensures QueueOk(sync, n + 1, PostTo(p, n, off, bytes, word, !sync))
  {
  }

  lemma QueueSnapshot(sync: bool, n: nat, p: Peer, bytes: seq<byte>, word: nat, resume: nat, upto: nat)
    requires QueueOk(sync, n, p)
    ensures QueueOk(sync, n, SnapshotTo(p, bytes, word, resume, upto))
  {
  }

  lemma QueueDeliver(sync: bool, n: nat, p: Peer)
    requires QueueOk(sync, n, p) && p.chan != [] && Fits(p.chan[0], |p.data|)
    ensures QueueOk(sync, n, DeliverAt(p))
  {
  }

  lemma QueuePoll(n: nat, p: Peer)
    requires QueueOk(false, n, p) && p.queue != [] && Completed(p, WriteTok(p.queue[0]))
    ensures QueueOk(false, n, PollAt(p))
    ensures p.queue[0] == n - |p.queue| && p.posted != []
  {
    assert p.queue[0] == p.posted[|p.posted| - |p.queue|];
    var q := PollAt(p);
    forall j | 0 <= j < |q.chan| && q.chan[j].tok.WriteTok? ensures n - |q.queue| <= q.chan[j].tok.num {
      assert p.chan[j].tok != WriteTok(p.queue[0]);
    }
  }

  // ---- settled writes ----

  /** Writes below this number are no longer owed to the peer: every message of theirs that
      its recovery does not make redundant has been delivered. */
  function Settled(n: nat, p: Peer): int {
    match p.stage
    case Joining => n
    case Syncing(ahead, resume, upto) => resume
    case SyncingWord(resume, upto) => resume
    case Live(_) => (2 * n - |p.chan|) / 2
  }

  function Owing(s: State, w: int): set<Addr> {
    set p | p in s.props && Settled(s.Posted(), s.props[p]) <= w
  }

  /** How many current peers an acknowledgement leaves behind at most. */
  function Slack(cfg: Config): int {
    if cfg.sync then 0 else cfg.rep - (cfg.rep / 2 + 1)
  }

  lemma SettledDeliver(size: nat, h: seq<Op>, n: nat, p: Peer)
    requires PeerOk(size, h, n, p) && p.chan != [] && Fits(p.chan[0], |p.data|)
    ensures Settled(n, DeliverAt(p)) >= Settled(n, p)
  {
  }

  lemma SettledPost(size: nat, h: seq<Op>, n: nat, p: Peer, off: nat, bytes: seq<byte>, word: nat, queued: bool)
    requires PeerOk(size, h, n, p) && n < |h|
    ensures Settled(n + 1, PostTo(p, n, off, bytes, word, queued)) >= Settled(n, p)
  {
  }

  /** A peer that still owes a write has the word of the last posted write in its channel. */
  lemma LastInFlight(size: nat, h: seq<Op>, n: nat, p: Peer)
    requires PeerOk(size, h, n, p) && Settled(n, p) < n
    ensures p.chan != [] && n > 0 && p.chan[|p.chan| - 1].tok == WriteTok(n - 1)
  {
    hide ZeroFrom, Replay, FileLen, NumOf, OpsFit;
    match p.stage
    case Syncing(ahead, resume, upto) => LastOf(h, 2 * resume, p.chan[ahead + 2..], n);
    case SyncingWord(resume, upto) => LastOf(h, 2 * resume, p.chan[1..], n);
    case Live(m) => LastOf(h, 2 * n - |p.chan|, p.chan, n);
  }

  lemma LastOf(h: seq<Op>, a: int, c: seq<Msg>, n: nat)
    requires Regular(h, a, c) && c != [] && a + |c| == 2 * n
    ensures n > 0 && c[|c| - 1].tok == WriteTok(n - 1)
  {
    assert c[|c| - 1] == MsgAt(h, a + (|c| - 1)) == MsgAt(h, 2 * n - 1);
  }

  /** A replica does not depend on the token bookkeeping. */
  lemma PeerOkSame(size: nat, h: seq<Op>, n: nat, p: Peer, q: Peer)
    requires PeerOk(size, h, n, p)
    requires q.data == p.data && q.word == p.word && q.chan == p.chan && q.stage == p.stage
    ensures PeerOk(size, h, n, q)
  {
  }

  lemma JoiningPeerOk(s: State, x: Addr)
    requires s.Posted() <= |s.hist| && OpsFit(s.cfg.size, s.hist) && DepartedOk(s)
    ensures PeerOk(s.cfg.size, s.hist, s.Posted(), JoiningPeer(s, x))
    ensures QueueOk(s.cfg.sync, s.Posted(), JoiningPeer(s, x))
  {
    if x in s.departed {
      var k: nat :| k <= s.Posted() && PeerOk(s.cfg.size, s.hist, k, s.departed[x]);
      var m := s.departed[x].stage.applied;
      ReplayBounds(s.cfg.size, s.hist, m);
      FileLenMono(s.hist, m, |s.hist|);
    }
  }

  // ---- the invariant ----

  /** The client's own fields are what its history of writes makes them. */
  ghost predicate ClientOk(s: State) {
    && s.cfg.rep >= 1 && s.cfg.size < TWO32
    && OpsFit(s.cfg.size, s.hist)
    && s.buffer == Replay(s.cfg.size, s.hist, |s.hist|)
    && s.fileSize == FileLen(s.hist, |s.hist|)
    && s.word == NumOf(|s.hist|) && s.seqNext == |s.hist| % TWO64
    && (s.writer.Begun? ==>
        && s.hist != []
        && var op := s.hist[|s.hist| - 1];
        && s.writer.off == op.off && s.writer.len == |op.bytes|
        && s.buffer[op.off..op.off + |op.bytes|] == op.bytes)
  }

  /** The peer set, the connection table and the two watcher-driven flags agree. */
  ghost predicate MembershipOk(s: State) {
    && s.members == s.props.Keys
    && |s.members| <= s.cfg.rep
    && (s.childWatch ==> |s.members| < s.cfg.rep)
    && match s.watcher
       case Quiet => s.suspended <==> |s.members| <= s.cfg.rep / 2
       case Suspending => |s.members| <= s.cfg.rep / 2
       case Connected(x, cause) =>
         && x in s.props && s.props[x].stage.Joining?
         && (s.suspended <==> |s.members| - (if cause.Joined? then 1 else 0) <= s.cfg.rep / 2)
         && (cause.Joined? ==> !s.childWatch)
       case Resyncing(x, cause) =>
         && x in s.props && !s.props[x].stage.Joining?
         && (s.suspended <==> |s.members| - (if cause.Joined? then 1 else 0) <= s.cfg.rep / 2)
         && (cause.Joined? ==> !s.childWatch)
  }

  /** The peer the watcher is bringing in: connected, its recovery not yet complete. */
  predicate MidJoin(s: State, p: Addr) {
    (s.watcher.Connected? || s.watcher.Resyncing?) && s.watcher.peer == p
  }

  ghost predicate PeersOk(s: State) {
    forall p :: p in s.props ==>
      && PeerOk(s.cfg.size, s.hist, s.Posted(), s.props[p])
      && QueueOk(s.cfg.sync, s.Posted(), s.props[p])
      && (s.props[p].stage.Live? || MidJoin(s, p))
  }

  /** While a write is being polled for, only peers it was posted to and that have not marked
      its token owe it. */
  ghost predicate PendingOk(s: State) {
    s.writer.Waiting? ==>
      && s.hist != [] && |s.writer.tokens| <= s.cfg.rep && s.writer.marked <= s.writer.tokens
      && Owing(s, |s.hist| - 1) <= s.writer.tokens - s.writer.marked
      && (forall p :: p in s.props && s.props[p].posted != [] ==> p in s.writer.tokens)
  }

  ghost predicate AcksOk(s: State) {
    && (forall w :: w in s.acked ==> w < s.Posted() && |Owing(s, w)| <= Slack(s.cfg))
    && PendingOk(s)
  }

  ghost predicate Core(s: State) {
    ClientOk(s) && MembershipOk(s) && PeersOk(s) && AcksOk(s)
  }

  /** A server that left: a complete replica of what was posted to it, as far as it has arrived. */
  ghost predicate LeftOk(size: nat, h: seq<Op>, n: nat, p: Peer) {
    p.stage.Live? && exists k: nat :: k <= n && PeerOk(size, h, k, p)
  }

  ghost predicate DepartedOk(s: State) {
    forall p :: p in s.departed ==> p !in s.props && LeftOk(s.cfg.size, s.hist, s.Posted(), s.departed[p])
  }

  ghost predicate Inv(s: State) {
    Core(s) && DepartedOk(s)
  }

  lemma ClientSize(s: State)
    requires ClientOk(s)
    ensures |s.buffer| == s.cfg.size
  {
  }

  lemma ClientSame(s: State, t: State)
    requires ClientOk(s) && t.cfg == s.cfg && t.hist == s.hist
    requires t.buffer == s.buffer && t.fileSize == s.fileSize && t.word == s.word && t.seqNext == s.seqNext
    requires t.writer == s.writer || !t.writer.Begun?
    ensures ClientOk(t)
  {
  }

  lemma InitialInv(s: State)
    requires Initial(s)
    ensures Inv(s)
  {
    assert s.props.Keys == s.members;
    assert s.hist == [];
    forall p | p in s.props
      ensures PeerOk(s.cfg.size, s.hist, 0, s.props[p]) && QueueOk(s.cfg.sync, 0, s.props[p])
    {
      assert s.props[p] == FreshPeer(s.cfg.size).(stage := Live(0));
    }
  }

  /** Acknowledged writes stay covered when no peer comes to owe more than before. */
  lemma AcksShrink(s: State, t: State)
    requires AcksOk(s) && t.cfg == s.cfg && t.acked == s.acked && t.Posted() >= s.Posted()
    requires forall w :: w in s.acked ==> Owing(t, w) <= Owing(s, w)
    requires PendingOk(t)
    ensures AcksOk(t)
  {
    hide PeerOk, QueueOk, Replay, FileLen, OpsFit;
    forall w | w in t.acked ensures |Owing(t, w)| <= Slack(t.cfg) {
      SubsetCard(Owing(t, w), Owing(s, w));
    }
  }

  /** One connection changes and comes to owe no more than it did. */
  lemma OnePeer(s: State, t: State, p: Addr, q: Peer)
    requires PeersOk(s) && p in s.props
    requires t.cfg == s.cfg && t.hist == s.hist && t.Posted() == s.Posted() && t.props == s.props[p := q]
    requires PeerOk(s.cfg.size, s.hist, s.Posted(), q) && QueueOk(s.cfg.sync, s.Posted(), q)
    requires q.stage.Live? || MidJoin(t, p)
    requires forall x :: x != p && MidJoin(s, x) ==> MidJoin(t, x)
    requires Settled(s.Posted(), q) >= Settled(s.Posted(), s.props[p])
    ensures PeersOk(t)
    ensures forall w :: Owing(t, w) <= Owing(s, w)
  {
    hide PeerOk, QueueOk, Settled, NextStage;
  }

  lemma BeginWriteClient(s: State, op: Op)
    requires ClientOk(s) && Enabled(s, BeginWrite(op))
    ensures ClientOk(Next(s, BeginWrite(op)))
  {
    var t := Next(s, BeginWrite(op));
    var n := |s.hist|;
    assert OpsFit(s.cfg.size, t.hist);
    ReplayExtend(s.cfg.size, s.hist, op, n);
    ReplayLast(s.cfg.size, s.hist, op);
    CounterNext(n);
    hide Replay, FileLen, OpsFit, NumOf;
    assert t.buffer[op.off..op.off + |op.bytes|] == op.bytes;
    hide Splice;
  }

  lemma CounterNext(n: nat)
    ensures NumOf(n + 1) == n % TWO64 && (n % TWO64 + 1) % TWO64 == (n + 1) % TWO64
  {
  }

  lemma ReplayLast(size: nat, h: seq<Op>, op: Op)
    requires OpsFit(size, h) && OpsFit(size, h + [op]) && op.off + |op.bytes| <= size
    ensures Replay(size, h + [op], |h| + 1) == Splice(Replay(size, h, |h|), op.off, op.bytes)
    ensures FileLen(h + [op], |h| + 1) == Max(FileLen(h, |h|), op.off + |op.bytes|)
  {
    ReplayExtend(size, h, op, |h|);
    assert (h + [op])[|h|] == op;
  }

  lemma BeginWriteInv(s: State, op: Op)
    requires Inv(s) && Enabled(s, BeginWrite(op))
    ensures Core(Next(s, BeginWrite(op)))
  {
    hide PeerOk, QueueOk, ClientOk;
    var t := Next(s, BeginWrite(op));
    BeginWriteClient(s, op);
    assert |s.buffer| == s.cfg.size by { ClientSize(s); }
    assert t.Posted() == s.Posted() == |s.hist|;
    forall p | p in t.props ensures PeerOk(t.cfg.size, t.hist, t.Posted(), t.props[p]) {
      PeerOkExtend(s.cfg.size, s.hist, op, s.Posted(), s.props[p]);
    }
    AcksShrink(s, t);
  }

  lemma PostInv(s: State)
    requires Inv(s) && Enabled(s, Post)
    ensures Core(Next(s, Post))
  {
    hide PeerOk, QueueOk, Replay, FileLen, OpsFit;
    var t := Next(s, Post);
    var n := s.Posted();
    var op := s.hist[n];
    assert t.Posted() == n + 1 == |s.hist|;
    forall p | p in t.props
      ensures PeerOk(t.cfg.size, t.hist, n + 1, t.props[p]) && QueueOk(t.cfg.sync, n + 1, t.props[p])
      ensures Settled(n + 1, t.props[p]) >= Settled(n, s.props[p])
      ensures t.props[p].stage == s.props[p].stage
    {
      assert t.props[p] == PostTo(s.props[p], n, op.off, op.bytes, NumOf(n + 1), !s.cfg.sync);
      PeerOkPost(s.cfg.size, s.hist, n, s.props[p], !s.cfg.sync);
      QueuePost(s.cfg.sync, n, s.props[p], op.off, op.bytes, NumOf(n + 1));
      SettledPost(s.cfg.size, s.hist, n, s.props[p], op.off, op.bytes, NumOf(n + 1), !s.cfg.sync);
    }
    assert t.props.Keys == s.props.Keys;
    AcksShrink(s, t);
  }

  lemma DeliverMembership(s: State, p: Addr)
    requires MembershipOk(s) && Enabled(s, Deliver(p))
    ensures MembershipOk(Next(s, Deliver(p)))
  {
    hide Fits, Splice;
  }

  lemma DeliveredStays(s: State, p: Addr)
    requires PeersOk(s) && Enabled(s, Deliver(p))
    ensures DeliverAt(s.props[p]).stage.Live? || MidJoin(s, p)
  {
    hide PeerOk, QueueOk, Fits, Splice;
  }

  lemma DeliverInv(s: State, p: Addr)
    requires Inv(s) && Enabled(s, Deliver(p))
    ensures Core(Next(s, Deliver(p)))
  {
    hide PeerOk, QueueOk, ClientOk, Settled, Owing, AcksOk, MembershipOk, DepartedOk, NextStage;
    var t := Next(s, Deliver(p));
    ClientSame(s, t);
    DeliverMembership(s, p);
    DeliveredStays(s, p);
    PeerOkDeliver(s.cfg.size, s.hist, s.Posted(), s.props[p]);
    QueueDeliver(s.cfg.sync, s.Posted(), s.props[p]);
    SettledDeliver(s.cfg.size, s.hist, s.Posted(), s.props[p]);
    OnePeer(s, t, p, DeliverAt(s.props[p]));
    PendingOne(s, t, p, DeliverAt(s.props[p]));
    AcksShrink(s, t);
  }

  /** The peer whose token was just marked does not owe the pending write. */
  lemma PollPending(s: State, p: Addr)
    requires Inv(s) && Enabled(s, Poll(p)) && s.props[p].posted != []
    requires s.props[p].queue[0] == s.Posted() - |s.props[p].queue|
    requires forall w :: Owing(Next(s, Poll(p)), w) <= Owing(s, w)
    ensures PendingOk(Next(s, Poll(p)))
  {
    hide QueueOk, ClientOk, PeerOk;
    var n := s.Posted();
    if s.props[p].queue[0] == n - 1 && p in Owing(s, n - 1) {
      LastInFlight(s.cfg.size, s.hist, n, s.props[p]);
    }
  }

  lemma PollInv(s: State, p: Addr)
    requires Inv(s) && Enabled(s, Poll(p))
    ensures Core(Next(s, Poll(p)))
  {
    hide PeerOk, QueueOk, ClientOk, Owing, PendingOk;
    var t := Next(s, Poll(p));
    ClientSame(s, t);
    QueuePoll(s.Posted(), s.props[p]);
    PeerOkSame(s.cfg.size, s.hist, s.Posted(), s.props[p], PollAt(s.props[p]));
    OnePeer(s, t, p, PollAt(s.props[p]));
    PollPending(s, p);
    AcksShrink(s, t);
  }

  lemma AwaitInv(s: State, p: Addr)
    requires Inv(s) && Enabled(s, Await(p))
    ensures Core(Next(s, Await(p)))
  {
    hide PeerOk, QueueOk, ClientOk, Replay, FileLen, OpsFit;
    var t := Next(s, Await(p));
    ClientSame(s, t);
    var n := s.Posted();
    if Settled(n, s.props[p]) < n {
      LastInFlight(s.cfg.size, s.hist, n, s.props[p]);
    }
    assert Owing(t, n - 1) == Owing(s, n - 1);
    AcksShrink(s, t);
  }

  lemma PeersSame(s: State, t: State)
    requires PeersOk(s) && t.cfg == s.cfg && t.hist == s.hist && t.Posted() == s.Posted()
    requires forall p :: p in t.props ==> p in s.props && t.props[p] == s.props[p]
    requires forall p :: p in t.props && MidJoin(s, p) ==> MidJoin(t, p)
    ensures PeersOk(t)
    ensures forall w :: Owing(t, w) <= Owing(s, w)
  {
    hide PeerOk, QueueOk, Settled;
  }

  lemma ReturnInv(s: State, e: Event)
    requires Inv(s) && Enabled(s, e) && (e.ReturnQuorum? || e.ReturnShort? || e.ReturnSync?)
    ensures Core(Next(s, e))
  {
    hide PeerOk, QueueOk, ClientOk, PeersOk, Owing;
    var t := Next(s, e);
    ClientSame(s, t);
    PeersSame(s, t);
    AckCovered(s, e);
    hide AcksOk, PendingOk;
  }

  /** A quorum of marked tokens leaves few enough peers owing the write. */
  lemma AckCovered(s: State, e: Event)
    requires AcksOk(s) && Enabled(s, e) && (e.ReturnQuorum? || e.ReturnShort? || e.ReturnSync?)
    requires forall w :: Owing(Next(s, e), w) <= Owing(s, w)
    ensures AcksOk(Next(s, e))
  {
    hide Owing;
    var t := Next(s, e);
    SubsetCard(Owing(s, |s.hist| - 1), s.writer.tokens - s.writer.marked);
    forall w | w in t.acked ensures |Owing(t, w)| <= Slack(t.cfg) {
      SubsetCard(Owing(t, w), Owing(s, w));
    }
  }

  /** Connecting a peer: whatever region it offers, it owes nothing. */
  lemma ConnectedInv(s: State, x: Addr, cause: Cause)
    requires ClientOk(s) && PeersOk(s) && AcksOk(s) && DepartedOk(s) && s.watcher.Quiet?
    requires s.members == s.props.Keys && x !in s.members
    ensures var t := ConnectedTo(s, x, cause);
            && ClientOk(t) && PeersOk(t) && AcksOk(t)
            && t.members == t.props.Keys && t.props[x].stage.Joining?
  {
    hide PeerOk, QueueOk, Replay, FileLen, OpsFit, DepartedOk;
    var t := ConnectedTo(s, x, cause);
    assert t.hist == s.hist && t.Posted() == s.Posted();
    assert OpsFit(s.cfg.size, s.hist);
    JoiningPeerOk(s, x);
    forall p | p in t.props
      ensures PeerOk(t.cfg.size, t.hist, t.Posted(), t.props[p]) && QueueOk(t.cfg.sync, t.Posted(), t.props[p])
      ensures t.props[p].stage.Live? || p == x
    {
      if p != x {
        assert p in s.props && t.props[p] == s.props[p];
      }
    }
    forall w | w < s.Posted() ensures Owing(t, w) <= Owing(s, w) {
    }
    AcksShrink(s, t);
  }

  /** Dropping a connection between events: what it posted stays a replica in the making. */
  lemma DroppedInv(s: State, p: Addr, kept: bool)
    requires Inv(s) && s.watcher.Quiet? && p in s.props
    ensures var t := Dropped(s, p, kept);
            && ClientOk(t) && PeersOk(t) && AcksOk(t) && DepartedOk(t)
            && t.members == t.props.Keys && |t.members| == |s.members| - 1
  {
    hide PeerOk, QueueOk, ClientOk, PeersOk, AcksOk;
    var t := Dropped(s, p, kept);
    assert |s.members - {p}| == |s.members| - 1;
    ClientSame(s, t);
    PeersSame(s, t);
    PendingFewer(s, t);
    AcksShrink(s, t);
    LiveMember(s, p);
  }

  /** Between watcher events every peer is a replica. */
  lemma LiveMember(s: State, p: Addr)
    requires PeersOk(s) && s.watcher.Quiet? && p in s.props
    ensures LeftOk(s.cfg.size, s.hist, s.Posted(), s.props[p])
  {
    hide PeerOk, QueueOk;
  }

  /** Nothing but watcher flags changes. */
  lemma QuietStep(s: State, t: State)
    requires ClientOk(s) && PeersOk(s) && AcksOk(s) && DepartedOk(s) && s.watcher.Quiet?
    requires t == s.(watcher := t.watcher, suspended := t.suspended, childWatch := t.childWatch, record := t.record)
    ensures ClientOk(t) && PeersOk(t) && AcksOk(t) && DepartedOk(t)
  {
    hide PeerOk, QueueOk, ClientOk, PeersOk, AcksOk;
    ClientSame(s, t);
    PeersSame(s, t);
    PendingFewer(s, t);
    AcksShrink(s, t);
  }

  lemma PeerReplacedInv(s: State, p: Addr, kept: bool, x: Addr)
    requires Inv(s) && s.watcher.Quiet? && p in s.members && p in s.props && x !in s.members - {p}
    ensures Core(ConnectedTo(Dropped(s, p, kept), x, Deleted))
  {
    hide PeerOk, QueueOk, ClientOk, PeersOk, AcksOk, DepartedOk, JoiningPeer, FreshPeer;
    var t := Dropped(s, p, kept);
    DroppedInv(s, p, kept);
    ConnectedInv(t, x, Deleted);
    assert |t.members + {x}| == |s.members|;
  }

  lemma PeerLostInv(s: State, p: Addr, kept: bool)
    requires Inv(s) && s.watcher.Quiet? && p in s.members && p in s.props
    ensures Enabled(s, PeerDeleted(p, kept, None)) && Core(Next(s, PeerDeleted(p, kept, None)))
  {
    hide PeerOk, QueueOk, ClientOk, PeersOk, AcksOk, DepartedOk, JoiningPeer, FreshPeer;
    DroppedInv(s, p, kept);
    QuietStep(Dropped(s, p, kept), PeerDeletedStep(s, p, kept, None));
  }

  lemma PeerDeletedInv(s: State, p: Addr, kept: bool, replacement: Option<Addr>)
    requires Inv(s) && Enabled(s, PeerDeleted(p, kept, replacement))
    ensures Core(Next(s, PeerDeleted(p, kept, replacement)))
  {
    hide Inv, Core, Dropped, ConnectedTo;
    match replacement
    case Some(x) => PeerReplacedInv(s, p, kept, x);
    case None => PeerLostInv(s, p, kept);
  }

  /** Dropping connections leaves a pending write no worse off. */
  lemma PendingFewer(s: State, t: State)
    requires AcksOk(s) && t.hist == s.hist && t.writer == s.writer && t.cfg == s.cfg && t.acked == s.acked
    requires forall p :: p in t.props ==> p in s.props && t.props[p] == s.props[p]
    requires forall w :: Owing(t, w) <= Owing(s, w)
    ensures PendingOk(t)
    ensures forall w :: w in s.acked ==> Owing(t, w) <= Owing(s, w)
  {
    hide Owing;
  }

  lemma SuspendInv(s: State)
    requires Inv(s) && Enabled(s, Suspend)
    ensures Core(Next(s, Suspend))
  {
    hide PeerOk, QueueOk, ClientOk, PeersOk, AcksOk;
    var t := Next(s, Suspend);
    ClientSame(s, t);
    PeersSame(s, t);
    PendingFewer(s, t);
    AcksShrink(s, t);
  }

  lemma ChildEventInv(s: State, found: Option<Addr>)
    requires Inv(s) && Enabled(s, ChildEvent(found))
    ensures Core(Next(s, ChildEvent(found)))
  {
    hide PeerOk, QueueOk, ClientOk, PeersOk, AcksOk;
    var t := Next(s, ChildEvent(found));
    match found
    case Some(x) =>
      var u := s.(childWatch := false);
      QuietStep(s, u);
      ConnectedInv(u, x, Joined);
      assert |t.members| == |s.members| + 1;
    case None =>
      ClientSame(s, t);
      PeersSame(s, t);
      PendingFewer(s, t);
      AcksShrink(s, t);
  }

  lemma RecoverPostInv(s: State)
    requires Inv(s) && Enabled(s, RecoverPost)
    ensures Core(Next(s, RecoverPost))
  {
    hide PeerOk, QueueOk, Replay, FileLen, OpsFit, Owing, AcksOk;
    var t := Next(s, RecoverPost);
    var x := s.watcher.peer;
    var n := s.Posted();
    ReplayBounds(s.cfg.size, s.hist, |s.hist|);
    assert s.fileSize % TWO32 == s.fileSize;
    var q := SnapshotTo(s.props[x], s.buffer[..s.fileSize], s.word, n, |s.hist|);
    PeerOkSnapshot(s.cfg.size, s.hist, n, s.props[x]);
    QueueSnapshot(s.cfg.sync, n, s.props[x], s.buffer[..s.fileSize], s.word, n, |s.hist|);
    ClientSame(s, t);
    OnePeer(s, t, x, q);
    PendingOne(s, t, x, q);
    AcksShrink(s, t);
  }

  /** A connection that keeps its posted tokens and owes no more leaves a pending write no
      worse off. */
  lemma PendingOne(s: State, t: State, p: Addr, q: Peer)
    requires AcksOk(s) && t.hist == s.hist && t.writer == s.writer && t.cfg == s.cfg && t.acked == s.acked
    requires p in s.props && t.props == s.props[p := q] && q.posted == s.props[p].posted
    requires forall w :: Owing(t, w) <= Owing(s, w)
    ensures PendingOk(t)
    ensures forall w :: w in s.acked ==> Owing(t, w) <= Owing(s, w)
  {
    hide Owing;
  }

  /** Until its region is a replica a peer still has a recovery write in flight. */
  lemma StillSyncing(size: nat, h: seq<Op>, n: nat, p: Peer)
    requires PeerOk(size, h, n, p) && !p.stage.Joining? && !p.stage.Live?
    ensures !Completed(p, SyncTok)
  {
    assert p.chan[if p.stage.Syncing? then p.stage.ahead else 0].tok == SyncTok;
  }

  lemma RecoverDoneInv(s: State)
    requires Inv(s) && Enabled(s, RecoverDone)
    ensures Core(Next(s, RecoverDone))
  {
    hide PeerOk, QueueOk, ClientOk, Owing, AcksOk;
    var t := Next(s, RecoverDone);
    var x := s.watcher.peer;
    ClientSame(s, t);
    if !s.props[x].stage.Live? {
      StillSyncing(s.cfg.size, s.hist, s.Posted(), s.props[x]);
    }
    assert PeersOk(t);
    assert forall w :: Owing(t, w) <= Owing(s, w) by { OwingSame(s, t); }
    PendingFewer(s, t);
    AcksShrink(s, t);
  }

  lemma OwingSame(s: State, t: State)
    requires t.props == s.props && t.Posted() == s.Posted()
    ensures forall w :: Owing(t, w) <= Owing(s, w)
  {
  }

  /** What happens at departed servers is invisible to the client. */
  lemma ElsewhereInv(s: State, e: Event)
    requires Inv(s) && Enabled(s, e) && (e.Arrive? || e.Restart?)
    ensures Core(Next(s, e))
  {
    hide PeerOk, QueueOk, ClientOk, PeersOk, AcksOk, DepartedOk;
    var t := Next(s, e);
    ClientSame(s, t);
    PeersSame(s, t);
    PendingFewer(s, t);
    AcksShrink(s, t);
  }

  lemma NextCore(s: State, e: Event)
    requires Inv(s) && Enabled(s, e)
    ensures Core(Next(s, e))
  {
    hide Inv, Core, Enabled;
    match e
    case BeginWrite(op) => BeginWriteInv(s, op);
    case Post => PostInv(s);
    case Deliver(p) => DeliverInv(s, p);
    case Poll(p) => PollInv(s, p);
    case Await(p) => AwaitInv(s, p);
    case ReturnQuorum => ReturnInv(s, e);
    case ReturnShort => ReturnInv(s, e);
    case ReturnSync => ReturnInv(s, e);
    case PeerDeleted(p, kept, replacement) => PeerDeletedInv(s, p, kept, replacement);
    case Suspend => SuspendInv(s);
    case ChildEvent(found) => ChildEventInv(s, found);
    case RecoverPost => RecoverPostInv(s);
    case RecoverDone => RecoverDoneInv(s);
    case Arrive(p) => ElsewhereInv(s, e);
    case Restart(p) => ElsewhereInv(s, e);
  }

  /** A departed server's replica outlives the writes that come after it. */
  lemma LeftExtend(size: nat, h: seq<Op>, op: Op, n: nat, p: Peer)
    requires LeftOk(size, h, n, p) && op.off + |op.bytes| <= size
    ensures LeftOk(size, h + [op], n, p)
  {
    hide PeerOk;
    var k: nat :| k <= n && PeerOk(size, h, k, p);
    PeerOkExtend(size, h, op, k, p);
  }

  lemma LeftDeliver(size: nat, h: seq<Op>, n: nat, p: Peer)
    requires LeftOk(size, h, n, p) && p.chan != [] && Fits(p.chan[0], |p.data|)
    ensures LeftOk(size, h, n, DeliverAt(p))
  {
    hide PeerOk;
    var k: nat :| k <= n && PeerOk(size, h, k, p);
    PeerOkDeliver(size, h, k, p);
  }

  lemma DepartedSame(s: State, t: State)
    requires DepartedOk(s) && t.cfg == s.cfg && t.hist == s.hist && t.Posted() >= s.Posted()
    requires forall p :: p in t.departed ==> p in s.departed && t.departed[p] == s.departed[p] && p !in t.props
    ensures DepartedOk(t)
  {
    hide PeerOk;
  }

  lemma DepartedBegin(s: State, op: Op)
    requires Inv(s) && Enabled(s, BeginWrite(op))
    ensures DepartedOk(Next(s, BeginWrite(op)))
  {
    hide LeftOk, PeersOk, AcksOk, MembershipOk, Splice;
    var t := Next(s, BeginWrite(op));
    assert |s.buffer| == s.cfg.size by { ClientSize(s); }
    hide ClientOk;
    assert t.Posted() == s.Posted() && t.hist == s.hist + [op];
    forall p | p in t.departed ensures LeftOk(t.cfg.size, t.hist, t.Posted(), t.departed[p]) {
      LeftExtend(s.cfg.size, s.hist, op, s.Posted(), s.departed[p]);
    }
  }

  lemma NextDeparted(s: State, e: Event)
    requires Inv(s) && Enabled(s, e)
    ensures DepartedOk(Next(s, e))
  {
    hide PeerOk, LeftOk, DepartedOk, ClientOk, AcksOk, PeersOk, MembershipOk, Dropped, ConnectedTo, JoiningPeer;
    var t := Next(s, e);
    match e
    case BeginWrite(op) => DepartedBegin(s, op);
    case Arrive(p) => ArriveDeparted(s, p);
    case PeerDeleted(p, kept, replacement) => PeerDeletedDeparted(s, p, kept, replacement);
    case ChildEvent(found) => ChildEventDeparted(s, found);
    case Restart(p) => RestartDeparted(s, p);
    case _ =>
      assert t.departed == s.departed && t.props.Keys == s.props.Keys && t.hist == s.hist;
      DepartedKeys(s, t);
  }

  lemma DepartedKeys(s: State, t: State)
    requires DepartedOk(s) && t.cfg == s.cfg && t.hist == s.hist && t.Posted() >= s.Posted()
    requires t.departed == s.departed && t.props.Keys == s.props.Keys
    ensures DepartedOk(t)
  {
    hide LeftOk;
    forall p | p in t.departed ensures p !in t.props { }
    DepartedSame(s, t);
  }

  lemma ArriveDeparted(s: State, p: Addr)
    requires Inv(s) && Enabled(s, Arrive(p))
    ensures DepartedOk(Next(s, Arrive(p)))
  {
    hide LeftOk, Core, DeliverAt;
    LeftDeliver(s.cfg.size, s.hist, s.Posted(), s.departed[p]);
  }

  lemma RestartDeparted(s: State, p: Addr)
    requires Inv(s) && Enabled(s, Restart(p))
    ensures DepartedOk(Next(s, Restart(p)))
  {
    hide LeftOk, Core;
  }

  lemma ConnectDeparted(s: State, x: Addr, cause: Cause)
    requires DepartedOk(s)
    ensures DepartedOk(ConnectedTo(s, x, cause))
  {
    hide LeftOk, JoiningPeer;
  }

  lemma PeerDeletedDeparted(s: State, p: Addr, kept: bool, replacement: Option<Addr>)
    requires Inv(s) && Enabled(s, PeerDeleted(p, kept, replacement))
    ensures DepartedOk(Next(s, PeerDeleted(p, kept, replacement)))
  {
    hide Inv, LeftOk, ClientOk, PeersOk, AcksOk, DepartedOk, JoiningPeer, Dropped, ConnectedTo;
    DroppedInv(s, p, kept);
    var t := Dropped(s, p, kept);
    match replacement
    case Some(x) => ConnectDeparted(t, x, Deleted);
    case None => DepartedKeys(t, Next(s, PeerDeleted(p, kept, replacement)));
  }

  lemma ChildEventDeparted(s: State, found: Option<Addr>)
    requires Inv(s) && Enabled(s, ChildEvent(found))
    ensures DepartedOk(Next(s, ChildEvent(found)))
  {
    hide LeftOk, Core;
    DepartedSame(s, Next(s, ChildEvent(found)));
  }

  lemma NextInv(s: State, e: Event)
    requires Inv(s) && Enabled(s, e)
    ensures Inv(Next(s, e))
  {
    NextCore(s, e);
    NextDeparted(s, e);
  }

  lemma {:induction false} RunInv(s: State, es: seq<Event>)
    requires Inv(s) && Run(s, es).Some?
    ensures Inv(Run(s, es).value)
  {
    if es != [] {
      RunInv(s, es[..|es| - 1]);
      NextInv(Run(s, es[..|es| - 1]).value, es[|es| - 1]);
    }
  }

  lemma ReachableInv(t: State)
    requires Reachable(t)
    ensures Inv(t)
  {
    var s: State :| Initial(s) && Reaches(s, t);
    var es :| Run(s, es) == Some(t);
    InitialInv(s);
    RunInv(s, es);
  }
}
