/** What the protocol guarantees in every reachable state. */
module Guarantees {
  import opened Bytes
  import opened Replication
  import opened Invariant
  import opened Safety

  /** Peer p's region replays a prefix of the history that contains write w. */
  ghost predicate Holds(s: State, p: Addr, w: nat) {
    && p in s.props && OpsFit(s.cfg.size, s.hist)
    && exists m: nat :: w < m <= |s.hist| && s.props[p].data == Replay(s.cfg.size, s.hist, m)
  }

  ghost function Lacking(s: State, w: nat): set<Addr> {
    set p | p in s.members && !MidJoin(s, p) && !Holds(s, p, w)
  }

  /** What the invariant says of a peer whose recovery, if any, is over. */
  lemma Replica(s: State, p: Addr) returns (m: nat)
    requires Inv(s) && p in s.props && !MidJoin(s, p)
    ensures OpsFit(s.cfg.size, s.hist) && m <= |s.hist| && Settled(s.Posted(), s.props[p]) <= m
    ensures s.props[p].data == Replay(s.cfg.size, s.hist, m)
    ensures s.props[p].word == NumOf(m) ||
            (m > 0 && m > Settled(s.Posted(), s.props[p]) && s.props[p].word == NumOf(m - 1))
  {
    hide Replay, FileLen, NumOf;
    m := s.props[p].stage.applied;
    assert PeerOk(s.cfg.size, s.hist, s.Posted(), s.props[p]);
  }

  /** A replica holds every write it no longer owes. */
  lemma SettledHolds(s: State, p: Addr, w: nat)
    requires Inv(s) && p in s.props && !MidJoin(s, p) && w < Settled(s.Posted(), s.props[p])
    ensures Holds(s, p, w)
  {
    hide Inv;
    var m := Replica(s, p);
    assert s.props[p].data == Replay(s.cfg.size, s.hist, m);
  }

  /** Durability through membership change: of the current peers no more than
      rep - (rep/2 + 1) lack an acknowledged write, leaving aside the one whose recovery is
      under way; none do when every replica had to acknowledge. */
  lemma Durability(s: State, w: nat)
    requires Reachable(s) && w in s.acked
    ensures |Lacking(s, w)| <= Slack(s.cfg)
  {
    ReachableInv(s);
    forall p | p in Lacking(s, w) ensures p in Owing(s, w) {
      if Settled(s.Posted(), s.props[p]) > w {
        SettledHolds(s, p, w);
      }
    }
    SubsetCard(Lacking(s, w), Owing(s, w));
  }

  /** The largest acknowledged write. */
  lemma LastAck(acked: set<nat>) returns (top: nat)
    requires acked != {}
    ensures top in acked && forall w :: w in acked ==> w <= top
  {
    top :| top in acked;
    var rest := acked - {top};
    assert forall w :: w in acked ==> w == top || w in rest;
    if rest != {} {
      var t := LastAck(rest);
      if t > top { top := t; }
    }
  }

  /** Is the watcher bringing a peer in? */
  predicate InJoin(s: State) {
    s.watcher.Connected? || s.watcher.Resyncing?
  }

  /** The peers that may be relied on: all but the one the watcher is bringing in. */
  function Established(s: State): set<Addr> {
    if InJoin(s) then s.members - {s.watcher.peer} else s.members
  }

  /** Enough established members leave one that owes nothing acknowledged. */
  lemma SettledMember(s: State) returns (p: Addr)
    requires Inv(s) && |Established(s)| > Max(Slack(s.cfg), 0)
    ensures p in s.members && !MidJoin(s, p) && forall w :: w in s.acked ==> w < Settled(s.Posted(), s.props[p])
  {
    hide PeersOk, ClientOk, DepartedOk, Settled;
    var sure := Established(s);
    if s.acked == {} {
      p :| p in sure;
      return;
    }
    var top := LastAck(s.acked);
    if sure <= Owing(s, top) {
      SubsetCard(sure, Owing(s, top));
      assert false;
    }
    p :| p in sure && p !in Owing(s, top);
  }

  /** One current peer holds every acknowledged write. */
  ghost predicate OneHoldsAll(s: State) {
    exists p :: p in s.members && forall w :: w in s.acked ==> Holds(s, p, w)
  }

  /** A majority acknowledgement and a majority of peers meet in a peer even when one of the
      latter does not count: the replication factor is even, or everyone acknowledges and there
      is more than one. */
  predicate Overlaps(cfg: Config) {
    if cfg.sync then cfg.rep >= 2 else cfg.rep % 2 == 0
  }

  /** The acknowledgement threshold and the suspension threshold fit together: with more than
      half of the peers left, one of them holds every acknowledged write, outside the joining
      of a peer for every replication factor, and at any time when the two majorities overlap. */
  lemma OnePeerHoldsAll(s: State)
    requires Reachable(s) && |s.members| > s.cfg.rep / 2 && (Overlaps(s.cfg) || !InJoin(s))
    ensures OneHoldsAll(s)
  {
    ReachableInv(s);
    EnoughEstablished(s);
    var p := SettledMember(s);
    forall w | w in s.acked ensures Holds(s, p, w) {
      SettledHolds(s, p, w);
    }
  }

  lemma EnoughEstablished(s: State)
    requires s.cfg.rep >= 1 && |s.members| > s.cfg.rep / 2 && (Overlaps(s.cfg) || !InJoin(s))
    ensures |Established(s)| > Max(Slack(s.cfg), 0)
  {
    if InJoin(s) && s.watcher.peer in s.members {
      assert |s.members - {s.watcher.peer}| == |s.members| - 1;
    } else {
      assert Established(s) == s.members;
    }
  }

  /** While writes are not suspended between watcher events, more than half are left. */
  lemma UnsuspendedHoldsAll(s: State)
    requires Reachable(s) && s.watcher.Quiet? && !s.suspended
    ensures OneHoldsAll(s)
  {
    hide Reachable, OneHoldsAll;
    Membership(s);
    OnePeerHoldsAll(s);
  }

  /** Replica prefix: the region of an original or recovered peer replays the first m writes,
      and its sequence word names m or, with the data of one more write delivered, m - 1. */
  lemma ReplicaPrefix(s: State, p: Addr)
    requires Reachable(s) && p in s.props && !MidJoin(s, p)
    ensures OpsFit(s.cfg.size, s.hist)
    ensures exists m: nat ::
              && m <= |s.hist| && s.props[p].data == Replay(s.cfg.size, s.hist, m)
              && (s.props[p].word == NumOf(m) || (m > 0 && s.props[p].word == NumOf(m - 1)))
  {
    hide Inv;
    ReachableInv(s);
    var m := Replica(s, p);
    assert s.props[p].data == Replay(s.cfg.size, s.hist, m);
  }

  /** Before the counter wraps, the word pins the prefix down to two candidates. */
  lemma WordIdentifies(m: nat, word: nat)
    requires m < TWO64 && (word == NumOf(m) || (m > 0 && word == NumOf(m - 1)))
    ensures m == word + 1 || m == word + 2 || m == word == 0
  {
  }

  lemma MarkedSettles(s: State, p: Addr, t: nat)
    requires Inv(s) && !s.cfg.sync && p in s.props && s.props[p].stage.Live? && t in s.props[p].marked
    ensures t < Settled(s.Posted(), s.props[p])
  {
    hide Replay, FileLen, OpsFit, NumOf, ClientOk, AcksOk;
    var c, n := s.props[p], s.Posted();
    if c.chan != [] {
      assert c.chan[0] == MsgAt(s.hist, 2 * n - |c.chan| + 0);
    }
  }

  /** Token queue: what was posted to a peer is a run of consecutive writes, the marked tokens
      are its beginning and the op_queue the rest in order; a marked token means this write and
      every earlier one posted there has been applied. */
  lemma TokenQueue(s: State, p: Addr)
    requires Reachable(s) && p in s.props && !s.cfg.sync
    ensures var c := s.props[p];
            && |c.queue| <= |c.posted|
            && c.queue == c.posted[|c.posted| - |c.queue|..]
            && (forall j :: 0 <= j < |c.posted| ==> (c.posted[j] in c.marked <==> j < |c.posted| - |c.queue|))
            && (forall i, j :: 0 <= i < j < |c.posted| ==> c.posted[i] < c.posted[j])
    ensures forall t, u :: t in s.props[p].marked && u <= t ==> Completed(s.props[p], WriteTok(u))
    ensures forall t :: t in s.props[p].marked && !MidJoin(s, p) ==> Holds(s, p, t)
  {
    ReachableInv(s);
    var c := s.props[p];
    var n := s.Posted();
    assert QueueOk(false, n, c);
    forall t | t in c.marked && !MidJoin(s, p) ensures Holds(s, p, t) {
      MarkedSettles(s, p, t);
      SettledHolds(s, p, t);
    }
  }

  lemma DrainedIsReplica(size: nat, h: seq<Op>, p: Peer)
    requires PeerOk(size, h, |h|, p) && p.chan == [] && !p.stage.Joining?
    ensures p.data == Replay(size, h, |h|) && p.word == NumOf(|h|)
  {
  }

  /** Convergence: with every posted message delivered, every peer that is not still waiting
      for recoverPeer has exactly the client's bytes and the client's word. */
  lemma Convergence(s: State, p: Addr)
    requires Reachable(s) && p in s.props && !s.writer.Begun?
    requires s.props[p].chan == [] && !(s.watcher.Connected? && s.watcher.peer == p)
    ensures s.props[p].data == s.buffer && s.props[p].word == s.word
  {
    ReachableInv(s);
    hide PeerOk, QueueOk, Replay, FileLen;
    DrainedIsReplica(s.cfg.size, s.hist, s.props[p]);
  }

  /** Nothing posted ever blocks: whatever is first in a channel can be delivered. */
  lemma DeliveryNeverStuck(s: State, p: Addr)
    requires Reachable(s) && p in s.props && s.props[p].chan != []
    ensures Enabled(s, Deliver(p))
  {
    ReachableInv(s);
    HeadFits(s.cfg.size, s.hist, s.Posted(), s.props[p]);
  }

  /** Membership: after every watcher event the peer set is the connection table's key set, at
      most rep_factor strong, the child watch is only armed below full strength, and writes are
      suspended exactly when half or fewer of the replicas are left. */
  lemma Membership(s: State)
    requires Reachable(s)
    ensures s.members == s.props.Keys && |s.members| <= s.cfg.rep
    ensures s.childWatch ==> |s.members| < s.cfg.rep
    ensures s.watcher.Quiet? ==> (s.suspended <==> |s.members| <= s.cfg.rep / 2)
  {
    ReachableInv(s);
  }

  /** While writes are suspended nothing is posted to anyone but the snapshot of a recovery. */
  lemma SuspendedPostsNothing(s: State, e: Event, t: State, p: Addr)
    requires !s.cfg.sync && s.suspended && Enabled(s, e) && t == Next(s, e)
    requires p in s.props && p in t.props && !e.PeerDeleted? && s.members == s.props.Keys
    ensures t.props[p].posted == s.props[p].posted && |t.props[p].queue| <= |s.props[p].queue|
    ensures || t.props[p].chan == s.props[p].chan
            || (s.props[p].chan != [] && t.props[p].chan == s.props[p].chan[1..])
            || (e.RecoverPost? && MidJoin(s, p))
  {
    hide Completed, Splice, NextStage, JoiningPeer;
  }

  /** A polling call may return if and only if half or fewer of the peers are left or more than half
      of the replicas have marked the write. */
  lemma MayReturnIff(s: State)
    requires Reachable(s) && !s.cfg.sync && s.writer.Waiting?
    ensures Enabled(s, ReturnQuorum) || Enabled(s, ReturnShort)
            <==> |s.members| <= s.cfg.rep / 2 || |s.writer.marked| > s.cfg.rep / 2
    ensures !(Enabled(s, ReturnQuorum) && Enabled(s, ReturnShort))
  {
    ReachableInv(s);
  }
}
