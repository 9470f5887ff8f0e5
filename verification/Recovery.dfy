/** Recovery after a client crash: which peer TryRecover reads from, what it rebuilds, and what
    it leaves on the peers. */
module Recovery {
  import opened Bytes
  import opened Replication
  import opened Invariant
  import opened Safety
  import opened Guarantees

  /** A memory region as GET_INFO reports it. */
  datatype Region = Region(data: seq<byte>, word: nat)

  /** The regions the new client is connected to: the membership record names the servers. A
      server the crashed client no longer had offers the region it kept, if it kept any. */
  function Connections(s: State): map<Addr, Region> {
    map p | p in s.record ::
      if p in s.props then Region(s.props[p].data, s.props[p].word)
      else if p in s.departed then Region(s.departed[p].data, s.departed[p].word)
      else Region(Zeros(s.cfg.size), 0)
  }

  /** A peer whose sequence number getRecoverSrcPeer considers at all. */
  predicate Candidate(r: Region) {
    r.word != 0 && r.word < TWO64 - 1
  }

  /** The peer getRecoverSrcPeer settles on: smallest non-zero sequence number. */
  predicate IsSource(conns: map<Addr, Region>, src: Option<Addr>) {
    match src
    case Some(a) =>
      && a in conns && Candidate(conns[a])
      && (forall b :: b in conns && Candidate(conns[b]) ==> conns[a].word <= conns[b].word)
    case None => forall b :: b in conns ==> !Candidate(conns[b])
  }

  datatype Restored = Restored(buffer: seq<byte>, fileSize: nat, regions: map<Addr, Region>)

  function RecoverSize(conns: map<Addr, Region>, src: Option<Addr>): nat
    requires IsSource(conns, src)
  {
    if src.Some? then UsedSize(conns[src.value].data) else 0
  }

  /** syncPeerAfterRecover's write: the file and the fresh client's sequence word, which is 0. */
  function SyncedWith(r: Region, file: seq<byte>): Region
    requires |file| <= |r.data|
  {
    Region(Splice(r.data, 0, file), 0)
  }

  /** TryRecover on a client with a zero buffer of `size` bytes. */
  function TryRecover(size: nat, conns: map<Addr, Region>, src: Option<Addr>): (r: Restored)
    requires size < TWO32 && IsSource(conns, src)
    requires forall p :: p in conns ==> |conns[p].data| == size
    ensures |r.buffer| == size && r.fileSize <= size && r.regions.Keys == conns.Keys
  {
    hide UsedSize, Candidate;
    var k := RecoverSize(conns, src);
    var buffer := if k > 0 then Splice(Zeros(size), 0, conns[src.value].data[..k]) else Zeros(size);
    Restored(buffer, k,
             map p | p in conns :: if src == Some(p) then conns[p] else SyncedWith(conns[p], buffer[..k % TWO32]))
  }

  /** Reconnecting a server changes nothing in what a recovering client would find. */
  lemma ReconnectKeeps(s: State, x: Addr, cause: Cause)
    requires x !in s.props
    ensures Connections(ConnectedTo(s, x, cause)) == Connections(s)
  {
  }

  /** Nor does dropping one that keeps its region; one that does not is found empty. */
  lemma DropKeeps(s: State, p: Addr, kept: bool)
    requires p in s.props && p !in s.departed
    ensures Connections(Dropped(s, p, kept)) ==
            if kept || p !in s.record then Connections(s) else Connections(s)[p := Region(Zeros(s.cfg.size), 0)]
  {
  }

  lemma ConnectionSizes(s: State)
    requires Inv(s)
    ensures forall p :: p in Connections(s) ==> |Connections(s)[p].data| == s.cfg.size
    ensures s.cfg.size < TWO32
  {
    forall p | p in Connections(s) ensures |Connections(s)[p].data| == s.cfg.size {
      if p in s.props {
        assert PeerOk(s.cfg.size, s.hist, s.Posted(), s.props[p]);
      } else if p in s.departed {
        assert LeftOk(s.cfg.size, s.hist, s.Posted(), s.departed[p]);
      }
    }
  }

  lemma BufferIsSource(size: nat, conns: map<Addr, Region>, src: Option<Addr>)
    requires size < TWO32 && IsSource(conns, src)
    requires forall p :: p in conns ==> |conns[p].data| == size
    ensures var r := TryRecover(size, conns, src);
            && r.buffer == (if src.Some? then conns[src.value].data else Zeros(size))
            && r.fileSize == UsedSize(r.buffer) && r.fileSize < TWO32
  {
    if src.Some? {
      UsedRestores(conns[src.value].data);
    }
  }

  /** A peer whose recovery has not brought it the snapshot's data yet. */
  predicate Unsynced(s: State, p: Addr) {
    p in s.props && (s.props[p].stage.Joining? || s.props[p].stage.Syncing?)
  }

  /** The word names the prefix, or the one before it while a word is under way. */
  predicate WordNames(word: nat, m: nat) {
    word == NumOf(m) || (m > 0 && word == NumOf(m - 1))
  }

  lemma CurrentReplica(s: State, p: Addr) returns (m: nat)
    requires Inv(s) && p in s.props && !Unsynced(s, p)
    ensures OpsFit(s.cfg.size, s.hist) && m <= |s.hist| && Settled(s.Posted(), s.props[p]) <= m
    ensures s.props[p].data == Replay(s.cfg.size, s.hist, m)
    ensures s.props[p].stage.Live? ==>
              && WordNames(s.props[p].word, m)
              && (s.props[p].word == NumOf(m) || m > Settled(s.Posted(), s.props[p]))
  {
    hide Replay, FileLen, NumOf;
    m := if s.props[p].stage.Live? then s.props[p].stage.applied else s.props[p].stage.upto;
    assert PeerOk(s.cfg.size, s.hist, s.Posted(), s.props[p]);
  }

  lemma DepartedReplica(s: State, p: Addr) returns (m: nat)
    requires Inv(s) && p in s.departed
    ensures OpsFit(s.cfg.size, s.hist) && m <= |s.hist|
    ensures s.departed[p].data == Replay(s.cfg.size, s.hist, m) && WordNames(s.departed[p].word, m)
  {
    hide Replay, FileLen, NumOf;
    m := s.departed[p].stage.applied;
    assert LeftOk(s.cfg.size, s.hist, s.Posted(), s.departed[p]);
  }

  /** The prefix a source replays. */
  lemma SourcePrefix(s: State, a: Addr) returns (m: nat)
    requires Inv(s) && IsSource(Connections(s), Some(a)) && !Unsynced(s, a)
    ensures OpsFit(s.cfg.size, s.hist)
    ensures m <= |s.hist| && Connections(s)[a].data == Replay(s.cfg.size, s.hist, m)
    ensures a in s.props ==> m >= Settled(s.Posted(), s.props[a])
    ensures a in s.record && Connections(s)[a].word != 0
    ensures (a in s.props && s.props[a].stage.SyncingWord?) || WordNames(Connections(s)[a].word, m)
  {
    hide Inv, Replay, NumOf, Settled, OpsFit;
    if a in s.props {
      m := CurrentReplica(s, a);
    } else {
      assert a in s.departed;
      m := DepartedReplica(s, a);
    }
  }

  /** Recovery never mixes states: whatever the replication factor, unless the source is a peer
      still waiting for the snapshot of its own recovery, the rebuilt buffer is the source's
      whole region, hence a single prefix of the history, and the file size falls short of that
      prefix's length by zero bytes only. Before the counter wraps the number the source answered
      names the prefix, up to one write. */
  lemma NeverMixes(s: State, a: Addr)
    requires Reachable(s) && IsSource(Connections(s), Some(a)) && !Unsynced(s, a)
    ensures s.cfg.size < TWO32 && OpsFit(s.cfg.size, s.hist)
    ensures forall p :: p in Connections(s) ==> |Connections(s)[p].data| == s.cfg.size
    ensures var r := TryRecover(s.cfg.size, Connections(s), Some(a));
            && r.buffer == Connections(s)[a].data
            && exists m: nat ::
                 && m <= |s.hist| && r.buffer == Replay(s.cfg.size, s.hist, m)
                 && r.fileSize <= FileLen(s.hist, m)
                 && (forall i :: r.fileSize <= i < FileLen(s.hist, m) && i < |r.buffer| ==> r.buffer[i] == 0)
                 && (|s.hist| < TWO64 && !(a in s.props && s.props[a].stage.SyncingWord?) ==>
                       m == Connections(s)[a].word + 1 || m == Connections(s)[a].word + 2)
  {
    hide Inv, TryRecover, Unsynced, IsSource, Replay, FileLen, NumOf, Reachable, OpsFit, UsedSize;
    ReachableInv(s);
    var m := SourcePrefix(s, a);
    ConnectionSizes(s);
    BufferIsSource(s.cfg.size, Connections(s), Some(a));
    ReplayBounds(s.cfg.size, s.hist, m);
    var r := TryRecover(s.cfg.size, Connections(s), Some(a));
    UsedBelow(r.buffer, FileLen(s.hist, m));
    if |s.hist| < TWO64 && !(a in s.props && s.props[a].stage.SyncingWord?) {
      WordIdentifies(m, Connections(s)[a].word);
    }
    assert r.buffer == Replay(s.cfg.size, s.hist, m);
  }

  lemma UsedBelow(s: seq<byte>, k: nat)
    requires ZeroFrom(s, k)
    ensures UsedSize(s) <= k && ZeroFrom(s, UsedSize(s))
  {
  }

  /** The buffer TryRecover rebuilds replays a prefix containing write w. */
  ghost predicate Recovers(s: State, src: Option<Addr>, w: nat)
    requires IsSource(Connections(s), src)
  {
    && s.cfg.size < TWO32 && OpsFit(s.cfg.size, s.hist)
    && (forall p :: p in Connections(s) ==> |Connections(s)[p].data| == s.cfg.size)
    && var r := TryRecover(s.cfg.size, Connections(s), src);
    && exists m: nat :: w < m <= |s.hist| && r.buffer == Replay(s.cfg.size, s.hist, m)
  }

  /** No acknowledged write is lost when an acknowledgement needs every replica (WriteSync, or
      WriteQuorum with a replication factor of 1 or 2) and the source is a current peer. */
  lemma NoAckLost(s: State, a: Addr, w: nat)
    requires Reachable(s) && Slack(s.cfg) == 0 && w in s.acked
    requires IsSource(Connections(s), Some(a)) && a in s.props && !Unsynced(s, a)
    ensures Recovers(s, Some(a), w)
  {
    hide TryRecover, Replay, OpsFit, PeersOk, ClientOk, DepartedOk, IsSource, Unsynced;
    ReachableInv(s);
    var m := SourcePrefix(s, a);
    ConnectionSizes(s);
    BufferIsSource(s.cfg.size, Connections(s), Some(a));
    assert Owing(s, w) == {};
    assert a !in Owing(s, w);
  }

  /** The buffer TryRecover rebuilds is the file after some number of writes, w not among them. */
  ghost predicate Excludes(s: State, src: Option<Addr>, w: nat)
    requires IsSource(Connections(s), src)
  {
    && s.cfg.size < TWO32 && OpsFit(s.cfg.size, s.hist)
    && (forall p :: p in Connections(s) ==> |Connections(s)[p].data| == s.cfg.size)
    && exists m: nat ::
         m <= |s.hist| && m <= w && TryRecover(s.cfg.size, Connections(s), src).buffer == Replay(s.cfg.size, s.hist, m)
  }

  /** The answered number decides, for any replication factor and either way of acknowledging: the
      writes up to it come back, those two or more beyond it do not. */
  lemma AnswerDecides(s: State, a: Addr, w: nat)
    requires Reachable(s) && IsSource(Connections(s), Some(a)) && !Unsynced(s, a) && |s.hist| < TWO64
    requires a in s.props ==> !s.props[a].stage.SyncingWord?
    ensures w <= Connections(s)[a].word ==> Recovers(s, Some(a), w)
    ensures w >= Connections(s)[a].word + 2 ==> Excludes(s, Some(a), w)
  {
    hide Inv, TryRecover, Unsynced, IsSource, Replay;
    ReachableInv(s);
    var m := SourcePrefix(s, a);
    ConnectionSizes(s);
    BufferIsSource(s.cfg.size, Connections(s), Some(a));
    WordIdentifies(m, Connections(s)[a].word);
  }

  /** A server in the membership record that is a current peer and answers with a usable number. */
  predicate CurrentAnswer(s: State) {
    exists p :: p in s.record && p in s.props && Candidate(Connections(s)[p])
  }

  /** One that is not a peer any more, and still answers with a usable number. */
  predicate StaleAnswer(s: State) {
    exists p :: p in s.record && p !in s.props && Candidate(Connections(s)[p])
  }

  /** Outside a join every current peer is a replica. */
  lemma NoneUnsynced(s: State, p: Addr)
    requires Inv(s) && !InJoin(s)
    ensures !Unsynced(s, p) && (p in s.props ==> s.props[p].stage.Live?)
  {
    hide PeerOk, QueueOk;
  }

  /** The exact condition for recovery when every replica acknowledges and no server outside the
      membership answers: all acknowledged writes come back, from some source, if and only if a
      current peer in the record answers with a usable number. */
  lemma RecoverableIff(s: State, src: Option<Addr>)
    requires Reachable(s) && Slack(s.cfg) == 0 && !InJoin(s) && !StaleAnswer(s)
    requires IsSource(Connections(s), src)
    ensures src.Some? && (forall w :: w in s.acked ==> Recovers(s, src, w)) <==> CurrentAnswer(s)
  {
    hide Reachable, Recovers, Candidate, Inv;
    ReachableInv(s);
    if src.Some? {
      assert src.value in s.props && CurrentAnswer(s);
      NoneUnsynced(s, src.value);
      forall w | w in s.acked ensures Recovers(s, src, w) {
        NoAckLost(s, src.value, w);
      }
    }
  }

  /** An acknowledged write with a number of at least 1 gives every established peer a usable one. */
  lemma NumberedAck(s: State, p: Addr, w: nat)
    requires Inv(s) && Slack(s.cfg) == 0 && |s.hist| < TWO64 && w in s.acked && w >= 1
    requires p in s.record && p in s.props && s.props[p].stage.Live?
    ensures Candidate(Connections(s)[p])
  {
    hide PeersOk, ClientOk, DepartedOk, Replay, OpsFit, Settled;
    assert Owing(s, w) == {};
    assert p !in Owing(s, w);
    var m := CurrentReplica(s, p);
  }

  /** Hence, once a write other than the first has been acknowledged, recovery brings back
      everything if and only if the membership record names a current peer. */
  lemma RecordNamesPeer(s: State, src: Option<Addr>, w: nat)
    requires Reachable(s) && Slack(s.cfg) == 0 && !InJoin(s) && !StaleAnswer(s)
    requires |s.hist| < TWO64 && w in s.acked && w >= 1
    requires IsSource(Connections(s), src)
    ensures src.Some? && (forall u :: u in s.acked ==> Recovers(s, src, u)) <==> s.record * s.members != {}
  {
    hide Reachable, Recovers, Candidate, IsSource, Slack, PeerOk, QueueOk, StaleAnswer;
    RecoverableIff(s, src);
    ReachableInv(s);
    assert s.members == s.props.Keys;
    if CurrentAnswer(s) {
      var p :| p in s.record && p in s.props && Candidate(Connections(s)[p]);
      assert p in s.record * s.members;
    } else if s.record * s.members != {} {
      var p :| p in s.record * s.members;
      assert s.props[p].stage.Live?;
      NumberedAck(s, p, w);
    }
  }

  lemma TwoAcks(acked: set<nat>) returns (w: nat)
    requires |acked| >= 2
    ensures w in acked && w >= 1
  {
    if acked <= {0} {
      SubsetCard(acked, {0});
    }
    w :| w in acked && w != 0;
  }

  /** Two acknowledged writes contain one other than the first. */
  lemma TwoAcksRecoverable(s: State, src: Option<Addr>)
    requires Reachable(s) && Slack(s.cfg) == 0 && !InJoin(s) && !StaleAnswer(s)
    requires |s.hist| < TWO64 && |s.acked| >= 2
    requires IsSource(Connections(s), src)
    ensures src.Some? && (forall u :: u in s.acked ==> Recovers(s, src, u)) <==> s.record * s.members != {}
  {
    hide Reachable, Recovers, IsSource, StaleAnswer;
    var w := TwoAcks(s.acked);
    RecordNamesPeer(s, src, w);
  }

  /** The recovered client and every peer agree on the file. */
  lemma PeersAgree(size: nat, conns: map<Addr, Region>, src: Option<Addr>)
    requires size < TWO32 && IsSource(conns, src)
    requires forall p :: p in conns ==> |conns[p].data| == size
    ensures var r := TryRecover(size, conns, src);
            && r.regions.Keys == conns.Keys && r.fileSize <= |r.buffer| == size
            && forall p :: p in conns ==>
                 |r.regions[p].data| == size && r.regions[p].data[..r.fileSize] == r.buffer[..r.fileSize]
  {
    hide UsedSize, SyncedWith, Candidate, Splice;
    var r := TryRecover(size, conns, src);
    BufferIsSource(size, conns, src);
    assert r.fileSize % TWO32 == r.fileSize;
    forall p | p in conns
      ensures |r.regions[p].data| == size && r.regions[p].data[..r.fileSize] == r.buffer[..r.fileSize]
    {
      PeerAgrees(size, conns, src, r, p);
    }
  }

  lemma PeerAgrees(size: nat, conns: map<Addr, Region>, src: Option<Addr>, r: Restored, p: Addr)
    requires p in conns && |conns[p].data| == size == |r.buffer| && r.fileSize <= size < TWO32
    requires p in r.regions
    requires r.regions[p] == if src == Some(p) then conns[p] else SyncedWith(conns[p], r.buffer[..r.fileSize])
    requires src == Some(p) ==> r.buffer == conns[p].data
    ensures |r.regions[p].data| == size && r.regions[p].data[..r.fileSize] == r.buffer[..r.fileSize]
  {
    SplicedPrefix(conns[p].data, r.buffer[..r.fileSize]);
  }

  lemma SplicedPrefix(s: seq<byte>, file: seq<byte>)
    requires |file| <= |s|
    ensures Splice(s, 0, file)[..|file|] == file
  {
  }

  /** After TryRecover the source, if there is one, is the only candidate left. */
  lemma OnlySourceLeft(size: nat, conns: map<Addr, Region>, src: Option<Addr>, again: Option<Addr>)
    requires size < TWO32 && IsSource(conns, src)
    requires forall p :: p in conns ==> |conns[p].data| == size
    requires IsSource(TryRecover(size, conns, src).regions, again)
    ensures again == src
  {
    hide UsedSize, Splice;
    var r := TryRecover(size, conns, src);
    forall p | p in r.regions && src != Some(p) ensures !Candidate(r.regions[p]) {
      assert r.regions[p].word == 0;
    }
    if src.Some? {
      assert Candidate(r.regions[src.value]);
    }
  }

  // ---- a crash in the middle of TryRecover, or after it ----

  /** What syncPeerAfterRecover sends: the file, its size cast to uint32. */
  function SentFile(r: Restored): (file: seq<byte>)
    requires r.fileSize <= |r.buffer|
    ensures |file| <= |r.buffer|
  {
    r.buffer[..r.fileSize % TWO32]
  }

  /** How much of its write to a peer has arrived. */
  datatype Sent = Nothing | FileOnly | FileAndWord

  function PartOf(r: Region, file: seq<byte>, sent: Sent): Region
    requires |file| <= |r.data|
  {
    match sent
    case Nothing => r
    case FileOnly => SyncedWith(r, file).(word := r.word)
    case FileAndWord => SyncedWith(r, file)
  }

  /** What the peers hold when the recovering client crashes while it brings them up to date. */
  function PartlySynced(size: nat, conns: map<Addr, Region>, src: Option<Addr>, sent: map<Addr, Sent>)
    : map<Addr, Region>
    requires size < TWO32 && IsSource(conns, src)
    requires forall p :: p in conns ==> |conns[p].data| == size
  {
    hide UsedSize, Candidate, IsSource, TryRecover, PartOf, SentFile;
    var file := SentFile(TryRecover(size, conns, src));
    map p | p in conns :: if src == Some(p) || p !in sent then conns[p] else PartOf(conns[p], file, sent[p])
  }

  lemma PartResynced(r: Region, file: seq<byte>, sent: Sent)
    requires |file| <= |r.data|
    ensures |PartOf(r, file, sent).data| == |r.data|
    ensures PartOf(r, file, sent).word == r.word || PartOf(r, file, sent).word == 0
    ensures SyncedWith(PartOf(r, file, sent), file) == SyncedWith(r, file)
  {
    SpliceTwice(r.data, 0, file);
  }

  /** The result of a recovery depends on the source and on what the others are overwritten to. */
  lemma SameResult(size: nat, conns: map<Addr, Region>, mid: map<Addr, Region>, src: Option<Addr>)
    requires size < TWO32 && IsSource(conns, src) && IsSource(mid, src) && mid.Keys == conns.Keys
    requires forall p :: p in conns ==> |conns[p].data| == size
    requires forall p :: p in mid ==> |mid[p].data| == size
    requires src.Some? ==> mid[src.value] == conns[src.value]
    requires var file := SentFile(TryRecover(size, conns, src));
             forall p :: p in conns && src != Some(p) ==> SyncedWith(mid[p], file) == SyncedWith(conns[p], file)
    ensures TryRecover(size, mid, src) == TryRecover(size, conns, src)
  {
    hide UsedSize, Splice, Candidate, SyncedWith, IsSource;
    var r, r2 := TryRecover(size, conns, src), TryRecover(size, mid, src);
    assert r2.buffer == r.buffer && r2.fileSize == r.fileSize;
    assert r2.regions == r.regions;
  }

  /** One peer, whatever part of its synchronisation has arrived. */
  predicate OnItsWay(q: Region, r: Region, file: seq<byte>, isSource: bool) {
    && |q.data| == |r.data| && |file| <= |r.data| && (isSource ==> q == r)
    && (q.word == r.word || (q.word == 0 && !isSource))
    && SyncedWith(q, file) == SyncedWith(r, file)
  }

  lemma PartlySyncedPeers(size: nat, conns: map<Addr, Region>, src: Option<Addr>, sent: map<Addr, Sent>)
    requires size < TWO32 && IsSource(conns, src)
    requires forall p :: p in conns ==> |conns[p].data| == size
    ensures var mid := PartlySynced(size, conns, src, sent);
            var file := SentFile(TryRecover(size, conns, src));
            mid.Keys == conns.Keys && forall p :: p in conns ==> OnItsWay(mid[p], conns[p], file, src == Some(p))
  {
    hide UsedSize, Splice, PartOf, SyncedWith, TryRecover, Candidate, IsSource, SentFile;
    var file := SentFile(TryRecover(size, conns, src));
    forall p | p in conns ensures OnItsWay(PartlySynced(size, conns, src, sent)[p], conns[p], file, src == Some(p)) {
      if p in sent {
        PartResynced(conns[p], file, sent[p]);
      }
    }
  }

  /** Whatever part of the synchronisation has arrived, the old source is a source again, and
      recovering from it ends as the interrupted recovery would have ended. */
  lemma ResumeFromSource(size: nat, conns: map<Addr, Region>, src: Option<Addr>, sent: map<Addr, Sent>)
    requires size < TWO32 && IsSource(conns, src)
    requires forall p :: p in conns ==> |conns[p].data| == size
    ensures var mid := PartlySynced(size, conns, src, sent);
            && mid.Keys == conns.Keys && (forall p :: p in mid ==> |mid[p].data| == size)
            && IsSource(mid, src)
            && TryRecover(size, mid, src) == TryRecover(size, conns, src)
  {
    hide UsedSize, Splice, PartOf, SyncedWith, TryRecover, PartlySynced;
    PartlySyncedPeers(size, conns, src, sent);
    SameResult(size, conns, PartlySynced(size, conns, src, sent), src);
  }

  lemma FullySynced(size: nat, conns: map<Addr, Region>, src: Option<Addr>)
    requires size < TWO32 && IsSource(conns, src)
    requires forall p :: p in conns ==> |conns[p].data| == size
    ensures PartlySynced(size, conns, src, map p | p in conns :: FileAndWord) == TryRecover(size, conns, src).regions
  {
    hide UsedSize, Splice, SyncedWith, IsSource;
    BufferIsSource(size, conns, src);
  }

  /** Crashing and recovering again with no write in between: the old source is the only peer
      left with a usable number, is chosen again, and nothing changes. */
  lemma RecoverTwice(size: nat, conns: map<Addr, Region>, src: Option<Addr>, again: Option<Addr>)
    requires size < TWO32 && IsSource(conns, src)
    requires forall p :: p in conns ==> |conns[p].data| == size
    requires IsSource(TryRecover(size, conns, src).regions, again)
    ensures again == src
    ensures var r := TryRecover(size, conns, src);
            && (forall p :: p in r.regions ==> |r.regions[p].data| == size)
            && TryRecover(size, r.regions, again) == r
  {
    hide UsedSize, Splice, Candidate, TryRecover, PartlySynced, IsSource;
    OnlySourceLeft(size, conns, src, again);
    FullySynced(size, conns, src);
    ResumeFromSource(size, conns, src, map p | p in conns :: FileAndWord);
  }

  /** With ties broken another way the second recovery may start from another peer. It is sure to
      rebuild the same file if and only if all peers with the smallest number hold the same bytes. */
  lemma TiesAgreeIff(size: nat, conns: map<Addr, Region>, src: Addr)
    requires size < TWO32 && IsSource(conns, Some(src))
    requires forall p :: p in conns ==> |conns[p].data| == size
    ensures (forall sent: map<Addr, Sent>, again: Option<Addr> ::
               var mid := PartlySynced(size, conns, Some(src), sent);
               (forall p :: p in mid ==> |mid[p].data| == size) && IsSource(mid, again)
               ==> TryRecover(size, mid, again).buffer == TryRecover(size, conns, Some(src)).buffer)
            <==> forall p :: p in conns && conns[p].word == conns[src].word ==> conns[p].data == conns[src].data
  {
    hide UsedSize, Splice, TryRecover, PartlySynced;
    BufferIsSource(size, conns, Some(src));
    if forall p :: p in conns && conns[p].word == conns[src].word ==> conns[p].data == conns[src].data {
      forall sent: map<Addr, Sent>, again: Option<Addr> |
        var mid := PartlySynced(size, conns, Some(src), sent);
        (forall p :: p in mid ==> |mid[p].data| == size) && IsSource(mid, again)
        ensures TryRecover(size, PartlySynced(size, conns, Some(src), sent), again).buffer == conns[src].data
      {
        TiedSource(size, conns, src, sent, again);
      }
    } else {
      var p :| p in conns && conns[p].word == conns[src].word && conns[p].data != conns[src].data;
      NothingSent(size, conns, src);
      assert IsSource(conns, Some(p));
      BufferIsSource(size, conns, Some(p));
    }
  }

  lemma NothingSent(size: nat, conns: map<Addr, Region>, src: Addr)
    requires size < TWO32 && IsSource(conns, Some(src))
    requires forall p :: p in conns ==> |conns[p].data| == size
    ensures PartlySynced(size, conns, Some(src), map[]) == conns
  {
    hide TryRecover, IsSource;
  }

  lemma TiedSource(size: nat, conns: map<Addr, Region>, src: Addr, sent: map<Addr, Sent>, again: Option<Addr>)
    requires size < TWO32 && IsSource(conns, Some(src))
    requires forall p :: p in conns ==> |conns[p].data| == size
    requires forall p :: p in conns && conns[p].word == conns[src].word ==> conns[p].data == conns[src].data
    requires var mid := PartlySynced(size, conns, Some(src), sent);
             (forall p :: p in mid ==> |mid[p].data| == size) && IsSource(mid, again)
    ensures TryRecover(size, PartlySynced(size, conns, Some(src), sent), again).buffer == conns[src].data
  {
    hide UsedSize, TryRecover;
    var mid := PartlySynced(size, conns, Some(src), sent);
    BufferIsSource(size, conns, Some(src));
    BufferIsSource(size, mid, again);
    assert mid[src] == conns[src];
    assert again.Some?;
    var a := again.value;
    assert conns[a].word == conns[src].word;
    var r := TryRecover(size, conns, Some(src));
    assert Splice(conns[src].data, 0, SentFile(r)) == conns[src].data;
  }

  /** Two peers with the same number and different bytes: after a crash with only the file on its
      way to the second, the second as a source gives the contents of neither. */
  lemma TieMixes(a: Addr, b: Addr)
    requires a != b
    ensures var conns := map[a := Region([1, 0], 1), b := Region([2, 2], 1)];
            && IsSource(conns, Some(a))
            && var mid := PartlySynced(2, conns, Some(a), map[b := FileOnly]);
            && (forall p :: p in mid ==> |mid[p].data| == 2) && IsSource(mid, Some(b))
            && TryRecover(2, mid, Some(b)).buffer == [1, 2]
  {
    hide TryRecover, UsedSize;
    var conns := map[a := Region([1, 0], 1), b := Region([2, 2], 1)];
    TieStart(conns, a);
    var mid := PartlySynced(2, conns, Some(a), map[b := FileOnly]);
    assert mid[b].data == [1, 2];
    BufferIsSource(2, mid, Some(b));
  }

  lemma TieStart(conns: map<Addr, Region>, a: Addr)
    requires a in conns && conns[a] == Region([1, 0], 1)
    requires forall p :: p in conns ==> conns[p].word == 1 && |conns[p].data| == 2
    ensures IsSource(conns, Some(a)) && TryRecover(2, conns, Some(a)).buffer == [1, 0]
    ensures TryRecover(2, conns, Some(a)).fileSize == 1
  {
    hide TryRecover;
    BufferIsSource(2, conns, Some(a));
    assert UsedSize(conns[a].data) == 1;
  }

  // ---- the scan ----

  /** getRecoverSrcPeer over the peers in the order of the table: a smaller number than the
      smallest so far takes over, an equal one does not. */
  function Scan(order: seq<Addr>, conns: map<Addr, Region>): (src: Option<Addr>)
    requires forall p :: p in order ==> p in conns
    ensures src.Some? ==> src.value in order && Candidate(conns[src.value])
  {
    if order == [] then None else
      var best, last := Scan(order[..|order| - 1], conns), order[|order| - 1];
      if Candidate(conns[last]) && (best.None? || conns[last].word < conns[best.value].word) then Some(last) else best
  }

  /** a stands at position i, no number is smaller than its own, and none before it is equal. */
  predicate FirstLeast(order: seq<Addr>, conns: map<Addr, Region>, a: Addr, i: nat)
    requires forall p :: p in order ==> p in conns
  {
    && i < |order| && order[i] == a && Candidate(conns[a])
    && (forall j :: 0 <= j < i && Candidate(conns[order[j]]) ==> conns[a].word < conns[order[j]].word)
    && (forall j :: i < j < |order| && Candidate(conns[order[j]]) ==> conns[a].word <= conns[order[j]].word)
  }

  lemma {:induction false} ScanIsFirst(order: seq<Addr>, conns: map<Addr, Region>) returns (i: nat)
    requires forall p :: p in order ==> p in conns
    ensures match Scan(order, conns)
            case None => forall j :: 0 <= j < |order| ==> !Candidate(conns[order[j]])
            case Some(a) => FirstLeast(order, conns, a, i)
  {
    hide Candidate;
    i := 0;
    if order != [] {
      var init := order[..|order| - 1];
      i := ScanIsFirst(init, conns);
      ScanLeast(init, conns);
      if Scan(order, conns) != Scan(init, conns) {
        i := |order| - 1;
      }
    }
  }

  /** The number found is no larger than any other. */
  lemma {:induction false} ScanLeast(order: seq<Addr>, conns: map<Addr, Region>)
    requires forall p :: p in order ==> p in conns
    ensures forall p :: p in order && Candidate(conns[p]) ==>
              Scan(order, conns).Some? && conns[Scan(order, conns).value].word <= conns[p].word
  {
    hide Candidate;
    if order != [] {
      ScanLeast(order[..|order| - 1], conns);
      assert order == order[..|order| - 1] + [order[|order| - 1]];
    }
  }

  predicate Covers(order: seq<Addr>, conns: map<Addr, Region>) {
    (forall p :: p in order ==> p in conns) && (forall p :: p in conns ==> p in order)
  }

  lemma ScanIsSource(order: seq<Addr>, conns: map<Addr, Region>)
    requires Covers(order, conns)
    ensures IsSource(conns, Scan(order, conns))
  {
    hide Candidate;
    ScanLeast(order, conns);
  }

  /** Numbers that drop to 0, the found one excepted, do not change what is found. */
  lemma ScanStable(order: seq<Addr>, conns: map<Addr, Region>, mid: map<Addr, Region>)
    requires Covers(order, conns) && mid.Keys == conns.Keys
    requires forall p :: p in conns ==>
               mid[p].word == conns[p].word || (mid[p].word == 0 && Scan(order, conns) != Some(p))
    ensures Scan(order, mid) == Scan(order, conns)
  {
    var i := ScanIsFirst(order, conns);
    var k := ScanIsFirst(order, mid);
    match Scan(order, conns)
    case None =>
    case Some(a) =>
      assert FirstLeast(order, mid, a, i);
      assert i == k;
  }

  /** What the peers hold after any number of recoveries that crashed while they synchronised. */
  function AfterCrashes(size: nat, order: seq<Addr>, conns: map<Addr, Region>, crashes: seq<map<Addr, Sent>>)
    : (r: map<Addr, Region>)
    requires size < TWO32 && Covers(order, conns)
    requires forall p :: p in conns ==> |conns[p].data| == size
    ensures r.Keys == conns.Keys && forall p :: p in r ==> |r[p].data| == size
  {
    if crashes == [] then conns else
      var mid := AfterCrashes(size, order, conns, crashes[..|crashes| - 1]);
      ScanIsSource(order, mid);
      ResumeFromSource(size, mid, Scan(order, mid), crashes[|crashes| - 1]);
      PartlySynced(size, mid, Scan(order, mid), crashes[|crashes| - 1])
  }

  /** Recovery may crash and start over any number of times, at any point of the synchronisation:
      it finds the same source and ends as if it had not been interrupted. */
  lemma {:induction false} CrashesDoNotMatter(size: nat, order: seq<Addr>, conns: map<Addr, Region>,
                                              crashes: seq<map<Addr, Sent>>)
    requires size < TWO32 && Covers(order, conns)
    requires forall p :: p in conns ==> |conns[p].data| == size
    ensures var mid := AfterCrashes(size, order, conns, crashes);
            var src := Scan(order, conns);
            && IsSource(conns, src) && IsSource(mid, src) && Scan(order, mid) == src
            && TryRecover(size, mid, src) == TryRecover(size, conns, src)
  {
    hide TryRecover, Candidate, Scan;
    ScanIsSource(order, conns);
    if crashes != [] {
      var mid := AfterCrashes(size, order, conns, crashes[..|crashes| - 1]);
      CrashesDoNotMatter(size, order, conns, crashes[..|crashes| - 1]);
      ResumeFromSource(size, mid, Scan(order, mid), crashes[|crashes| - 1]);
      ScanStable(order, mid, AfterCrashes(size, order, conns, crashes));
    }
  }
}
