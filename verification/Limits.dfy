/** Where the guarantees end: for each of them the exact condition under which it holds, and for
    every configuration outside that condition a run in which it fails. */
module Limits {
  import opened Bytes
  import opened Replication
  import opened Invariant
  import opened Safety
  import opened Guarantees
  import opened Recovery
  import opened Runs
  import OneByte

  predicate Proper(cfg: Config) {
    cfg.rep >= 1 && 1 <= cfg.size < TWO32
  }

  // ---- acknowledged writes and the smallest sequence number ----

  /** No server in the membership record answers with a usable number. */
  predicate Silent(s: State) {
    IsSource(Connections(s), None)
  }

  /** Every acknowledged write survives every recovery outside a join. Recoveries in which a
      server that is no longer a peer answers, and those in which nobody does, are admitted only
      when `stale` and `silent` say so. */
  ghost predicate NoLoss(cfg: Config, stale: bool, silent: bool) {
    forall s: State, src: Option<Addr>, w: nat ::
      (Reachable(s) && s.cfg == cfg && !InJoin(s) && w in s.acked && IsSource(Connections(s), src)
       && (StaleAnswer(s) ==> stale) && (Silent(s) ==> silent))
      ==> Recovers(s, src, w)
  }

  lemma Refutes(s: State, src: Option<Addr>, w: nat, stale: bool, silent: bool)
    requires Reachable(s) && !InJoin(s) && w in s.acked && IsSource(Connections(s), src)
    requires (StaleAnswer(s) ==> stale) && (Silent(s) ==> silent) && !Recovers(s, src, w)
    ensures !NoLoss(s.cfg, stale, silent)
  {
  }

  /** The file's first byte written as 1, twice, everywhere. */
  lemma TwoWrites(s: State) returns (t: State)
    requires Reachable(s) && Clean(s) && Still(s) && 1 <= s.cfg.size && s.hist == [] && s.acked == {} && s.seqNext == 0
    ensures Reachable(t) && Clean(t) && Still(t)
    ensures t == s.(buffer := t.buffer, fileSize := t.fileSize, word := t.word, seqNext := 2, props := t.props,
                    hist := [Op(0, [1]), Op(0, [1])], acked := {0, 1}) && t.props.Keys == s.props.Keys
    ensures forall p :: p in t.props ==> t.props[p].word == 1 && t.props[p].data != [] && t.props[p].data[0] == 1
  {
    hide Reachable, Splice, Clean, Still, Advanced;
    var s1 := WriteHead(s, 1);
    AdvancedKeys(s, Op(0, [1]), s1);
    t := WriteHead(s1, 1);
    AdvancedKeys(s1, Op(0, [1]), t);
    assert s.acked + {0} + {1} == {0, 1};
    StillQuiet(s);
    CleanStill(t);
  }

  lemma CleanStill(s: State)
    requires Clean(s) && s.watcher.Quiet?
    ensures Still(s)
  {
  }

  /** What recovery rebuilds from a source that still has the old first byte lacks the third write. */
  lemma LosesThird(s: State, a: Addr)
    requires Reachable(s) && 1 <= s.cfg.size && IsSource(Connections(s), Some(a))
    requires s.hist == [Op(0, [1]), Op(0, [1]), Op(0, [2])]
    requires Connections(s)[a].data != [] && Connections(s)[a].data[0] == 1
    ensures !Recovers(s, Some(a), 2)
  {
    hide Reachable, TryRecover, Inv;
    ReachableInv(s);
    ConnectionSizes(s);
    BufferIsSource(s.cfg.size, Connections(s), Some(a));
    assert OpsFit(s.cfg.size, s.hist);
    assert Replay(s.cfg.size, s.hist, 3)[0] == 2;
  }

  lemma StartWritten(cfg: Config) returns (t: State)
    requires Proper(cfg)
    ensures Reachable(t) && Clean(t) && Still(t) && t.cfg == cfg && t.departed == map[] && 1 <= cfg.size
    ensures t.members == t.record == t.props.Keys == Names(cfg.rep) && |t.members| == cfg.rep
    ensures t.hist == [Op(0, [1]), Op(0, [1])] && t.acked == {0, 1} && t.seqNext == 2 && t.watcher.Quiet?
    ensures forall p :: p in t.props ==> t.props[p].word == 1 && t.props[p].data != [] && t.props[p].data[0] == 1
  {
    hide Reachable, Clean, Still, Start, Names;
    NamesCount(cfg.rep);
    StartReachable(cfg, Names(cfg.rep));
    StartStill(cfg, Names(cfg.rep));
    t := TwoWrites(Start(cfg, Names(cfg.rep)));
    StillQuiet(t);
  }

  /** With three replicas or more and quorum acknowledgement, one slow peer with the smallest
      number is the source, and the write it missed is gone although it was acknowledged. */
  lemma SlowPeerWins(cfg: Config) returns (s: State, slow: Addr)
    requires Proper(cfg) && !cfg.sync && cfg.rep >= 3
    ensures Reachable(s) && s.cfg == cfg && s.watcher.Quiet? && 2 in s.acked && s.record == s.members
    ensures !StaleAnswer(s) && !Silent(s)
    ensures IsSource(Connections(s), Some(slow)) && !Recovers(s, Some(slow), 2)
  {
    hide *;
    s, slow := MissesOne(cfg);
    LastIsSource(s, slow);
    LosesThird(s, slow);
  }

  /** Three acknowledged writes, of which one peer misses the last. */
  lemma MissesOne(cfg: Config) returns (s: State, slow: Addr)
    requires Proper(cfg) && !cfg.sync && cfg.rep >= 3
    ensures Reachable(s) && s.cfg == cfg && 1 <= cfg.size && s.watcher.Quiet? && 2 in s.acked
    ensures s.record == s.members == s.props.Keys && slow in s.props
    ensures s.hist == [Op(0, [1]), Op(0, [1]), Op(0, [2])]
    ensures s.props[slow].word == 1 && s.props[slow].data != [] && s.props[slow].data[0] == 1
    ensures forall p :: p in s.props && p != slow ==> s.props[p].word == 2
  {
    hide *;
    var s2 := StartWritten(cfg);
    slow := Name(cfg.rep - 1);
    NamesGrow(cfg.rep - 1, cfg.rep);
    AllButOne(s2.members, slow);
    s := WriteHeadTo(s2, 2, s2.members - {slow});
    AdvancedKeys(s2, Op(0, [2]), s);
  }

  lemma AllButOne(members: set<Addr>, slow: Addr)
    requires slow in members
    ensures |members - {slow}| == |members| - 1
  {
  }

  /** One recorded server answers 1 and all the others answer 2. */
  lemma LastIsSource(s: State, a: Addr)
    requires a in s.record && a in s.props + s.departed
    requires var p := if a in s.props then s.props[a] else s.departed[a]; p.word == 1 && p.data != [] && p.data[0] == 1
    requires forall p :: p in s.record && p != a ==> p in s.props && s.props[p].word == 2
    ensures IsSource(Connections(s), Some(a)) && !Silent(s)
    ensures StaleAnswer(s) <==> a !in s.props
    ensures Connections(s)[a].data != [] && Connections(s)[a].data[0] == 1 && Connections(s)[a].word == 1
  {
    assert Candidate(Connections(s)[a]);
  }

  lemma StartStill(cfg: Config, members: set<Addr>)
    ensures Still(Start(cfg, members))
  {
    assert Start(cfg, members).props.Keys == members;
  }

  /** For every configuration: a peer leaves with its memory intact and another joins in a child
      event, which does not touch the membership record. The server that left answers with the
      smallest number, and a write every replica acknowledged is gone. */
  lemma StaleAnswerLoses(cfg: Config) returns (s: State, left: Addr)
    requires Proper(cfg)
    ensures Reachable(s) && s.cfg == cfg && s.watcher.Quiet? && 2 in s.acked && |s.members| == cfg.rep
    ensures left !in s.members && StaleAnswer(s) && !Silent(s)
    ensures IsSource(Connections(s), Some(left)) && !Recovers(s, Some(left), 2)
    ensures Connections(s)[left].word == 1 && |s.hist| == 3
  {
    hide *;
    var s3;
    s3, left := KeepsLeft(cfg);
    s := WriteHead(s3, 2);
    AdvancedKeys(s3, Op(0, [2]), s);
    CleanKeys(s);
    LastIsSource(s, left);
    LosesThird(s, left);
  }

  /** After two writes a peer has left with its memory intact and another has joined. */
  lemma KeepsLeft(cfg: Config) returns (t: State, left: Addr)
    requires Proper(cfg)
    ensures Reachable(t) && Clean(t) && t.cfg == cfg && 1 <= cfg.size && t.watcher.Quiet? && |t.members| == cfg.rep
    ensures t.hist == [Op(0, [1]), Op(0, [1])] && t.acked == {0, 1} && t.seqNext == 2
    ensures left in t.record && left !in t.members && left in t.departed
    ensures t.departed[left].word == 1 && t.departed[left].data != [] && t.departed[left].data[0] == 1
    ensures forall p :: p in t.record && p != left ==> p in t.members
  {
    hide Reachable, Clean, Names;
    left := Name(cfg.rep - 1);
    NamesGrow(cfg.rep - 1, cfg.rep);
    NamesGrow(cfg.rep, cfg.rep);
    var s2 := StartWritten(cfg);
    t := Swaps(s2, left, true, Name(cfg.rep));
  }

  lemma AdvancedKeys(s: State, op: Op, t: State)
    requires Advanced(s, op, t)
    ensures t == s.(buffer := t.buffer, fileSize := t.fileSize, word := s.seqNext, seqNext := (s.seqNext + 1) % TWO64,
                    props := t.props, writer := Idle, hist := s.hist + [op], acked := s.acked + {|s.hist|})
    ensures t.props.Keys == s.props.Keys
  {
  }

  lemma CleanKeys(s: State)
    requires Clean(s)
    ensures s.members == s.props.Keys
  {
  }

  lemma {:induction false} ReplayHead(size: nat, h: seq<Op>, m: nat)
    requires 1 <= size && 1 <= m <= |h| && OpsFit(size, h)
    requires h[0] == Op(0, [1]) && forall i :: 1 <= i < |h| ==> h[i] == Op(0, [1]) || h[i].off >= 1
    ensures Replay(size, h, m)[0] == 1
  {
    if m > 1 {
      ReplayHead(size, h, m - 1);
    }
  }

  /** With nobody to recover from the buffer is zero, which no prefix with the first write is. */
  lemma NothingRecovered(s: State)
    requires Reachable(s) && Silent(s) && 1 <= s.cfg.size
    requires |s.hist| >= 1 && s.hist[0] == Op(0, [1]) && forall i :: 1 <= i < |s.hist| ==> s.hist[i] == Op(0, [1])
    ensures !Recovers(s, None, 0)
  {
    hide TryRecover, Inv, Reachable;
    ReachableInv(s);
    ConnectionSizes(s);
    BufferIsSource(s.cfg.size, Connections(s), None);
    assert OpsFit(s.cfg.size, s.hist);
    forall m: nat | 0 < m <= |s.hist| ensures Replay(s.cfg.size, s.hist, m)[0] == 1 {
      ReplayHead(s.cfg.size, s.hist, m);
    }
    assert TryRecover(s.cfg.size, Connections(s), None).buffer[0] == 0;
  }

  /** For every configuration: one acknowledged write is not enough. It carries number 0, and a
      peer whose number is 0 is never a source. */
  lemma LoneAckLost(cfg: Config) returns (s: State)
    requires Proper(cfg)
    ensures Reachable(s) && s.cfg == cfg && s.watcher.Quiet? && s.acked == {0} && s.record == s.members
    ensures !StaleAnswer(s) && Silent(s) && !Recovers(s, None, 0)
  {
    hide Reachable, Clean, Start, Splice, Names;
    NamesCount(cfg.rep);
    StartReachable(cfg, Names(cfg.rep));
    s := WriteHead(Start(cfg, Names(cfg.rep)), 1);
    NothingRecovered(s);
  }

  /** The exact condition: acknowledged writes survive recovery from the smallest sequence number
      if and only if every replica has to acknowledge, no server outside the membership answers,
      and some server does. */
  lemma NoLossIff(cfg: Config, stale: bool, silent: bool)
    requires Proper(cfg)
    ensures NoLoss(cfg, stale, silent) <==> (cfg.sync || cfg.rep <= 2) && !stale && !silent
  {
    hide Reachable, NoLoss, Recovers;
    if stale {
      var s, left := StaleAnswerLoses(cfg);
      Refutes(s, Some(left), 2, stale, silent);
    } else if silent {
      var s := LoneAckLost(cfg);
      Refutes(s, None, 0, stale, silent);
    } else if cfg.sync || cfg.rep <= 2 {
      NothingLost(cfg);
    } else {
      var s, slow := SlowPeerWins(cfg);
      Refutes(s, Some(slow), 2, stale, silent);
    }
  }

  lemma NothingLost(cfg: Config)
    requires Proper(cfg) && (cfg.sync || cfg.rep <= 2)
    ensures NoLoss(cfg, false, false)
  {
    hide Reachable, Recovers, Candidate;
    forall s: State, src: Option<Addr>, w: nat |
      Reachable(s) && s.cfg == cfg && !InJoin(s) && w in s.acked && IsSource(Connections(s), src)
      && !StaleAnswer(s) && !Silent(s)
      ensures Recovers(s, src, w)
    {
      RecoverableIff(s, src);
    }
  }

  /** Every acknowledged write numbered up to `gap` beyond the number the source answered survives
      a recovery outside a join, from whatever source. */
  ghost predicate NumberKeeps(cfg: Config, gap: nat) {
    forall s: State, a: Addr, w: nat ::
      (Reachable(s) && s.cfg == cfg && !InJoin(s) && |s.hist| < TWO64 && w in s.acked
       && IsSource(Connections(s), Some(a)) && w <= Connections(s)[a].word + gap)
      ==> Recovers(s, Some(a), w)
  }

  /** The exact reach of the answered number, in every configuration: the writes up to it survive,
      and nothing is certain about the next one. */
  lemma NumberKeepsIff(cfg: Config, gap: nat)
    requires Proper(cfg)
    ensures NumberKeeps(cfg, gap) <==> gap == 0
  {
    hide Reachable, Recovers, InJoin, Candidate;
    if gap == 0 {
      forall s: State, a: Addr, w: nat |
        Reachable(s) && s.cfg == cfg && !InJoin(s) && |s.hist| < TWO64 && w in s.acked
        && IsSource(Connections(s), Some(a)) && w <= Connections(s)[a].word
        ensures Recovers(s, Some(a), w)
      {
        ReachableInv(s);
        NoneUnsynced(s, a);
        AnswerDecides(s, a, w);
      }
    } else {
      var s, left := StaleAnswerLoses(cfg);
      OutOfJoin(s);
      assert !NumberKeeps(cfg, gap);
    }
  }

  lemma OutOfJoin(s: State)
    requires s.watcher.Quiet?
    ensures !InJoin(s)
  {
  }

  // ---- the membership record ----

  /** The members after the first k of the original ones have been swapped for new servers. */
  function Renamed(rep: nat, k: nat): set<Addr> {
    Names(rep + k) - Names(k)
  }

  lemma RenamedStep(rep: nat, k: nat)
    requires k < rep
    ensures Name(k) in Renamed(rep, k) && Name(rep + k) !in Renamed(rep, k)
    ensures Renamed(rep, k + 1) == Renamed(rep, k) - {Name(k)} + {Name(rep + k)}
  {
    NamesGrow(k, rep + k);
    NamesGrow(rep + k, rep + k + 1);
    NamesGrow(k + 1, rep + k);
  }

  /** One after the other, k peers restart, leave, and are followed by a server that joins. */
  lemma {:induction false} SwapMany(cfg: Config, k: nat) returns (t: State)
    requires Proper(cfg) && k <= cfg.rep
    ensures Reachable(t) && Clean(t) && Still(t) && t.cfg == cfg
    ensures t.members == Renamed(cfg.rep, k) && |t.members| == cfg.rep && t.record == Names(cfg.rep)
    ensures t.departed == map[] && t.hist == [] && t.acked == {} && t.seqNext == 0
  {
    hide Reachable, Clean, Still, Start, Names;
    if k == 0 {
      NamesCount(cfg.rep);
      StartReachable(cfg, Names(cfg.rep));
      StartStill(cfg, Names(cfg.rep));
      t := Start(cfg, Names(cfg.rep));
      assert Renamed(cfg.rep, 0) == Names(cfg.rep) by { NamesCount(0); }
    } else {
      var s := SwapMany(cfg, k - 1);
      RenamedStep(cfg.rep, k - 1);
      t := Swaps(s, Name(k - 1), false, Name(cfg.rep + k - 1));
    }
  }

  /** For every configuration: a peer that came in through a child event is not in the membership
      record. When all the recorded peers are gone, acknowledged writes are lost although every
      replica acknowledged them and still holds them. */
  lemma StaleRecordLoses(cfg: Config) returns (s: State)
    requires Proper(cfg)
    ensures Reachable(s) && s.cfg == cfg && s.watcher.Quiet? && s.acked == {0, 1} && |s.members| == cfg.rep
    ensures s.record * s.members == {} && s.departed == map[]
    ensures Silent(s) && !Recovers(s, None, 0)
    ensures forall p :: p in s.members ==> Holds(s, p, 1)
  {
    hide Reachable, Clean, Recovers, Names, Splice;
    var s1 := SwapMany(cfg, cfg.rep);
    s := TwoWrites(s1);
    assert s.record * s.members == {};
    assert Silent(s);
    NothingRecovered(s);
    forall p | p in s.members ensures Holds(s, p, 1) {
      StillHolds(s, p, 1);
    }
  }

  /** At rest every peer holds every write. */
  lemma StillHolds(s: State, p: Addr, w: nat)
    requires Reachable(s) && Still(s) && p in s.members && w < |s.hist|
    ensures Holds(s, p, w)
  {
    hide Reachable;
    ReachableInv(s);
    Convergence(s, p);
    assert s.props[p].data == Replay(s.cfg.size, s.hist, |s.hist|);
  }

  // ---- the joining of a peer ----

  /** While more than half of the peers are left one of them holds every acknowledged write. */
  ghost predicate AlwaysHeld(cfg: Config) {
    forall s: State :: Reachable(s) && s.cfg == cfg && |s.members| > cfg.rep / 2 ==> OneHoldsAll(s)
  }

  /** A peer whose server restarted leaves, with more than half of them left. */
  lemma LeavesAlive(s: State, p: Addr) returns (t: State)
    requires Reachable(s) && Between(s) && p in s.members && |s.members| - 1 > s.cfg.rep / 2
    ensures Reachable(t) && Between(t) && |t.members| == |s.members| - 1
    ensures t == s.(members := s.members - {p}, props := s.props - {p}, childWatch := true)
  {
    hide Reachable;
    assert |s.members - {p}| == |s.members| - 1;
    ReachableStep(s, PeerDeleted(p, false, None));
    t := Next(s, PeerDeleted(p, false, None));
  }

  /** s0 with the first k peers gone. */
  predicate Lost(s0: State, k: nat, t: State) {
    && t == s0.(members := Names(s0.cfg.rep) - Names(k), props := s0.props - Names(k), childWatch := t.childWatch)
    && |t.members| == s0.cfg.rep - k
  }

  lemma LostStep(s0: State, k: nat, s: State, t: State)
    requires k < s0.cfg.rep && Lost(s0, k, s)
    requires t == s.(members := s.members - {Name(k)}, props := s.props - {Name(k)}, childWatch := true)
    requires |t.members| == |s.members| - 1
    ensures Lost(s0, k + 1, t)
  {
    NamesStep(k);
    hide Names, Name;
    assert t.members == Names(s0.cfg.rep) - Names(k + 1);
    MinusTwice(s0.props, Names(k), Name(k));
  }

  lemma LostNone(s: State)
    requires s.members == Names(s.cfg.rep)
    ensures Lost(s, 0, s)
  {
    NamesCount(s.cfg.rep);
    assert s.props - {} == s.props;
  }

  lemma LostHas(s0: State, k: nat, t: State)
    requires Lost(s0, k, t) && k < s0.cfg.rep
    ensures Name(k) in t.members && |t.members| == s0.cfg.rep - k && t.cfg == s0.cfg
  {
    NamesGrow(k, s0.cfg.rep);
    hide Names;
  }

  /** Peers that missed the write are left, one after the other losing those that have it. */
  lemma {:induction false} LeaveMany(s: State, k: nat) returns (t: State)
    requires Reachable(s) && Between(s) && s.members == Names(s.cfg.rep) && s.cfg.rep - k > s.cfg.rep / 2
    ensures Reachable(t) && Between(t) && Lost(s, k, t)
    decreases k
  {
    hide *;
    if k == 0 {
      LostNone(s);
      t := s;
    } else {
      var u := LeaveMany(s, k - 1);
      LostHas(s, k - 1, u);
      t := LeavesAlive(u, Name(k - 1));
      LostStep(s, k - 1, u, t);
    }
  }

  /** For every configuration in which the majorities need not overlap: while a replacement is
      connected but not yet recovered, an acknowledged write is on no current peer, although
      more than half are left and writes are not suspended. */
  lemma JoinWindow(cfg: Config) returns (s: State)
    requires Proper(cfg) && !Overlaps(cfg)
    ensures Reachable(s) && s.cfg == cfg && s.watcher.Connected? && !s.suspended && |s.members| > cfg.rep / 2
    ensures 0 in s.acked && forall p :: p in s.members ==> !Holds(s, p, 0)
  {
    var k := cfg.rep / 2;
    var s1 := HalfWritten(cfg);
    hide Reachable, Names, Between, Overlaps;
    var s2 := LeaveMany(s1, k);
    LostHas(s1, k, s2);
    NamesStep(k);
    s := Replaces(s2, Name(k));
    NoneHolds(s);
  }

  /** A write acknowledged after it has reached just more than half of the peers. */
  lemma HalfWritten(cfg: Config) returns (s: State)
    requires Proper(cfg) && !Overlaps(cfg)
    ensures Reachable(s) && Between(s) && s.cfg == cfg && !s.suspended && s.members == Names(cfg.rep)
    ensures s.hist == [Op(0, [1])] && s.acked == {0} && s.departed == map[]
    ensures forall p :: p in s.props && p !in Names(cfg.rep / 2 + 1) ==> s.props[p].data == Zeros(cfg.size)
  {
    hide Reachable, Clean, Start, Names;
    var k := cfg.rep / 2;
    NamesCount(cfg.rep);
    NamesCount(k + 1);
    NamesGrow(k + 1, cfg.rep);
    StartReachable(cfg, Names(cfg.rep));
    assert cfg.sync ==> Names(k + 1) == Names(cfg.rep);
    CleanUnsuspended(Start(cfg, Names(cfg.rep)));
    s := WriteHeadTo(Start(cfg, Names(cfg.rep)), 1, Names(k + 1));
  }

  lemma NoneHolds(s: State)
    requires Reachable(s) && 1 <= s.cfg.size && s.hist == [Op(0, [1])] && s.members == s.props.Keys
    requires forall p :: p in s.props ==> s.props[p].data == Zeros(s.cfg.size)
    ensures forall p :: p in s.members ==> !Holds(s, p, 0)
  {
    hide Reachable, Inv;
    forall p, m: nat | p in s.members && OpsFit(s.cfg.size, s.hist) && 0 < m <= |s.hist|
      ensures s.props[p].data != Replay(s.cfg.size, s.hist, m)
    {
      ReplayHead(s.cfg.size, s.hist, m);
      assert s.props[p].data[0] == 0;
    }
  }

  /** The exact condition on the configuration, watcher phases of every kind included. */
  lemma AlwaysHeldIff(cfg: Config)
    requires Proper(cfg)
    ensures AlwaysHeld(cfg) <==> Overlaps(cfg)
  {
    hide Reachable, OneHoldsAll, Holds;
    if Overlaps(cfg) {
      forall s: State | Reachable(s) && s.cfg == cfg && |s.members| > cfg.rep / 2 ensures OneHoldsAll(s) {
        OnePeerHoldsAll(s);
      }
    } else {
      var s := JoinWindow(cfg);
      assert !OneHoldsAll(s) by { NotHeld(s); }
    }
  }

  lemma NotHeld(s: State)
    requires 0 in s.acked && forall p :: p in s.members ==> !Holds(s, p, 0)
    ensures !OneHoldsAll(s)
  {
    hide Holds;
  }

  // ---- what a returned write means ----

  /** A polling call that may return outside a join finds its write on a current peer; returns with
      half or fewer of the peers left are admitted only when `short` says so. */
  ghost predicate HeldAtReturn(cfg: Config, short: bool) {
    forall s: State, e: Event ::
      (Reachable(s) && s.cfg == cfg && !InJoin(s) && (e.ReturnQuorum? || e.ReturnShort?) && Enabled(s, e)
       && s.hist != [] && (|s.members| <= cfg.rep / 2 ==> short))
      ==> exists p :: p in s.members && Holds(s, p, |s.hist| - 1)
  }

  /** For every replication factor under quorum acknowledgement: with half of the peers gone the
      call may return although the write has reached no server. */
  lemma GivesUp(cfg: Config) returns (s: State)
    requires Proper(cfg) && !cfg.sync
    ensures Reachable(s) && s.cfg == cfg && s.watcher.Suspending? && Enabled(s, ReturnShort)
    ensures s.hist == [Op(0, [1])] && s.acked == {} && |s.members| <= cfg.rep / 2
    ensures s.departed == map[] && forall p :: p in s.members ==> !Holds(s, p, 0)
  {
    hide Reachable, Clean, Start, Names, Loaded, Splice;
    var k := cfg.rep - cfg.rep / 2 - 1;
    NamesCount(cfg.rep);
    NamesGrow(k, cfg.rep);
    StartReachable(cfg, Names(cfg.rep));
    var s1 := PostedTo(Start(cfg, Names(cfg.rep)), Op(0, [1]));
    var s2 := LeaveMany(s1, k);
    s := HalfLeft(s2, Name(k));
    NoneHolds(s);
  }

  /** The peer whose loss leaves half or fewer. */
  lemma HalfLeft(s: State, p: Addr) returns (t: State)
    requires Reachable(s) && Between(s) && s.writer.Waiting? && !s.cfg.sync && p in s.members
    requires |s.members| - 1 <= s.cfg.rep / 2
    ensures Reachable(t) && Enabled(t, ReturnShort)
    ensures t == s.(members := s.members - {p}, props := s.props - {p}, watcher := Suspending)
  {
    hide Reachable;
    assert |s.members - {p}| == |s.members| - 1;
    ReachableStep(s, PeerDeleted(p, false, None));
    t := Next(s, PeerDeleted(p, false, None));
  }

  /** The call returns. */
  lemma ShortReturns(cfg: Config) returns (s: State)
    requires Proper(cfg) && !cfg.sync
    ensures Reachable(s) && s.cfg == cfg && s.writer.Idle? && s.hist == [Op(0, [1])] && s.acked == {}
    ensures s.departed == map[] && forall p :: p in s.members ==> !Holds(s, p, 0)
  {
    hide Reachable, Replay, OpsFit;
    var u := GivesUp(cfg);
    ReachableStep(u, ReturnShort);
    s := Next(u, ReturnShort);
    assert forall p :: p in s.members ==> Holds(u, p, 0) == Holds(s, p, 0);
  }

  /** What is acknowledged outside a join is on a current peer at that moment. */
  lemma QuorumHolds(s: State)
    requires Reachable(s) && !InJoin(s) && Enabled(s, ReturnQuorum)
    ensures exists p :: p in s.members && Holds(s, p, |s.hist| - 1)
  {
    hide Reachable, Holds;
    var t := Next(s, ReturnQuorum);
    ReachableStep(s, ReturnQuorum);
    OnePeerHoldsAll(t);
    var p :| p in t.members && forall w :: w in t.acked ==> Holds(t, p, w);
    HoldsSame(s, t, p, |s.hist| - 1);
  }

  lemma HoldsSame(s: State, t: State, p: Addr, w: nat)
    requires t.cfg == s.cfg && t.hist == s.hist && t.props == s.props
    ensures Holds(t, p, w) == Holds(s, p, w)
  {
    hide Replay, OpsFit;
  }

  /** The exact condition for a returned write to be safe on some peer, which the caller cannot see:
      more than half of the peers were left. */
  lemma HeldAtReturnIff(cfg: Config, short: bool)
    requires Proper(cfg) && !cfg.sync
    ensures HeldAtReturn(cfg, short) <==> !short
  {
    hide Reachable, Holds;
    if short {
      var s := GivesUp(cfg);
      assert Enabled(s, ReturnShort) && |s.hist| - 1 == 0;
    } else {
      forall s: State, e: Event |
        Reachable(s) && s.cfg == cfg && !InJoin(s) && (e.ReturnQuorum? || e.ReturnShort?) && Enabled(s, e)
        && s.hist != [] && |s.members| > cfg.rep / 2
        ensures exists p :: p in s.members && Holds(s, p, |s.hist| - 1)
      {
        QuorumHolds(s);
      }
    }
  }

  // ---- what is rebuilt ----

  datatype Phase = AtQuiet | AtSuspending | AtConnected | AtResyncing

  function PhaseOf(w: Watcher): Phase {
    match w
    case Quiet => AtQuiet
    case Suspending => AtSuspending
    case Connected(_, _) => AtConnected
    case Resyncing(_, _) => AtResyncing
  }

  /** The buffer rebuilt from a is the file after some number of writes, none included. */
  ghost predicate RebuildsPrefix(s: State, a: Addr)
    requires IsSource(Connections(s), Some(a))
  {
    && s.cfg.size < TWO32 && OpsFit(s.cfg.size, s.hist)
    && (forall p :: p in Connections(s) ==> |Connections(s)[p].data| == s.cfg.size)
    && exists m: nat ::
         m <= |s.hist| && TryRecover(s.cfg.size, Connections(s), Some(a)).buffer == Replay(s.cfg.size, s.hist, m)
  }

  /** Every recovery in a watcher phase rebuilds a prefix. */
  ghost predicate Unmixed(cfg: Config, phase: Phase) {
    forall s: State, a: Addr ::
      (Reachable(s) && s.cfg == cfg && PhaseOf(s.watcher) == phase && IsSource(Connections(s), Some(a)))
      ==> RebuildsPrefix(s, a)
  }

  /** For every configuration with room for two bytes: a peer between AddPeer and the arrival of
      its snapshot can be the source. It has the newest write but none of the older ones, and what
      recovery rebuilds from it was never the file's contents, not even the empty file's. */
  lemma MidJoinMixes(cfg: Config, phase: Phase) returns (s: State, src: Addr)
    requires Proper(cfg) && cfg.size >= 2 && (phase.AtConnected? || phase.AtResyncing?)
    ensures Reachable(s) && s.cfg == cfg && PhaseOf(s.watcher) == phase && MidJoin(s, src)
    ensures s.hist == [Op(0, [1]), Op(1, [1])] && IsSource(Connections(s), Some(src))
    ensures !RebuildsPrefix(s, src)
  {
    hide *;
    var s2;
    s2, src := WrittenThenReplaced(cfg);
    s := WriteTo(s2, Op(1, [1]), s2.members);
    WroteMixed(s2, s, src);
    if phase.AtResyncing? {
      s := PostsSnapshot(s);
    }
    MixedIsSource(s, src, phase);
    MixedBuffer(s, src);
  }

  /** One write on every peer, then one of them replaced by a server that holds nothing. */
  lemma WrittenThenReplaced(cfg: Config) returns (t: State, src: Addr)
    requires Proper(cfg) && cfg.size >= 2
    ensures Reachable(t) && Clean(t) && t.cfg == cfg && cfg.size >= 2 && t.hist == [Op(0, [1])] && t.seqNext == 1
    ensures t.watcher == Connected(src, Deleted) && src in t.members && t.record == t.members
    ensures src in t.props && t.props[src] == FreshPeer(cfg.size)
    ensures |t.members| > cfg.rep / 2
  {
    hide *;
    var s1 := StartWrittenOnce(cfg);
    src := Name(cfg.rep - 1);
    NamesGrow(cfg.rep - 1, cfg.rep);
    CleanKeys(s1);
    t := Replaces(s1, src);
    ReplacedClean(s1, src, t);
  }

  lemma StartWrittenOnce(cfg: Config) returns (t: State)
    requires Proper(cfg)
    ensures Reachable(t) && Clean(t) && t.cfg == cfg && cfg.rep >= 1 && t.hist == [Op(0, [1])] && t.seqNext == 1
    ensures t.watcher.Quiet? && t.members == t.record == Names(cfg.rep) && t.departed == map[] && |t.members| == cfg.rep
  {
    hide Reachable, Clean, Start, Names;
    NamesCount(cfg.rep);
    StartReachable(cfg, Names(cfg.rep));
    t := WriteHead(Start(cfg, Names(cfg.rep)), 1);
  }

  /** A region with the second write only, everywhere the number of that write. */
  predicate Mixed(s: State, src: Addr) {
    && s.cfg.size >= 2 && s.hist == [Op(0, [1]), Op(1, [1])]
    && s.record <= s.props.Keys && src in s.record
    && (forall p :: p in s.props ==> s.props[p].word == 1)
    && |s.props[src].data| == s.cfg.size && s.props[src].data[0] == 0 && s.props[src].data[1] == 1
  }

  lemma WroteMixed(s: State, t: State, src: Addr)
    requires Clean(s) && s.cfg.size >= 2 && s.hist == [Op(0, [1])] && s.seqNext == 1
    requires s.watcher == Connected(src, Deleted) && src in s.members && s.record == s.members
    requires src in s.props && s.props[src] == FreshPeer(s.cfg.size)
    requires Wrote(s, Op(1, [1]), s.members, t)
    ensures Mixed(t, src) && t.cfg == s.cfg && t.watcher == s.watcher && src in t.props
  {
  }

  lemma MixedIsSource(s: State, src: Addr, phase: Phase)
    requires Mixed(s, src)
    requires s.watcher == (if phase.AtConnected? then Connected(src, Deleted) else Resyncing(src, Deleted))
    requires phase.AtConnected? || phase.AtResyncing?
    ensures IsSource(Connections(s), Some(src)) && MidJoin(s, src) && PhaseOf(s.watcher) == phase
    ensures s.hist == [Op(0, [1]), Op(1, [1])]
  {
  }

  lemma ReplacedClean(s: State, p: Addr, t: State)
    requires Clean(s) && p in s.props
    requires t == s.(props := s.props[p := FreshPeer(s.cfg.size)], watcher := Connected(p, Deleted))
    ensures Clean(t)
  {
  }

  lemma PostsSnapshot(s: State) returns (t: State)
    requires Reachable(s) && s.watcher.Connected? && s.watcher.peer in s.props
    ensures Reachable(t) && t.watcher == Resyncing(s.watcher.peer, s.watcher.cause)
    ensures t == s.(props := t.props, watcher := t.watcher) && t.props.Keys == s.props.Keys
    ensures forall p :: p in s.props ==> t.props[p].data == s.props[p].data && t.props[p].word == s.props[p].word
    ensures Mixed(s, s.watcher.peer) ==> Mixed(t, s.watcher.peer)
  {
    hide Reachable;
    SnapshotFits(s);
    ReachableStep(s, RecoverPost);
    t := RecoverPostStep(s);
  }

  lemma MixedBuffer(s: State, src: Addr)
    requires Reachable(s) && Mixed(s, src) && IsSource(Connections(s), Some(src))
    ensures !RebuildsPrefix(s, src)
  {
    hide TryRecover, Inv, Reachable;
    ReachableInv(s);
    ConnectionSizes(s);
    BufferIsSource(s.cfg.size, Connections(s), Some(src));
    assert OpsFit(s.cfg.size, s.hist);
    forall m: nat | m <= |s.hist| ensures Replay(s.cfg.size, s.hist, m) != s.props[src].data {
      if m > 0 {
        ReplayHead(s.cfg.size, s.hist, m);
      }
    }
  }

  /** The exact condition: recovery never mixes states if and only if the file has room for no more
      than one byte or the watcher is not in the middle of bringing a peer in. */
  lemma UnmixedIff(cfg: Config, phase: Phase)
    requires cfg.rep >= 1 && cfg.size < TWO32
    ensures Unmixed(cfg, phase) <==> cfg.size <= 1 || phase.AtQuiet? || phase.AtSuspending?
  {
    hide Reachable, RebuildsPrefix;
    if cfg.size <= 1 || phase.AtQuiet? || phase.AtSuspending? {
      forall s: State, a: Addr |
        Reachable(s) && s.cfg == cfg && PhaseOf(s.watcher) == phase && IsSource(Connections(s), Some(a))
        ensures RebuildsPrefix(s, a)
      {
        if cfg.size <= 1 { TinyUnmixed(s, a); } else { QuietUnmixed(s, a); }
      }
    } else {
      var s, src := MidJoinMixes(cfg, phase);
    }
  }

  lemma TinyUnmixed(s: State, a: Addr)
    requires Reachable(s) && s.cfg.size <= 1 && IsSource(Connections(s), Some(a))
    ensures RebuildsPrefix(s, a)
  {
    hide Reachable, TryRecover, Inv, Unsynced, Replay, FileLen, OpsFit;
    if Unsynced(s, a) {
      assert a in s.props by { UnsyncedIsPeer(s, a); }
      ReachableInv(s);
      ConnectionSizes(s);
      BufferIsSource(s.cfg.size, Connections(s), Some(a));
      OneByte.AlwaysPrefixes(s, a);
    } else {
      NeverMixes(s, a);
    }
  }

  lemma UnsyncedIsPeer(s: State, a: Addr)
    requires Unsynced(s, a)
    ensures a in s.props
  {
  }

  lemma QuietUnmixed(s: State, a: Addr)
    requires Reachable(s) && !InJoin(s) && IsSource(Connections(s), Some(a))
    ensures RebuildsPrefix(s, a)
  {
    hide TryRecover, Inv, Unsynced, Replay, FileLen;
    ReachableInv(s);
    NoneUnsynced(s, a);
    NeverMixes(s, a);
  }
}
