/** Building runs: acknowledged writes that reach the peers one wants, peers that leave and
    peers that join. Every lemma here says that some state is reachable. */
module Runs {
  import opened Bytes
  import opened Replication
  import opened Invariant
  import opened Safety

  // ---- names ----

  function Name(i: nat): Addr {
    Addr(seq(i, j => 'x'))
  }

  function Names(n: nat): set<Addr> {
    if n == 0 then {} else Names(n - 1) + {Name(n - 1)}
  }

  /** No name of the set is as long as n characters. */
  predicate Shorter(addrs: set<Addr>, n: nat) {
    forall a :: a in addrs ==> |a.name| < n
  }

  lemma {:induction false} NamesCount(n: nat)
    ensures |Names(n)| == n && Shorter(Names(n), n)
  {
    if n > 0 {
      NamesCount(n - 1);
      assert |Name(n - 1).name| == n - 1;
    }
  }

  lemma {:induction false} NamesGrow(k: nat, n: nat)
    requires k <= n
    ensures Names(k) <= Names(n) && (k < n ==> Name(k) in Names(n)) && Name(k) !in Names(k)
  {
    NamesCount(k);
    assert |Name(k).name| == k;
    if k < n {
      NamesGrow(k, n - 1);
    }
  }

  lemma MinusTwice<T(!new), U(!new)>(m: map<T, U>, a: set<T>, x: T)
    ensures (m - a) - {x} == m - (a + {x})
  {
  }

  lemma NamesStep(k: nat)
    ensures Names(k + 1) == Names(k) + {Name(k)}
  {
  }

  // ---- writes ----

  /** Between writes, with every channel and queue empty and writes possible. */
  predicate Clean(s: State) {
    && s.writer.Idle? && !s.suspended && |s.members| > s.cfg.rep / 2
    && s.members == s.props.Keys && |s.buffer| == s.cfg.size
    && (forall p :: p in s.props ==> s.props[p].chan == [] && s.props[p].queue == [] && |s.props[p].data| == s.cfg.size)
  }

  /** One write is posted to the peer and nothing else. */
  predicate Loaded(p: Peer, op: Op, word: nat, tok: nat, queued: bool) {
    && op.off + |op.bytes| <= |p.data|
    && p.chan == [Data(WriteTok(tok), op.off, op.bytes), Word(WriteTok(tok), word)]
    && p.queue == (if queued then [tok] else []) && tok in p.posted
  }

  /** Two deliveries at one peer, and a poll where there is a queue. */
  function Drained(p: Peer, op: Op, word: nat, tok: nat, queued: bool): Peer {
    if !Loaded(p, op, word, tok, queued) then p
    else if queued then PollAt(DeliverAt(DeliverAt(p)))
    else DeliverAt(DeliverAt(p))
  }

  lemma DrainOne(s: State, p: Addr, op: Op, word: nat)
    requires Reachable(s) && s.writer.Waiting? && s.hist != []
    requires p in s.props && p in s.writer.tokens && Loaded(s.props[p], op, word, |s.hist| - 1, !s.cfg.sync)
    ensures Reachable(s.(props := s.props[p := Drained(s.props[p], op, word, |s.hist| - 1, !s.cfg.sync)],
                         writer := s.writer.(marked := s.writer.marked + {p})))
  {
    hide Reachable;
    ReachableStep(s, Deliver(p));
    var s1 := Next(s, Deliver(p));
    ReachableStep(s1, Deliver(p));
    var s2 := Next(s1, Deliver(p));
    var e := if s.cfg.sync then Await(p) else Poll(p);
    ReachableStep(s2, e);
    var t := Next(s2, e);
    assert t.props == s.props[p := Drained(s.props[p], op, word, |s.hist| - 1, !s.cfg.sync)];
  }

  function DrainedAll(props: map<Addr, Peer>, drained: set<Addr>, op: Op, word: nat, tok: nat, queued: bool)
    : map<Addr, Peer>
  {
    map p | p in props :: if p in drained then Drained(props[p], op, word, tok, queued) else props[p]
  }

  lemma {:induction false} DrainSet(s: State, drained: set<Addr>, op: Op, word: nat)
    requires Reachable(s) && s.writer.Waiting? && s.hist != []
    requires drained <= s.props.Keys && drained <= s.writer.tokens
    requires forall p :: p in drained ==> Loaded(s.props[p], op, word, |s.hist| - 1, !s.cfg.sync)
    ensures Reachable(s.(props := DrainedAll(s.props, drained, op, word, |s.hist| - 1, !s.cfg.sync),
                         writer := s.writer.(marked := s.writer.marked + drained)))
    decreases drained
  {
    hide Reachable, Drained, Loaded;
    var tok, queued := |s.hist| - 1, !s.cfg.sync;
    if drained == {} {
      assert DrainedAll(s.props, drained, op, word, tok, queued) == s.props;
      assert s.writer.marked + drained == s.writer.marked;
    } else {
      var p :| p in drained;
      var rest := drained - {p};
      DrainSet(s, rest, op, word);
      var t := s.(props := DrainedAll(s.props, rest, op, word, tok, queued),
                  writer := s.writer.(marked := s.writer.marked + rest));
      assert t.props[p] == s.props[p];
      DrainOne(t, p, op, word);
      assert DrainedAll(s.props, drained, op, word, tok, queued) ==
             t.props[p := Drained(s.props[p], op, word, tok, queued)];
      assert s.writer.marked + drained == s.writer.marked + rest + {p};
    }
  }

  /** From s, op was written and acknowledged. */
  predicate Advanced(s: State, op: Op, t: State) {
    && t == s.(buffer := t.buffer, fileSize := t.fileSize, word := s.seqNext, seqNext := (s.seqNext + 1) % TWO64,
               props := t.props, writer := Idle, hist := s.hist + [op], acked := s.acked + {|s.hist|})
    && |t.buffer| == |s.buffer| && t.props.Keys == s.props.Keys
  }

  /** The same, with only the peers in `drained` receiving it. */
  ghost predicate Wrote(s: State, op: Op, drained: set<Addr>, t: State) {
    && Advanced(s, op, t)
    && (forall p :: p in t.props ==>
          if p in drained then
            && op.off + |op.bytes| <= |s.props[p].data|
            && t.props[p].data == Splice(s.props[p].data, op.off, op.bytes)
            && t.props[p].word == s.seqNext && t.props[p].chan == [] && t.props[p].queue == []
            && t.props[p].stage.Joining? == s.props[p].stage.Joining?
          else t.props[p].data == s.props[p].data && t.props[p].word == s.props[p].word)
  }

  lemma PostedTo(s: State, op: Op) returns (t: State)
    requires Reachable(s) && Clean(s) && op.off + |op.bytes| <= s.cfg.size
    ensures Reachable(t)
    ensures t == s.(buffer := t.buffer, fileSize := t.fileSize, hist := s.hist + [op],
                    word := s.seqNext, seqNext := (s.seqNext + 1) % TWO64,
                    props := t.props, writer := Waiting(s.props.Keys, {}))
    ensures |t.buffer| == |s.buffer| && t.props.Keys == s.props.Keys
    ensures forall p :: p in s.props ==>
              && t.props[p].data == s.props[p].data && t.props[p].word == s.props[p].word
              && t.props[p].stage == s.props[p].stage
              && Loaded(t.props[p], op, s.seqNext, |s.hist|, !s.cfg.sync)
  {
    hide Reachable, PostTo, Splice, Loaded;
    assert Enabled(s, BeginWrite(op));
    ReachableStep(s, BeginWrite(op));
    var s1 := BeginWriteStep(s, op);
    SplicedPart(s.buffer, op.off, op.bytes);
    ReachableStep(s1, Post);
    t := PostStep(s1);
    forall p | p in s.props
      ensures t.props[p].data == s.props[p].data && t.props[p].word == s.props[p].word
      ensures t.props[p].stage == s.props[p].stage
      ensures Loaded(t.props[p], op, s.seqNext, |s.hist|, !s.cfg.sync)
    {
      PostLoads(s.props[p], |s.hist|, op, s.seqNext, !s.cfg.sync);
    }
  }

  lemma SplicedPart(s: seq<byte>, off: nat, bytes: seq<byte>)
    requires off + |bytes| <= |s|
    ensures Splice(s, off, bytes)[off..off + |bytes|] == bytes
  {
  }

  lemma PostLoads(p: Peer, tok: nat, op: Op, word: nat, queued: bool)
    requires p.chan == [] && p.queue == [] && op.off + |op.bytes| <= |p.data|
    ensures var q := PostTo(p, tok, op.off, op.bytes, word, queued);
            && q.data == p.data && q.word == p.word && q.stage == p.stage && Loaded(q, op, word, tok, queued)
  {
    var q := PostTo(p, tok, op.off, op.bytes, word, queued);
    assert q.posted[|q.posted| - 1] == tok;
  }

  /** A write that reaches the peers in `drained` is acknowledged: more than half of them, all
      when all have to acknowledge. */
  lemma WriteTo(s: State, op: Op, drained: set<Addr>) returns (t: State)
    requires Reachable(s) && Clean(s) && op.off + |op.bytes| <= s.cfg.size
    requires drained <= s.members && if s.cfg.sync then drained == s.members else |drained| > s.cfg.rep / 2
    ensures Reachable(t) && Wrote(s, op, drained, t)
  {
    hide Reachable, Drained, Loaded, Splice, DrainedAll, Wrote;
    var n := |s.hist|;
    assert s.members == s.props.Keys && |s.members| > s.cfg.rep / 2;
    var s2 := PostedTo(s, op);
    hide Clean;
    DrainSet(s2, drained, op, s.seqNext);
    var s3 := s2.(props := DrainedAll(s2.props, drained, op, s.seqNext, n, !s.cfg.sync),
                  writer := s2.writer.(marked := s2.writer.marked + drained));
    assert s3.writer.marked == drained;
    t := Acknowledged(s3);
    DrainedWrote(s, op, drained, s2.props, t);
  }

  lemma DrainedWrote(s: State, op: Op, drained: set<Addr>, loaded: map<Addr, Peer>, t: State)
    requires t == s.(buffer := t.buffer, fileSize := t.fileSize, word := s.seqNext, seqNext := (s.seqNext + 1) % TWO64,
                     props := t.props, writer := Idle, hist := s.hist + [op], acked := s.acked + {|s.hist|})
    requires |t.buffer| == |s.buffer| && loaded.Keys == s.props.Keys
    requires forall p :: p in s.props ==>
               && loaded[p].data == s.props[p].data && loaded[p].word == s.props[p].word
               && loaded[p].stage == s.props[p].stage && Loaded(loaded[p], op, s.seqNext, |s.hist|, !s.cfg.sync)
    requires t.props == DrainedAll(loaded, drained, op, s.seqNext, |s.hist|, !s.cfg.sync)
    ensures Wrote(s, op, drained, t)
  {
    hide Drained, Loaded, Splice;
    forall p | p in s.props && p in drained
      ensures op.off + |op.bytes| <= |s.props[p].data|
      ensures t.props[p].data == Splice(s.props[p].data, op.off, op.bytes)
      ensures t.props[p].word == s.seqNext && t.props[p].chan == [] && t.props[p].queue == []
      ensures t.props[p].stage.Joining? == s.props[p].stage.Joining?
    {
      DrainedEffect(loaded[p], op, s.seqNext, |s.hist|, !s.cfg.sync);
    }
  }

  lemma Acknowledged(s: State) returns (t: State)
    requires Reachable(s) && s.writer.Waiting? && s.hist != []
    requires if s.cfg.sync then s.writer.marked == s.writer.tokens
             else |s.members| > s.cfg.rep / 2 && |s.writer.marked| > s.cfg.rep / 2
    ensures Reachable(t) && t == s.(writer := Idle, acked := s.acked + {|s.hist| - 1})
  {
    hide Reachable;
    var e := if s.cfg.sync then ReturnSync else ReturnQuorum;
    ReachableStep(s, e);
    t := Next(s, e);
  }

  lemma DrainedEffect(p: Peer, op: Op, word: nat, tok: nat, queued: bool)
    requires Loaded(p, op, word, tok, queued)
    ensures op.off + |op.bytes| <= |p.data|
    ensures var q := Drained(p, op, word, tok, queued);
            && q.data == Splice(p.data, op.off, op.bytes) && q.word == word && q.chan == [] && q.queue == []
            && q.stage.Joining? == p.stage.Joining?
  {
  }

  lemma WroteClean(s: State, op: Op, t: State)
    requires Clean(s) && Wrote(s, op, s.members, t)
    ensures Clean(t)
  {
  }

  /** A write of one byte at position 0. */
  lemma WriteHeadTo(s: State, b: byte, drained: set<Addr>) returns (t: State)
    requires Reachable(s) && Clean(s) && 1 <= s.cfg.size
    requires drained <= s.members && if s.cfg.sync then drained == s.members else |drained| > s.cfg.rep / 2
    ensures Reachable(t) && Advanced(s, Op(0, [b]), t) && (drained == s.members ==> Clean(t))
    ensures forall p :: p in t.props && p in drained ==>
              t.props[p].word == s.seqNext && t.props[p].data != [] && t.props[p].data[0] == b
    ensures forall p :: p in t.props && p !in drained ==>
              t.props[p].data == s.props[p].data && t.props[p].word == s.props[p].word
  {
    hide Reachable;
    t := WriteTo(s, Op(0, [b]), drained);
    if drained == s.members {
      WroteClean(s, Op(0, [b]), t);
    }
    hide Clean, Advanced;
  }

  lemma WriteHead(s: State, b: byte) returns (t: State)
    requires Reachable(s) && Clean(s) && 1 <= s.cfg.size
    ensures Reachable(t) && Clean(t) && Advanced(s, Op(0, [b]), t)
    ensures forall p :: p in t.props ==>
              t.props[p].word == s.seqNext && t.props[p].data != [] && t.props[p].data[0] == b
  {
    hide Reachable, Wrote;
    t := WriteHeadTo(s, b, s.members);
  }

  lemma StartReachable(cfg: Config, members: set<Addr>)
    requires cfg.rep >= 1 && cfg.size < TWO32 && |members| == cfg.rep
    ensures Reachable(Start(cfg, members)) && Clean(Start(cfg, members))
    ensures var s := Start(cfg, members);
            && s.cfg == cfg && s.members == s.record == s.props.Keys == members && s.departed == map[]
            && s.hist == [] && s.seqNext == 0 && s.watcher.Quiet? && s.acked == {}
    ensures forall p :: p in members ==> Start(cfg, members).props[p].data == Zeros(cfg.size)
  {
    var s := Start(cfg, members);
    assert s.props.Keys == members;
    assert Initial(s);
    ReachesRefl(s);
  }

  // ---- peers that leave and join ----

  /** Between watcher events. */
  predicate Between(s: State) {
    s.watcher.Quiet? && s.members == s.props.Keys
  }

  /** Between writes as well. */
  predicate AtRest(s: State) {
    s.writer.Idle? && Between(s)
  }

  /** The same with every channel and queue empty. */
  predicate Still(s: State) {
    && AtRest(s) && |s.buffer| == s.cfg.size
    && (forall p :: p in s.props ==> s.props[p].chan == [] && s.props[p].queue == [] && |s.props[p].data| == s.cfg.size)
  }

  /** A peer leaves without replacement. */
  lemma Leaves(s: State, p: Addr, kept: bool) returns (t: State)
    requires Reachable(s) && AtRest(s) && p in s.members
    ensures Reachable(t) && AtRest(t) && |t.members| == |s.members| - 1 && (Still(s) ==> Still(t))
    ensures t == Dropped(s, p, kept).(childWatch := true, suspended := t.suspended)
    ensures t.members == s.members - {p} && t.props == s.props - {p} && t.cfg == s.cfg && t.childWatch
    ensures t.suspended == (s.suspended || |t.members| <= s.cfg.rep / 2)
  {
    hide Reachable;
    assert |s.members - {p}| == |s.members| - 1;
    ReachableStep(s, PeerDeleted(p, kept, None));
    t := Next(s, PeerDeleted(p, kept, None));
    if t.watcher.Suspending? {
      ReachableStep(t, Suspend);
      t := Next(t, Suspend);
    }
  }

  lemma SnapshotFits(s: State)
    requires Reachable(s)
    ensures s.fileSize <= |s.buffer| == s.cfg.size < TWO32
  {
    ReachableInv(s);
    ReplayBounds(s.cfg.size, s.hist, |s.hist|);
  }

  /** A new server is connected in a child event. */
  lemma Found(s: State, x: Addr) returns (t: State)
    requires Reachable(s) && s.watcher.Quiet? && s.childWatch && x !in s.members && x !in s.departed
    ensures Reachable(t)
    ensures t == s.(members := s.members + {x}, props := s.props[x := FreshPeer(s.cfg.size)], childWatch := false,
                    watcher := Connected(x, Joined))
  {
    hide Reachable;
    ReachableStep(s, ChildEvent(Some(x)));
    t := ConnectedTo(s.(childWatch := false), x, Joined);
    assert t.departed == s.departed;
  }

  /** The snapshot of a server just connected is posted. */
  lemma Resyncs(s: State, p: Addr) returns (t: State)
    requires Reachable(s) && s.watcher.Connected? && s.watcher.peer == p
    requires p in s.props && s.props[p] == FreshPeer(s.cfg.size)
    ensures Reachable(t) && p in t.props && s.fileSize <= |s.buffer|
    ensures t == s.(props := s.props[p := t.props[p]], watcher := Resyncing(p, s.watcher.cause))
    ensures t.props[p].chan == [Data(SyncTok, 0, s.buffer[..s.fileSize]), Word(SyncTok, s.word)]
    ensures t.props[p].queue == [] && |t.props[p].data| == s.cfg.size == |s.buffer|
  {
    hide Reachable;
    SnapshotFits(s);
    ReachableStep(s, RecoverPost);
    t := RecoverPostStep(s);
  }

  /** It arrives. */
  lemma Arrives(s: State, p: Addr, file: seq<byte>, word: nat) returns (t: State)
    requires Reachable(s) && p in s.props && |file| <= |s.props[p].data|
    requires s.props[p].chan == [Data(SyncTok, 0, file), Word(SyncTok, word)]
    ensures Reachable(t) && p in t.props && t == s.(props := s.props[p := t.props[p]])
    ensures t.props[p].queue == s.props[p].queue && t.props[p].chan == [] && |t.props[p].data| == |s.props[p].data|
  {
    hide Reachable;
    ReachableStep(s, Deliver(p));
    var s1 := Next(s, Deliver(p));
    assert s1.props[p].chan == [Word(SyncTok, word)];
    ReachableStep(s1, Deliver(p));
    t := Next(s1, Deliver(p));
    assert t.props == s.props[p := t.props[p]];
  }

  /** The event is closed. */
  lemma Closes(s: State, p: Addr) returns (t: State)
    requires Reachable(s) && s.watcher.Resyncing? && s.watcher.peer == p && p in s.props && s.props[p].chan == []
    ensures Reachable(t) && Enabled(s, RecoverDone) && t == RecoverDoneStep(s)
  {
    hide Reachable;
    ReachableStep(s, RecoverDone);
    t := RecoverDoneStep(s);
  }

  lemma StillQuiet(s: State)
    requires Still(s)
    ensures s.watcher.Quiet? && s.writer.Idle? && s.members == s.props.Keys
  {
  }

  /** A server is connected in a child event, receives the snapshot, and the event is closed. */
  lemma FoundAndClosed(s: State, x: Addr) returns (t: State)
    requires Reachable(s) && s.watcher.Quiet? && s.childWatch && x !in s.members && x !in s.departed
    ensures Reachable(t) && x in t.props && |s.buffer| == s.cfg.size
    ensures t == s.(members := s.members + {x}, props := s.props[x := t.props[x]], childWatch := t.childWatch,
                    suspended := s.suspended && |s.members + {x}| <= s.cfg.rep / 2)
    ensures t.props[x].chan == [] && t.props[x].queue == [] && |t.props[x].data| == s.cfg.size
  {
    hide Reachable, FreshPeer, Next, Enabled;
    FreshQueue(s.cfg.size);
    var s1 := Found(s, x);
    var s2 := Resyncs(s1, x);
    var s3 := Arrives(s2, x, s.buffer[..s.fileSize], s.word);
    t := Closes(s3, x);
    assert t.props == s.props[x := t.props[x]];
  }

  /** A new server joins and becomes a peer, and the membership record stays as it was. */
  lemma Joins(s: State, x: Addr) returns (t: State)
    requires Reachable(s) && Still(s) && s.childWatch && x !in s.members && x !in s.departed
    ensures Reachable(t) && Still(t) && x in t.props
    ensures t == s.(members := s.members + {x}, props := s.props[x := t.props[x]], childWatch := t.childWatch,
                    suspended := s.suspended && |s.members + {x}| <= s.cfg.rep / 2)
  {
    hide Reachable;
    t := FoundAndClosed(s, x);
  }

  lemma FreshQueue(size: nat)
    ensures FreshPeer(size).queue == []
  {
  }

  /** At full strength and unsuspended, a state at rest can be written to. */
  lemma StillClean(s: State)
    requires Still(s) && !s.suspended && |s.members| == s.cfg.rep >= 1
    ensures Clean(s)
  {
  }

  /** A peer leaves and another joins in a child event. */
  lemma Swaps(s: State, p: Addr, kept: bool, x: Addr) returns (t: State)
    requires Reachable(s) && Clean(s) && Still(s) && |s.members| == s.cfg.rep >= 1
    requires p in s.members && x !in s.members && x !in s.departed
    ensures Reachable(t) && Clean(t) && Still(t) && |t.members| == s.cfg.rep
    ensures t.members == s.members - {p} + {x}
    ensures t == s.(members := t.members, props := t.props, childWatch := t.childWatch,
                    departed := Dropped(s, p, kept).departed)
  {
    hide Reachable, Clean;
    var s1 := Leaves(s, p, kept);
    t := Joins(s1, x);
    assert |s1.members + {x}| == s.cfg.rep;
    assert !s.suspended by { CleanUnsuspended(s); }
    StillClean(t);
  }

  lemma CleanUnsuspended(s: State)
    requires Clean(s)
    ensures !s.suspended
  {
  }

  /** A peer is deleted and its server, restarted, is taken as the replacement. */
  lemma Replaces(s: State, p: Addr) returns (t: State)
    requires Reachable(s) && s.watcher.Quiet? && p in s.members && s.members == s.props.Keys && p !in s.departed
    ensures Reachable(t)
    ensures t == s.(props := s.props[p := FreshPeer(s.cfg.size)], watcher := Connected(p, Deleted))
  {
    hide Reachable;
    ReachableStep(s, PeerDeleted(p, false, Some(p)));
    t := Next(s, PeerDeleted(p, false, Some(p)));
    assert t.members == s.members;
    assert t.props == s.props[p := FreshPeer(s.cfg.size)];
    assert t.departed == s.departed;
  }

  /** A peer is deleted, its restarted server takes its place and is recovered. */
  lemma Renews(s: State, p: Addr) returns (t: State)
    requires Reachable(s) && s.watcher.Quiet? && p in s.members && s.members == s.props.Keys && p !in s.departed
    ensures Reachable(t) && p in t.props && t.props[p].queue == []
    ensures t == s.(props := s.props[p := t.props[p]], record := s.members)
  {
    hide *;
    var s1 := Replaces(s, p);
    FreshQueue(s.cfg.size);
    var s2 := Resyncs(s1, p);
    var s3 := Arrives(s2, p, s.buffer[..s.fileSize], s.word);
    t := Closes(s3, p);
    DoneDeleted(s3, s.members);
    assert t.props == s.props[p := t.props[p]];
  }

  lemma DoneDeleted(s: State, members: set<Addr>)
    requires s.watcher.Resyncing? && s.watcher.cause.Deleted? && s.members == members && Enabled(s, RecoverDone)
    ensures RecoverDoneStep(s) == s.(watcher := Quiet, record := members)
  {
  }
}
