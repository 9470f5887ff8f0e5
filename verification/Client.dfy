/** The client as the program it is: fields updated in place by the write path and the watcher,
    each method a run of the protocol's steps. */
module Client {
  import opened Bytes
  import opened Replication
  import opened Invariant
  import opened Safety
  import LocalLog

  // ---- what other threads and the network may do meanwhile ----

  /** Events that are not the application thread's. */
  predicate Outside(e: Event) {
    || e.Deliver? || e.PeerDeleted? || e.Suspend? || e.ChildEvent? || e.RecoverPost? || e.RecoverDone?
    || e.Arrive? || e.Restart?
  }

  predicate AllOutside(es: seq<Event>) {
    forall i :: 0 <= i < |es| ==> Outside(es[i])
  }

  function StepIf(s: State, e: Event): (t: State)
    ensures Outside(e) ==> t.writer == s.writer && t.hist == s.hist && t.cfg == s.cfg && t.acked == s.acked
  {
    hide Next;
    if Enabled(s, e) then OutsideKeeps(s, e); Next(s, e) else s
  }

  lemma OutsideKeeps(s: State, e: Event)
    requires Enabled(s, e)
    ensures var t := Next(s, e);
            Outside(e) ==> t.writer == s.writer && t.hist == s.hist && t.cfg == s.cfg && t.acked == s.acked
  {
    hide Next, Enabled, Outside;
    if Outside(e) {
      OutsideFrame(s, e);
    }
  }

  function Interferences(s: State, es: seq<Event>): (t: State)
    requires AllOutside(es)
    ensures t.writer == s.writer && t.hist == s.hist && t.cfg == s.cfg && t.acked == s.acked
  {
    if es == [] then s else StepIf(Interferences(s, es[..|es| - 1]), es[|es| - 1])
  }

  /** Events that can all happen in turn do. */
  lemma {:induction false} InterferencesRun(s: State, es: seq<Event>)
    requires AllOutside(es) && Run(s, es).Some?
    ensures Interferences(s, es) == Run(s, es).value
  {
    hide Next, Enabled, Outside;
    if es != [] {
      InterferencesRun(s, es[..|es| - 1]);
    }
  }

  // ---- one pass over the queues, and rounds of it ----

  predicate Pollable(p: Peer) {
    p.queue != [] && Completed(p, WriteTok(p.queue[0]))
  }

  /** The polling pass of WriteQuorum's loop over the peers in `polled`. */
  function PollEach(s: State, polled: set<Addr>): State
    requires s.writer.Waiting?
  {
    s.(props := map p | p in s.props ::
         if p in polled && Pollable(s.props[p]) then PollAt(s.props[p]) else s.props[p],
       writer := s.writer.(marked := s.writer.marked +
         set p | p in s.props && p in polled && Pollable(s.props[p]) && s.props[p].queue[0] == |s.hist| - 1))
  }

  function PollAll(s: State): State
    requires s.writer.Waiting?
  {
    PollEach(s, s.props.Keys)
  }

  predicate QuorumDone(s: State)
    requires s.writer.Waiting?
  {
    |s.members| <= s.cfg.rep / 2 || |s.writer.marked| > s.cfg.rep / 2
  }

  predicate Schedule(env: seq<seq<Event>>) {
    forall k :: 0 <= k < |env| ==> AllOutside(env[k])
  }

  /** The state after the rounds of env, each the outside events and then a polling pass. */
  function Rounds(s: State, env: seq<seq<Event>>): (t: State)
    requires s.writer.Waiting? && Schedule(env)
    ensures t.writer.Waiting? && t.hist == s.hist && t.cfg == s.cfg && t.acked == s.acked
    decreases |env|
  {
    if env == [] then s else PollAll(Interferences(Rounds(s, env[..|env| - 1]), env[|env| - 1]))
  }

  /** The first of the rounds after which the loop may stop is the last one made, if any. */
  ghost predicate FirstDone(s: State, env: seq<seq<Event>>, done: bool, rounds: nat)
    requires s.writer.Waiting? && Schedule(env) && rounds <= |env|
  {
    forall k :: 0 < k <= rounds ==> (QuorumDone(Rounds(s, env[..k])) <==> done && k == rounds)
  }

  function Returned(s: State): State {
    s.(writer := Idle,
       acked := if |s.members| <= s.cfg.rep / 2 || s.hist == [] then s.acked else s.acked + {|s.hist| - 1})
  }

  /** The polling loop from s: it runs until the first round that completes a quorum or finds
      too few peers, and returns, acknowledging the write unless too few peers were left; or it
      uses up env and is still polling. */
  ghost predicate Polled(s: State, env: seq<seq<Event>>, done: bool, rounds: nat, t: State)
    requires s.writer.Waiting? && Schedule(env) && rounds <= |env|
  {
    && FirstDone(s, env, done, rounds)
    && if done then rounds > 0 && t == Returned(Rounds(s, env[..rounds]))
       else rounds == |env| && t == Rounds(s, env)
  }

  lemma PollNone(s: State)
    requires s.writer.Waiting?
    ensures PollEach(s, {}) == s
  {
    assert PollEach(s, {}).props == s.props && PollEach(s, {}).writer.marked == s.writer.marked;
  }

  lemma PollOneMore(s: State, polled: set<Addr>, p: Addr)
    requires s.writer.Waiting? && p in s.props && p !in polled && !s.cfg.sync
    ensures var t := PollEach(s, polled);
            && t == s.(props := t.props, writer := t.writer) && t.writer.Waiting?
            && p in t.props && t.props[p] == s.props[p]
            && PollEach(s, polled + {p}) == if Pollable(s.props[p]) then Next(t, Poll(p)) else t
  {
    var t := PollEach(s, polled);
    var u := PollEach(s, polled + {p});
    if Pollable(s.props[p]) {
      assert u.props == Next(t, Poll(p)).props;
      assert u.writer.marked == Next(t, Poll(p)).writer.marked;
    } else {
      assert u.props == t.props;
      assert u.writer.marked == t.writer.marked;
    }
  }

  /** A polling pass, peer by peer: the front of a queue goes if and only if neither of its writes is
      in flight, and only that; a peer has marked the pending write afterwards if and only if it had
      before or its front was that write and went. */
  lemma PassIs(s: State, p: Addr)
    requires s.writer.Waiting? && p in s.props
    ensures var c, t := s.props[p], PollAll(s);
            var gone := c.queue != [] && forall j :: 0 <= j < |c.chan| ==> c.chan[j].tok != WriteTok(c.queue[0]);
            && t == s.(props := t.props, writer := t.writer) && t.props.Keys == s.props.Keys
            && t.props[p] == (if gone then c.(queue := c.queue[1..], marked := c.marked + {c.queue[0]}) else c)
            && (p in t.writer.marked <==> p in s.writer.marked || (gone && c.queue[0] == |s.hist| - 1))
            && t.writer.tokens == s.writer.tokens
  {
  }

  /** The client's posting loop, part way through. */
  function PostEach(s: State, done: set<Addr>): map<Addr, Peer>
    requires Enabled(s, Post)
  {
    var bytes := s.buffer[s.writer.off..s.writer.off + s.writer.len];
    map p | p in s.props ::
      if p in done then PostTo(s.props[p], |s.hist| - 1, s.writer.off, bytes, s.word, !s.cfg.sync) else s.props[p]
  }

  class CSLClient {
    const log: LocalLog.CSLClientLog
    const repFactor: nat
    var peers: set<Addr>
    var remoteProps: map<Addr, Peer>
    var suspended: bool
    var childWatch: bool
    var record: set<Addr>
    /** What the servers that left the membership still hold. */
    var departed: map<Addr, Peer>
    /** Control state: where the application thread and the watcher thread stand. */
    var writer: Writer
    var watcher: Watcher
    /** History. */
    var hist: seq<Op>
    var acked: set<nat>

    function View(): State
      requires WORD <= log.buffer.Length
      reads this, log, log.buffer
    {
      var slot := log.buffer.Length - WORD;
      State(Config(slot, repFactor, false),
            log.buffer[..slot], log.fileSize, log.seqNum, FromLE(log.buffer[slot..]),
            peers, remoteProps, writer, watcher, suspended, childWatch, record, departed, hist, acked)
    }

    ghost predicate Valid()
      reads this, log, log.buffer
    {
      log.View().Valid() && Inv(View())
    }

    constructor (log: LocalLog.CSLClientLog, hosts: set<Addr>)
      requires log.View().Valid() && ZeroFrom(log.buffer[..], 0) && log.fileSize == log.seqNum == 0
      requires hosts != {} && log.buffer.Length < TWO32
      ensures Valid() && Initial(View()) && this.log == log
      ensures peers == record == remoteProps.Keys == hosts && repFactor == |hosts|
    {
      this.log := log;
      repFactor := |hosts|;
      peers, remoteProps := hosts, map p | p in hosts :: FreshPeer(log.buffer.Length - WORD).(stage := Live(0));
      suspended, childWatch, record, departed := false, false, hosts, map[];
      writer, watcher := Idle, Quiet;
      hist, acked := [], {};
      new;
      ZeroWord(log.buffer[log.buffer.Length - WORD..]);
      assert View().buffer == Zeros(log.buffer.Length - WORD);
      InitialInv(View());
    }

    /** Another thread or the network takes a step. */
    method Interfere(e: Event)
      requires Valid() && Outside(e)
      modifies this
      ensures Valid() && View() == StepIf(old(View()), e) && Reaches(old(View()), View())
    {
      hide Inv, Enabled, Reaches, Outside, Next;
      var s := View();
      ReachesRefl(s);
      if Enabled(s, e) {
        NextInv(s, e);
        ReachesStep(s, s, e);
        var t := Next(s, e);
        OutsideFrame(s, e);
        peers, remoteProps, watcher := t.members, t.props, t.watcher;
        suspended, childWatch, record, departed := t.suspended, t.childWatch, t.record, t.departed;
        assert View() == t;
      }
    }

    method InterfereAll(es: seq<Event>)
      requires Valid() && AllOutside(es)
      modifies this
      ensures Valid() && View() == Interferences(old(View()), es) && Reaches(old(View()), View())
    {
      hide Inv, Reaches, StepIf;
      ReachesRefl(View());
      for i := 0 to |es|
        invariant Valid() && View() == Interferences(old(View()), es[..i]) && Reaches(old(View()), View())
      {
        ghost var before := View();
        assert es[..i + 1][..i] == es[..i];
        Interfere(es[i]);
        ReachesJoin(old(View()), before, View());
      }
      assert es[..|es|] == es;
    }

    /** The posting loop of WriteQuorum, over the peers in whatever order. */
    method PostAll()
      requires Valid() && writer.Begun? && !suspended
      modifies this
      ensures Valid() && Enabled(old(View()), Post) && View() == PostStep(old(View()))
      ensures Reaches(old(View()), View())
    {
      hide Reaches, Inv, PostTo;
      ghost var s := View();
      assert Enabled(s, Post) by { BegunCanPost(s); }
      var slot := log.buffer.Length - WORD;
      var bytes := log.buffer[..slot][writer.off..writer.off + writer.len];
      var word := FromLE(log.buffer[slot..]);
      var todo := remoteProps.Keys;
      while todo != {}
        invariant todo <= s.props.Keys && remoteProps == PostEach(s, s.props.Keys - todo)
        invariant View() == s.(props := remoteProps)
        decreases todo
      {
        var p :| p in todo;
        remoteProps := remoteProps[p := PostTo(remoteProps[p], |hist| - 1, writer.off, bytes, word, true)];
        todo := todo - {p};
        assert remoteProps == PostEach(s, s.props.Keys - todo);
      }
      writer := Waiting(remoteProps.Keys, {});
      assert remoteProps == PostStep(s).props;
      ReachesRefl(s);
      NextInv(s, Post);
      ReachesStep(s, s, Post);
    }

    /** One polling pass: the front of every op_queue is checked once, and popped and marked
        when both its writes have completed. */
    method PollPass()
      requires Valid() && writer.Waiting?
      modifies this
      ensures Valid() && View() == PollAll(old(View()))
      ensures Reaches(old(View()), View())
    {
      hide Reaches, Inv, Completed, PollAt, PollEach;
      ghost var s := View();
      ReachesRefl(s);
      ghost var done: set<Addr> := {};
      var todo := remoteProps.Keys;
      PollNone(s);
      while todo != {}
        invariant todo <= s.props.Keys && done == s.props.Keys - todo
        invariant Valid() && View() == PollEach(s, done) && Reaches(s, View())
        decreases todo
      {
        var p :| p in todo;
        ghost var t := View();
        PollOneMore(s, done, p);
        var prop := remoteProps[p];
        if prop.queue != [] && Completed(prop, WriteTok(prop.queue[0])) {
          if prop.queue[0] == |hist| - 1 {
            writer := writer.(marked := writer.marked + {p});
          }
          remoteProps := remoteProps[p := PollAt(prop)];
          NextInv(t, Poll(p));
          ReachesStep(s, t, Poll(p));
        }
        todo := todo - {p};
        done := done + {p};
      }
      assert done == s.props.Keys;
    }

    method QuorumCompleted() returns (r: bool)
      requires Valid() && writer.Waiting?
      ensures r <==> |peers| <= repFactor / 2 || |writer.marked| > repFactor / 2
      ensures r <==> QuorumDone(View())
    {
      hide Inv;
      assert writer.marked <= writer.tokens by { MarkedArePosted(View()); }
      if |peers| <= repFactor / 2 { return true; }
      var n := 0;
      var todo := writer.tokens;
      ghost var seen: set<Addr> := {};
      while todo != {}
        invariant todo !! seen && todo + seen == writer.tokens
        invariant n == |writer.marked * seen| <= repFactor / 2
        decreases todo
      {
        var t :| t in todo;
        CountOneMore(writer.marked, seen, t);
        if t in writer.marked {
          n := n + 1;
          if n > repFactor / 2 {
            SubsetCard(writer.marked * (seen + {t}), writer.marked);
            return true;
          }
        }
        todo, seen := todo - {t}, seen + {t};
      }
      assert writer.marked * seen == writer.marked;
      return false;
    }

    /** Post, then poll until a majority has marked the token or too few peers are left. `env`
        is what other threads and the network do before each polling pass; when it is used up
        first, the call is still polling. */
    method WriteQuorum(env: seq<seq<Event>>) returns (done: bool, rounds: nat)
      requires Valid() && writer.Begun? && !suspended && Schedule(env)
      modifies this
      ensures Valid() && Reaches(old(View()), View()) && Enabled(old(View()), Post) && rounds <= |env|
      ensures Polled(PostStep(old(View())), env, done, rounds, View())
    {
      hide Reaches, Inv, QuorumDone, PollAll, Interferences;
      ghost var s0 := View();
      PostAll();
      ghost var s1 := View();
      done, rounds := false, 0;
      assert env[..0] == [];
      while !done && rounds < |env|
        invariant rounds <= |env| && Valid() && writer.Waiting? && (done ==> rounds > 0)
        invariant View() == Rounds(s1, env[..rounds]) && Reaches(s0, View())
        invariant FirstDone(s1, env, done, rounds)
        decreases |env| - rounds
      {
        ghost var before := View();
        InterfereAll(env[rounds]);
        ReachesJoin(s0, before, View());
        ghost var mid := View();
        PollPass();
        ReachesJoin(s0, mid, View());
        assert env[..rounds + 1][..rounds] == env[..rounds];
        rounds := rounds + 1;
        assert View() == Rounds(s1, env[..rounds]);
        done := QuorumCompleted();
      }
      assert rounds == |env| ==> env[..rounds] == env;
      if done {
        Return(s0);
      }
    }

    /** WriteQuorum's return, through whichever branch of quorumCompleted. */
    method Return(ghost s0: State)
      requires Valid() && writer.Waiting? && QuorumDone(View()) && Reaches(s0, View())
      modifies this
      ensures Valid() && Reaches(s0, View())
      ensures View() == Returned(old(View()))
    {
      hide Reaches, PeersOk, ClientOk;
      ghost var s := View();
      ghost var e := if |peers| <= repFactor / 2 then ReturnShort else ReturnQuorum;
      NextInv(s, e);
      ReachesStep(s0, s, e);
      if |peers| > repFactor / 2 {
        acked := acked + {|hist| - 1};
      }
      writer := Idle;
    }

    /** The replication half of a write: once the recovery lock is free, WriteQuorum. `wait` is
        what happens before the lock is taken; a call still suspended then has posted nothing. */
    method Replicate(wait: seq<Event>, env: seq<seq<Event>>) returns (done: bool, rounds: nat)
      requires Valid() && writer.Begun? && AllOutside(wait) && Schedule(env)
      modifies this
      ensures Valid() && Reaches(old(View()), View()) && rounds <= |env|
      ensures var s := Interferences(old(View()), wait);
              if s.suspended then !done && View() == s
              else Enabled(s, Post) && Polled(PostStep(s), env, done, rounds, View())
    {
      hide Reaches, Inv, Polled, PostStep;
      ghost var s0 := View();
      InterfereAll(wait);
      if suspended {
        return false, 0;
      }
      ghost var s1 := View();
      done, rounds := WriteQuorum(env);
      ReachesJoin(s0, s1, View());
    }

    /** write(2) through the log. */
    method Append(buf: seq<byte>, wait: seq<Event>, env: seq<seq<Event>>) returns (n: nat, done: bool, rounds: nat)
      requires Valid() && writer.Idle? && AllOutside(wait) && Schedule(env)
      requires log.bufOffset + |buf| + WORD <= log.buffer.Length
      modifies this, log, log.buffer
      ensures Valid() && Reaches(old(View()), View()) && rounds <= |env|
      ensures n == |buf| && log.bufOffset == old(log.bufOffset) + |buf|
      ensures Enabled(old(View()), BeginWrite(Op(old(log.bufOffset), buf)))
      ensures var s := Interferences(BeginWriteStep(old(View()), Op(old(log.bufOffset), buf)), wait);
              if s.suspended then !done && View() == s
              else Enabled(s, Post) && Polled(PostStep(s), env, done, rounds, View())
    {
      hide Reaches, Inv, Polled, PostStep;
      ghost var s0 := View();
      n := LocalWrite(Op(log.bufOffset, buf));
      ghost var s1 := View();
      done, rounds := Replicate(wait, env);
      ReachesJoin(s0, s1, View());
    }

    /** pwrite(2) through the log. */
    method WritePos(buf: seq<byte>, pos: nat, wait: seq<Event>, env: seq<seq<Event>>)
      returns (n: nat, done: bool, rounds: nat)
      requires Valid() && writer.Idle? && AllOutside(wait) && Schedule(env)
      requires pos + |buf| + WORD <= log.buffer.Length
      modifies this, log, log.buffer
      ensures Valid() && Reaches(old(View()), View()) && rounds <= |env|
      ensures n == |buf| && log.bufOffset == old(log.bufOffset)
      ensures Enabled(old(View()), BeginWrite(Op(pos, buf)))
      ensures var s := Interferences(BeginWriteStep(old(View()), Op(pos, buf)), wait);
              if s.suspended then !done && View() == s
              else Enabled(s, Post) && Polled(PostStep(s), env, done, rounds, View())
    {
      hide Reaches, Inv, Polled, PostStep;
      ghost var s0 := View();
      n := LocalWritePos(Op(pos, buf));
      ghost var s1 := View();
      done, rounds := Replicate(wait, env);
      ReachesJoin(s0, s1, View());
    }

    /** replacePeer: drop the old peer, if one is given and connected, and connect the first
        listed server that is not a peer. `kept` says whether the old peer's server still holds
        its region. */
    method ReplacePeer(oldPeer: Option<Addr>, kept: bool, servers: seq<Addr>) returns (newPeer: Option<Addr>)
      requires WORD <= log.buffer.Length
      modifies this
      ensures oldPeer.Some? && oldPeer.value !in old(remoteProps) ==> newPeer.None? && View() == old(View())
      ensures !(oldPeer.Some? && oldPeer.value !in old(remoteProps)) ==>
                var s := if oldPeer.Some? then Dropped(old(View()), oldPeer.value, kept) else old(View());
                && newPeer == FirstOther(servers, s.members)
                && View() == if newPeer.Some?
                             then ConnectedTo(s, newPeer.value, if oldPeer.Some? then Deleted else Joined)
                             else s
    {
      if oldPeer.Some? {
        if oldPeer.value !in remoteProps {
          return None;
        }
        departed := if kept then departed[oldPeer.value := remoteProps[oldPeer.value]] else departed;
        remoteProps := remoteProps - {oldPeer.value};
        peers := peers - {oldPeer.value};
      }
      var i := 0;
      while i < |servers| && servers[i] in peers
        invariant i <= |servers| && FirstOther(servers, peers) == FirstOther(servers[i..], peers)
      {
        i := i + 1;
      }
      if i >= |servers| {
        return None;
      }
      AddPeer(servers[i], if oldPeer.Some? then Deleted else Joined);
      return Some(servers[i]);
    }

    /** AddPeer: a server that still holds the file hands back the region it has, any other one
        gives it a zero region. */
    method AddPeer(host: Addr, cause: Cause)
      requires host !in peers && WORD <= log.buffer.Length
      modifies this
      ensures View() == ConnectedTo(old(View()), host, cause)
      ensures host in remoteProps
      ensures var prop := remoteProps[host];
              && prop.chan == [] && prop.queue == [] && prop.posted == [] && prop.marked == {}
              && if host in old(departed)
                 then prop.data == old(departed)[host].data && prop.word == old(departed)[host].word
                 else prop.data == Zeros(log.buffer.Length - WORD) && prop.word == 0
    {
      var slot := log.buffer.Length - WORD;
      var prop := FreshPeer(slot);
      if host in departed {
        prop := prop.(data := departed[host].data, word := departed[host].word);
      }
      remoteProps := remoteProps[host := prop];
      departed := departed - {host};
      peers := peers + {host};
      watcher := Connected(host, cause);
    }

    /** recoverPeer: post the file and the word, and wait until both have arrived. */
    method RecoverPeer(x: Addr)
      requires Valid() && watcher.Connected? && watcher.peer == x
      modifies this
      ensures Valid() && Reaches(old(View()), View())
      ensures x in remoteProps && View() == old(View()).(props := old(remoteProps)[x := remoteProps[x]],
                                                          watcher := Resyncing(x, old(watcher).cause))
      ensures remoteProps[x].data == View().buffer && remoteProps[x].word == View().word && remoteProps[x].chan == []
      ensures x in old(remoteProps) && SameTokens(remoteProps[x], old(remoteProps)[x])
    {
      hide Reaches, Inv, SyncsAll, NextStage, Splice;
      ghost var s := View();
      PostSnapshot(x);
      ghost var s1 := View();
      while remoteProps[x].chan != []
        invariant x in remoteProps && Valid() && Reaches(s, View())
        invariant View() == s1.(props := s1.props[x := remoteProps[x]])
        invariant SyncsAll(remoteProps[x], |hist|) && SameTokens(remoteProps[x], s1.props[x])
        decreases |remoteProps[x].chan|
      {
        ghost var t := View();
        DeliverToSynced(t, x);
        ReachesStep(s, t, Deliver(x));
        remoteProps := remoteProps[x := DeliverAt(remoteProps[x])];
        assert View() == Next(t, Deliver(x));
      }
      SyncedIsBuffer(View(), x);
    }

    method PostSnapshot(x: Addr)
      requires Valid() && watcher.Connected? && watcher.peer == x
      modifies this
      ensures Valid() && Reaches(old(View()), View()) && x in remoteProps
      ensures View() == old(View()).(props := old(remoteProps)[x := remoteProps[x]],
                                     watcher := Resyncing(x, old(watcher).cause))
      ensures SyncsAll(remoteProps[x], |hist|)
      ensures x in old(remoteProps) && SameTokens(remoteProps[x], old(remoteProps)[x])
    {
      hide Reaches, Inv;
      ghost var s := View();
      ReachesRefl(s);
      assert Enabled(s, RecoverPost) by { ConnectedCanSync(s); }
      NextInv(s, RecoverPost);
      ReachesStep(s, s, RecoverPost);
      var slot := log.buffer.Length - WORD;
      var bytes := log.buffer[..slot][..log.fileSize % TWO32];
      var posted := if writer.Begun? && hist != [] then |hist| - 1 else |hist|;
      remoteProps := remoteProps[x := SnapshotTo(remoteProps[x], bytes, FromLE(log.buffer[slot..]), posted, |hist|)];
      watcher := Resyncing(x, watcher.cause);
      assert View() == Next(s, RecoverPost);
    }

    /** ClientWatcher on a deleted peer. Taking the recovery lock waits for a write that is still
        polling; with too few peers left its next check returns. */
    method OnPeerDeleted(p: Addr, kept: bool, servers: seq<Addr>) returns (replaced: bool)
      requires Valid() && watcher.Quiet? && p in peers
      modifies this
      ensures Valid() && Reaches(old(View()), View()) && watcher.Quiet?
      ensures replaced <==> FirstOther(servers, old(peers) - {p}).Some?
      ensures !replaced ==> peers == old(peers) - {p} && childWatch && record == old(record)
      ensures !replaced && |peers| <= repFactor / 2 ==> !writer.Waiting? && acked == old(acked)
      ensures replaced || |peers| > repFactor / 2 ==> writer == old(writer)
      ensures replaced ==>
                var x := FirstOther(servers, old(peers) - {p}).value;
                && peers == old(peers) - {p} + {x} == record && x in remoteProps
                && remoteProps[x].data == View().buffer && remoteProps[x].word == View().word
      ensures suspended <==> |peers| <= repFactor / 2
      ensures p in old(remoteProps)
      ensures var left := if kept then old(departed)[p := old(remoteProps)[p]] else old(departed);
              if replaced then
                var x := FirstOther(servers, old(peers) - {p}).value;
                && View() == old(View()).(members := peers, props := (old(remoteProps) - {p})[x := remoteProps[x]],
                                          departed := left - {x}, record := peers)
                && remoteProps[x].chan == [] && SameTokens(remoteProps[x], FreshPeer(0))
              else
                View() == old(View()).(members := peers, props := old(remoteProps) - {p}, departed := left,
                                       childWatch := true, suspended := suspended, writer := writer)
    {
      hide Reaches, Inv, Enabled, JoiningPeer, FirstOther;
      ghost var s := View();
      BetweenFlags(s);
      var newPeer := ReplacePeer(Some(p), kept, servers);
      if newPeer.None? {
        NoReplacement(s, p, kept);
        BetweenFlags(View());
        return false;
      }
      DeletedAndFound(s, p, kept, servers, newPeer.value);
      Replacement(s, p, kept, newPeer.value);
      BetweenFlags(View());
      return true;
    }

    /** The watcher when a replacement has been connected. */
    method Replacement(ghost s: State, ghost p: Addr, ghost kept: bool, x: Addr)
      requires Valid() && p in s.props && View() == ConnectedTo(Dropped(s, p, kept), x, Deleted)
      requires Reaches(s, View()) && s.watcher.Quiet?
      modifies this
      ensures Valid() && Reaches(s, View()) && watcher.Quiet? && x in remoteProps
      ensures View() == s.(members := s.members - {p} + {x}, props := (s.props - {p})[x := remoteProps[x]],
                           departed := (if kept then s.departed[p := s.props[p]] else s.departed) - {x},
                           record := s.members - {p} + {x})
      ensures remoteProps[x].data == View().buffer && remoteProps[x].word == View().word
      ensures remoteProps[x].chan == [] && SameTokens(remoteProps[x], FreshPeer(0))
    {
      hide Reaches, Inv, JoiningPeer;
      ghost var t := View();
      JoinsFresh(Dropped(s, p, kept), x);
      Integrate(x);
      ReachesJoin(s, t, View());
    }

    /** The watcher when no replacement was found. */
    method NoReplacement(ghost s: State, ghost p: Addr, ghost kept: bool)
      requires WORD <= log.buffer.Length && log.View().Valid() && Inv(s) && s.watcher.Quiet? && p in s.members
      requires p in s.props && View() == Dropped(s, p, kept)
      modifies this
      ensures Valid() && Reaches(s, View()) && watcher.Quiet? && childWatch
      ensures suspended == (old(suspended) || |peers| <= repFactor / 2)
      ensures View() == old(View()).(suspended := suspended, childWatch := true, writer := writer)
      ensures writer == if |peers| <= repFactor / 2 && old(writer).Waiting? then Idle else old(writer)
    {
      hide Reaches, Inv;
      ghost var e := PeerDeleted(p, kept, None);
      ReachesOne(s, e);
      if |peers| <= repFactor / 2 {
        watcher := Suspending;
        assert View() == Next(s, e);
        TakeLock(s);
      } else {
        childWatch := true;
        assert View() == Next(s, e);
      }
    }

    /** Taking the recovery lock, and arming the child watch: a write still polling has it, finds
        too few peers, and returns first. */
    method TakeLock(ghost s: State)
      requires Valid() && watcher.Suspending? && |peers| <= repFactor / 2 && Reaches(s, View())
      modifies this
      ensures Valid() && Reaches(s, View())
      ensures View() == old(View()).(suspended := true, childWatch := true, watcher := Quiet, writer := writer)
      ensures writer == if old(writer).Waiting? then Idle else old(writer)
    {
      hide Reaches, Inv;
      if writer.Waiting? {
        Return(s);
      }
      ghost var u := View();
      NextInv(u, Suspend);
      ReachesStep(s, u, Suspend);
      suspended, childWatch, watcher := true, true, Quiet;
      assert View() == Next(u, Suspend);
    }

    /** The watcher once AddPeer has connected x: recover it and close the event. */
    method Integrate(x: Addr)
      requires Valid() && watcher.Connected? && watcher.peer == x
      modifies this
      ensures Valid() && Reaches(old(View()), View()) && watcher.Quiet?
      ensures peers == old(peers) && x in remoteProps
      ensures remoteProps[x].data == View().buffer && remoteProps[x].word == View().word
      ensures old(watcher).cause.Deleted? ==>
                record == peers && suspended == old(suspended) && childWatch == old(childWatch)
      ensures old(watcher).cause.Joined? ==>
                && record == old(record) && suspended == (old(suspended) && |peers| <= repFactor / 2)
                && childWatch == (old(childWatch) || |peers| < repFactor)
      ensures View() == old(View()).(props := old(remoteProps)[x := remoteProps[x]], watcher := Quiet, record := record,
                                     suspended := suspended, childWatch := childWatch)
      ensures x in old(remoteProps) && remoteProps[x].chan == [] && SameTokens(remoteProps[x], old(remoteProps)[x])
    {
      hide Reaches, Inv;
      ghost var s := View();
      RecoverPeer(x);
      ghost var u := View();
      NextInv(u, RecoverDone);
      ReachesStep(s, u, RecoverDone);
      if watcher.cause.Deleted? {
        record := peers;
      } else {
        if |peers| > repFactor / 2 {
          suspended := false;
        }
        if |peers| < repFactor {
          childWatch := true;
        }
      }
      watcher := Quiet;
      assert View() == Next(u, RecoverDone);
    }

    /** ClientWatcher on a child event, with the client in use. */
    method OnChildEvent(servers: seq<Addr>) returns (joined: bool)
      requires Valid() && watcher.Quiet? && childWatch
      modifies this
      ensures Valid() && Reaches(old(View()), View()) && watcher.Quiet?
      ensures joined <==> FirstOther(servers, old(peers)).Some?
      ensures !joined ==> peers == old(peers) && !childWatch
      ensures joined ==>
                var x := FirstOther(servers, old(peers)).value;
                && peers == old(peers) + {x} && x in remoteProps
                && remoteProps[x].data == View().buffer && remoteProps[x].word == View().word
                && (childWatch <==> |peers| < repFactor)
      ensures record == old(record) && (suspended <==> |peers| <= repFactor / 2)
      ensures if joined then
                var x := FirstOther(servers, old(peers)).value;
                && View() == old(View()).(members := peers, props := old(remoteProps)[x := remoteProps[x]],
                                          departed := old(departed) - {x}, suspended := suspended,
                                          childWatch := childWatch)
                && remoteProps[x].chan == [] && SameTokens(remoteProps[x], FreshPeer(0))
              else View() == old(View()).(childWatch := false)
    {
      hide Reaches, Inv, JoiningPeer, FirstOther, Enabled, Next;
      ghost var s := View();
      ChildEventSteps(s, servers);
      childWatch := false;
      var newPeer := ReplacePeer(None, false, servers);
      ghost var t := View();
      if newPeer.None? {
        BetweenFlags(t);
        return false;
      }
      JoinsFresh(s.(childWatch := false), newPeer.value);
      Integrate(newPeer.value);
      ReachesJoin(s, t, View());
      BetweenFlags(View());
      return true;
    }

    /** Append up to the replication call. */
    method LocalWrite(op: Op) returns (n: nat)
      requires Valid() && writer.Idle? && op.off == log.bufOffset && op.off + |op.bytes| + WORD <= log.buffer.Length
      modifies this, log, log.buffer
      ensures Valid() && n == |op.bytes| && log.bufOffset == old(log.bufOffset) + n
      ensures Enabled(old(View()), BeginWrite(op)) && View() == BeginWriteStep(old(View()), op)
      ensures Reaches(old(View()), View())
    {
      hide Reaches, Inv, LocalLog.AppendTo, FromLE, Splice;
      ghost var s := View();
      ghost var l := log.View();
      ReachesOne(s, BeginWrite(op));
      AppendView(l, op.bytes);
      n := log.Append(op.bytes);
      writer := Begun(op.off, |op.bytes|);
      hist := hist + [op];
      assert log.View() == LocalLog.AppendTo(l, op.bytes);
    }

    /** WritePos up to the replication call. */
    method LocalWritePos(op: Op) returns (n: nat)
      requires Valid() && writer.Idle? && op.off + |op.bytes| + WORD <= log.buffer.Length
      modifies this, log, log.buffer
      ensures Valid() && n == |op.bytes| && log.bufOffset == old(log.bufOffset)
      ensures Enabled(old(View()), BeginWrite(op)) && View() == BeginWriteStep(old(View()), op)
      ensures Reaches(old(View()), View())
    {
      hide Reaches, Inv, LocalLog.WriteAt, FromLE, Splice;
      ghost var s := View();
      ghost var l := log.View();
      ReachesOne(s, BeginWrite(op));
      WriteView(l, op.off, op.bytes);
      n := log.WritePos(op.bytes, op.off);
      writer := Begun(op.off, |op.bytes|);
      hist := hist + [op];
      assert log.View() == LocalLog.WriteAt(l, op.off, op.bytes);
    }
  }

  // ---- the watcher ----

  /** The first server of the list that is not in `taken`. */
  function FirstOther(servers: seq<Addr>, taken: set<Addr>): Option<Addr> {
    if servers == [] then None
    else if servers[0] !in taken then Some(servers[0])
    else FirstOther(servers[1..], taken)
  }

  /** The two connections have the same posted, pending and marked tokens. */
  predicate SameTokens(p: Peer, q: Peer) {
    p.queue == q.queue && p.posted == q.posted && p.marked == q.marked
  }

  lemma BetweenFlags(s: State)
    requires Inv(s) && s.watcher.Quiet?
    ensures s.members == s.props.Keys && (s.suspended <==> |s.members| <= s.cfg.rep / 2)
    ensures s.childWatch ==> |s.members| < s.cfg.rep
  {
    hide PeersOk, ClientOk, AcksOk, DepartedOk;
  }

  lemma DeletedAndFound(s: State, p: Addr, kept: bool, servers: seq<Addr>, x: Addr)
    requires Inv(s) && s.watcher.Quiet? && p in s.members && p in s.props
    requires FirstOther(servers, s.members - {p}) == Some(x)
    ensures var t := ConnectedTo(Dropped(s, p, kept), x, Deleted);
            Reaches(s, t) && Inv(t)
  {
    hide Inv, Reaches, FirstOther, ConnectedTo, Dropped;
    FirstOtherIs(servers, s.members - {p});
    ReachesOne(s, PeerDeleted(p, kept, Some(x)));
  }

  lemma ChildEventSteps(s: State, servers: seq<Addr>)
    requires Inv(s) && s.watcher.Quiet? && s.childWatch
    ensures var t := s.(childWatch := false);
            match FirstOther(servers, s.members)
            case None => Reaches(s, t) && Inv(t)
            case Some(x) => Reaches(s, ConnectedTo(t, x, Joined)) && Inv(ConnectedTo(t, x, Joined))
  {
    hide Inv, Reaches, FirstOther, ConnectedTo;
    FirstOtherIs(servers, s.members);
    ReachesOne(s, ChildEvent(FirstOther(servers, s.members)));
  }

  lemma JoinsFresh(s: State, x: Addr)
    ensures SameTokens(ConnectedTo(s, x, Deleted).props[x], FreshPeer(0))
    ensures SameTokens(ConnectedTo(s, x, Joined).props[x], FreshPeer(0))
  {
  }

  predicate IsFirst(servers: seq<Addr>, taken: set<Addr>, x: Addr, i: nat) {
    i < |servers| && servers[i] == x && forall j :: 0 <= j < i ==> servers[j] in taken
  }

  lemma {:induction false} FirstOtherIs(servers: seq<Addr>, taken: set<Addr>)
    ensures var r := FirstOther(servers, taken);
            match r
            case None => forall i :: 0 <= i < |servers| ==> servers[i] in taken
            case Some(x) => x !in taken && exists i: nat :: IsFirst(servers, taken, x, i)
  {
    if servers != [] && servers[0] !in taken {
      assert IsFirst(servers, taken, servers[0], 0);
    } else if servers != [] {
      FirstOtherIs(servers[1..], taken);
      match FirstOther(servers, taken)
      case None =>
        forall i | 0 <= i < |servers| ensures servers[i] in taken {
          assert i > 0 ==> servers[i] == servers[1..][i - 1];
        }
      case Some(x) =>
        var i: nat :| IsFirst(servers[1..], taken, x, i);
        forall j | 0 <= j < i + 1 ensures servers[j] in taken {
          assert j > 0 ==> servers[j] == servers[1..][j - 1];
        }
        assert IsFirst(servers, taken, x, i + 1);
    }
  }

  lemma CountOneMore(marked: set<Addr>, seen: set<Addr>, t: Addr)
    requires t !in seen
    ensures |marked * (seen + {t})| == |marked * seen| + if t in marked then 1 else 0
  {
    assert marked * (seen + {t}) == marked * seen + if t in marked then {t} else {};
  }

  lemma MarkedArePosted(s: State)
    requires Inv(s) && s.writer.Waiting?
    ensures s.writer.marked <= s.writer.tokens
  {
    hide PeersOk, ClientOk, MembershipOk, DepartedOk, Owing;
  }

  /** A begun write lies inside the buffer. */
  lemma BegunCanPost(s: State)
    requires Inv(s) && s.writer.Begun? && !s.suspended
    ensures Enabled(s, Post)
  {
  }

  lemma ConnectedCanSync(s: State)
    requires Inv(s) && s.watcher.Connected?
    ensures Enabled(s, RecoverPost)
  {
    hide PeersOk, AcksOk, DepartedOk;
    FileFits(s);
    hide ClientOk;
  }

  lemma FileFits(s: State)
    requires ClientOk(s)
    ensures s.fileSize <= |s.buffer| == s.cfg.size < TWO32
  {
    ReplayBounds(s.cfg.size, s.hist, |s.hist|);
    hide OpsFit, Splice;
  }

  lemma CanDeliver(s: State, p: Addr)
    requires Inv(s) && p in s.props && s.props[p].chan != []
    ensures Enabled(s, Deliver(p))
  {
    HeadFits(s.cfg.size, s.hist, s.Posted(), s.props[p]);
  }

  /** The recovery of p brings it every one of the first k writes. */
  predicate SyncsAll(p: Peer, k: nat) {
    match p.stage
    case Joining => false
    case Syncing(_, _, upto) => upto == k
    case SyncingWord(_, upto) => upto == k
    case Live(m) => m == k
  }

  lemma DeliverToSynced(s: State, x: Addr)
    requires Inv(s) && x in s.props && s.props[x].chan != [] && SyncsAll(s.props[x], |s.hist|)
    ensures Enabled(s, Deliver(x)) && Inv(Next(s, Deliver(x)))
    ensures SyncsAll(DeliverAt(s.props[x]), |s.hist|)
  {
    hide Inv, Enabled, Replay, Regular, OpsFit, FileLen, NumOf, ZeroFrom;
    CanDeliver(s, x);
    NextInv(s, Deliver(x));
    PeerIsOk(Next(s, Deliver(x)), x);
  }

  lemma PeerIsOk(s: State, x: Addr)
    requires Inv(s) && x in s.props
    ensures PeerOk(s.cfg.size, s.hist, s.Posted(), s.props[x])
  {
    hide PeerOk, QueueOk;
  }

  /** A peer whose snapshot has arrived with nothing behind it equals the client. */
  lemma SyncedIsBuffer(s: State, x: Addr)
    requires Inv(s) && x in s.props && s.props[x].chan == [] && SyncsAll(s.props[x], |s.hist|)
    ensures s.props[x].data == s.buffer && s.props[x].word == s.word
  {
    hide QueueOk, AcksOk, Replay, FileLen, NumOf, OpsFit;
    PeerIsOk(s, x);
  }

  lemma ReachesOne(s: State, e: Event)
    requires Inv(s) && Enabled(s, e)
    ensures Reaches(s, Next(s, e)) && Inv(Next(s, e))
  {
    ReachesRefl(s);
    ReachesStep(s, s, e);
    NextInv(s, e);
  }

  lemma MembersAreKeys(s: State)
    requires Inv(s)
    ensures s.members == s.props.Keys
  {
  }

  /** What a local write does below the slot and to the word in it. */
  lemma WriteView(l: LocalLog.Log, pos: nat, buf: seq<byte>)
    requires l.Valid() && pos + |buf| <= l.Slot()
    ensures var t := LocalLog.WriteAt(l, pos, buf);
            && t.bytes[..l.Slot()] == Splice(l.bytes[..l.Slot()], pos, buf)
            && FromLE(t.bytes[l.Slot()..]) == l.seqNext
            && t.size == Max(l.size, pos + |buf|) && t.cursor == l.cursor
            && t.seqNext == (l.seqNext + 1) % TWO64
  {
    var t := LocalLog.WriteAt(l, pos, buf);
    assert buf[..|buf|] == buf;
    assert t.bytes[l.Slot()..] == ToLE(l.seqNext, WORD);
    Word64(l.seqNext);
  }

  lemma AppendView(l: LocalLog.Log, buf: seq<byte>)
    requires l.Valid() && l.cursor + |buf| <= l.Slot()
    ensures var t := LocalLog.AppendTo(l, buf);
            && t.bytes[..l.Slot()] == Splice(l.bytes[..l.Slot()], l.cursor, buf)
            && FromLE(t.bytes[l.Slot()..]) == l.seqNext
            && t.size == Max(l.size, l.cursor + |buf|) && t.cursor == l.cursor + |buf|
            && t.seqNext == (l.seqNext + 1) % TWO64
  {
    WriteView(l, l.cursor, buf);
  }

  /** Nothing but what the watcher and the network own changes. */
  predicate Framed(s: State, t: State) {
    t == s.(members := t.members, props := t.props, watcher := t.watcher,
            suspended := t.suspended, childWatch := t.childWatch, record := t.record, departed := t.departed)
  }

  lemma DeletedFrame(s: State, p: Addr, kept: bool, replacement: Option<Addr>)
    requires Enabled(s, PeerDeleted(p, kept, replacement))
    ensures Framed(s, PeerDeletedStep(s, p, kept, replacement))
  {
    hide JoiningPeer;
  }

  lemma OutsideFrame(s: State, e: Event)
    requires Enabled(s, e) && Outside(e)
    ensures Framed(s, Next(s, e))
  {
    hide DeliverAt, SnapshotTo, Completed, Fits, JoiningPeer, PeerDeletedStep;
    match e
    case PeerDeleted(p, kept, replacement) => DeletedFrame(s, p, kept, replacement);
    case _ =>
  }
}
