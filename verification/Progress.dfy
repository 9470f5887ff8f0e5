/** How long WriteQuorum's loop can take, and when it can end at all. */
module Progress {
  import opened Bytes
  import opened Replication
  import opened Safety
  import opened Client
  import opened Runs

  /** Outside events that leave the membership as it is. */
  predicate Steady(e: Event) {
    e.Deliver? || e.Suspend? || e.RecoverPost? || e.RecoverDone? || e.Arrive? || e.Restart?
  }

  predicate AllSteady(env: seq<seq<Event>>) {
    forall k, i :: 0 <= k < |env| && 0 <= i < |env[k]| ==> Steady(env[k][i])
  }

  lemma SteadyStep(s: State, e: Event, p: Addr)
    requires Steady(e) && p in s.props
    ensures var t := StepIf(s, e);
            && p in t.props && t.props[p].queue == s.props[p].queue && t.members == s.members
  {
  }

  lemma {:induction false} SteadyKeeps(s: State, es: seq<Event>, p: Addr)
    requires AllOutside(es) && (forall i :: 0 <= i < |es| ==> Steady(es[i])) && p in s.props
    ensures var t := Interferences(s, es);
            && p in t.props && t.props[p].queue == s.props[p].queue && t.members == s.members
  {
    if es != [] {
      var t := Interferences(s, es[..|es| - 1]);
      SteadyKeeps(s, es[..|es| - 1], p);
      SteadyStep(t, es[|es| - 1], p);
      hide StepIf;
    }
  }

  /** In every round the front of p's queue, if it has one, is complete when polled. */
  ghost predicate Fair(s: State, env: seq<seq<Event>>, p: Addr)
    requires s.writer.Waiting? && Schedule(env)
  {
    forall k :: 0 <= k < |env| ==>
      var t := Interferences(Rounds(s, env[..k]), env[k]);
      p in t.props && (t.props[p].queue != [] ==> Pollable(t.props[p]))
  }

  lemma FairPrefix(s: State, env: seq<seq<Event>>, p: Addr, k: nat)
    requires s.writer.Waiting? && Schedule(env) && Fair(s, env, p) && k <= |env|
    ensures Schedule(env[..k]) && Fair(s, env[..k], p)
  {
    forall j | 0 <= j < k
      ensures var t := Interferences(Rounds(s, env[..k][..j]), env[..k][j]);
              p in t.props && (t.props[p].queue != [] ==> Pollable(t.props[p]))
    {
      assert env[..k][..j] == env[..j];
    }
  }

  /** A fair peer's queue shrinks by one a round, and once it is empty its token is marked. */
  lemma {:induction false} QueueShrinks(s: State, env: seq<seq<Event>>, p: Addr)
    requires s.writer.Waiting? && Schedule(env) && AllSteady(env) && p in s.props && Fair(s, env, p)
    requires var q := s.props[p].queue; q != [] && q[|q| - 1] == |s.hist| - 1
    ensures var q := s.props[p].queue;
            var t := Rounds(s, env);
            && p in t.props && t.props[p].queue == q[Min(|env|, |q|)..]
            && (|env| >= |q| ==> p in t.writer.marked)
    decreases |env|
  {
    hide Interferences, Pollable, PollAll, Fair;
    if env != [] {
      var last := |env| - 1;
      FairPrefix(s, env, p, last);
      FairLast(s, env, p);
      QueueShrinks(s, env[..last], p);
      SteadyKeeps(Rounds(s, env[..last]), env[last], p);
      PolledQueue(Interferences(Rounds(s, env[..last]), env[last]), p);
    }
  }

  lemma FairLast(s: State, env: seq<seq<Event>>, p: Addr)
    requires s.writer.Waiting? && Schedule(env) && env != [] && Fair(s, env, p)
    ensures Schedule(env[..|env| - 1])
    ensures var t := Interferences(Rounds(s, env[..|env| - 1]), env[|env| - 1]);
            p in t.props && (t.props[p].queue != [] ==> Pollable(t.props[p]))
  {
    hide Interferences, Pollable, Rounds;
  }

  /** What a polling pass does to one peer whose front is complete. */
  lemma PolledQueue(s: State, p: Addr)
    requires s.writer.Waiting? && p in s.props && (s.props[p].queue != [] ==> Pollable(s.props[p]))
    ensures var t := PollAll(s);
            && p in t.props && s.writer.marked <= t.writer.marked
            && t.props[p].queue == (if s.props[p].queue == [] then [] else s.props[p].queue[1..])
            && (s.props[p].queue != [] && s.props[p].queue[0] == |s.hist| - 1 ==> p in t.writer.marked)
  {
    hide Completed;
  }

  /** Progress: with the membership unchanged, if on a majority of peers every poll finds the
      front of the queue complete, the loop may stop within as many rounds as the longest of
      those peers' queues had entries when the write was posted. */
  lemma Bound(s0: State, env: seq<seq<Event>>, quick: set<Addr>, bound: nat)
    requires Inv(s0) && !s0.cfg.sync && Enabled(s0, Post)
    requires Schedule(env) && AllSteady(env) && |env| == bound
    requires quick <= s0.props.Keys && |quick| > s0.cfg.rep / 2
    requires forall p :: p in quick ==> Fair(PostStep(s0), env, p) && |PostStep(s0).props[p].queue| <= bound
    ensures QuorumDone(Rounds(PostStep(s0), env))
  {
    hide Inv, Fair, Rounds, Interferences;
    var s := PostStep(s0);
    var t := Rounds(s, env);
    forall p | p in quick ensures p in t.writer.marked {
      assert s.props[p].queue == s0.props[p].queue + [|s0.hist| - 1];
      QueueShrinks(s, env, p);
    }
    SubsetCard(quick, t.writer.marked);
  }

  /** Hence WriteQuorum, run with at least that much of the environment, has returned, and
      within the bound. */
  lemma ReturnsWithin(s0: State, env: seq<seq<Event>>, quick: set<Addr>, bound: nat, done: bool, rounds: nat, t: State)
    requires Inv(s0) && !s0.cfg.sync && Enabled(s0, Post)
    requires Schedule(env) && rounds <= |env| && Polled(PostStep(s0), env, done, rounds, t)
    requires 0 < bound <= |env| && AllSteady(env[..bound])
    requires quick <= s0.props.Keys && |quick| > s0.cfg.rep / 2
    requires Schedule(env[..bound]) && forall p :: p in quick ==>
               Fair(PostStep(s0), env[..bound], p) && |PostStep(s0).props[p].queue| <= bound
    ensures done && rounds <= bound
  {
    hide Fair, Rounds, Inv;
    Bound(s0, env[..bound], quick, bound);
    assert rounds >= bound ==> QuorumDone(Rounds(PostStep(s0), env[..bound]));
  }

  /** The loop has stopped at the latest by the first round u after which it may. */
  lemma LoopStops(s: State, env: seq<seq<Event>>, done: bool, rounds: nat, t: State, k: nat, u: State)
    requires s.writer.Waiting? && Schedule(env) && rounds <= |env| && Polled(s, env, done, rounds, t)
    requires 0 < k <= |env| && Schedule(env[..k]) && u == Rounds(s, env[..k])
    ensures |u.members| <= s.cfg.rep / 2 ==> done && rounds <= k
    ensures u.writer.Waiting? && (|u.writer.marked| > s.cfg.rep / 2 ==> done && rounds <= k)
  {
    hide Rounds;
  }

  /** The round u it stopped at is one after which it may, and the call returns from there. */
  lemma LoopResult(s: State, env: seq<seq<Event>>, rounds: nat, t: State, u: State)
    requires s.writer.Waiting? && Schedule(env) && rounds <= |env| && Polled(s, env, true, rounds, t)
    requires Schedule(env[..rounds]) && u == Rounds(s, env[..rounds])
    ensures rounds > 0 && t == Returned(u)
    ensures u.writer.Waiting? && (|u.members| <= u.cfg.rep / 2 || |u.writer.marked| > u.cfg.rep / 2)
  {
    hide Rounds;
  }

  /** Returning acknowledges the write if and only if enough peers are left, and nothing else. */
  lemma ReturnedIs(u: State, w: nat)
    requires |u.hist| == w + 1
    ensures Returned(u) == u.(writer := Idle, acked := if |u.members| > u.cfg.rep / 2 then u.acked + {w} else u.acked)
  {
  }

  /** A round is what the others do and then one polling pass. */
  lemma OneMoreRound(s: State, env: seq<seq<Event>>, es: seq<Event>)
    requires s.writer.Waiting? && Schedule(env) && Schedule(env + [es])
    ensures AllOutside(es) && Rounds(s, env + [es]) == PollAll(Interferences(Rounds(s, env), es))
  {
    hide Interferences, PollAll;
    assert (env + [es])[..|env + [es]| - 1] == env;
    assert (env + [es])[|env|] == es;
  }

  // ---- whether the loop can end at all ----

  /** Events that may happen during the call and leave the membership as it is. */
  predicate Patient(e: Event) {
    Steady(e) || e.Poll?
  }

  ghost predicate Waits(s: State, t: State) {
    exists es: seq<Event> :: (forall i :: 0 <= i < |es| ==> Patient(es[i])) && Run(s, es) == Some(t)
  }

  /** The call can still return by acknowledgement without a change of the membership. */
  ghost predicate CanReturn(s: State) {
    exists t: State :: Waits(s, t) && Enabled(t, ReturnQuorum)
  }

  /** The peers that have marked the pending token and those whose connection still holds it. */
  function Chances(s: State): set<Addr>
    requires s.writer.Waiting?
  {
    s.writer.marked + set p | p in s.props && |s.hist| - 1 in s.props[p].queue
  }

  lemma ChancesShrink(s: State, e: Event)
    requires s.writer.Waiting? && Patient(e) && Enabled(s, e)
    ensures var t := Next(s, e);
            t.writer.Waiting? && t.hist == s.hist && t.cfg == s.cfg && Chances(t) <= Chances(s)
  {
    hide Completed, Fits, Splice, NextStage, Chances;
    if e.Poll? {
      ChancesPolled(s, e.p);
    } else {
      var t := Next(s, e);
      assert t.writer == s.writer && t.hist == s.hist;
      assert t.props.Keys == s.props.Keys && forall p :: p in s.props ==> t.props[p].queue == s.props[p].queue;
      ChancesSame(s, t);
    }
  }

  lemma ChancesPolled(s: State, p: Addr)
    requires s.writer.Waiting? && Enabled(s, Poll(p))
    ensures Chances(Next(s, Poll(p))) <= Chances(s)
  {
    hide Completed;
  }

  lemma ChancesSame(s: State, t: State)
    requires s.writer.Waiting? && t.writer == s.writer && t.hist == s.hist
    requires t.props.Keys == s.props.Keys && forall p :: p in s.props ==> t.props[p].queue == s.props[p].queue
    ensures Chances(t) <= Chances(s)
  {
  }

  lemma {:induction false} ChancesBound(s: State, es: seq<Event>, t: State)
    requires s.writer.Waiting? && (forall i :: 0 <= i < |es| ==> Patient(es[i])) && Run(s, es) == Some(t)
    ensures t.writer.Waiting? && t.cfg == s.cfg && Chances(t) <= Chances(s)
  {
    hide Enabled, Next, Chances, Patient;
    if es != [] {
      var u := Run(s, es[..|es| - 1]).value;
      ChancesBound(s, es[..|es| - 1], u);
      ChancesShrink(u, es[|es| - 1]);
    }
  }

  lemma WaitsRefl(s: State)
    ensures Waits(s, s)
  {
    assert Run(s, []) == Some(s);
  }

  lemma WaitsStep(s: State, t: State, e: Event)
    requires Waits(s, t) && Inv(t) && Enabled(t, e) && Patient(e)
    ensures Waits(s, Next(t, e)) && Inv(Next(t, e))
  {
    hide Inv, Enabled, Patient, Next;
    NextInv(t, e);
    var es :| (forall i :: 0 <= i < |es| ==> Patient(es[i])) && Run(s, es) == Some(t);
    assert (es + [e])[..|es + [e]| - 1] == es;
    assert Run(s, es + [e]) == Some(Next(t, e));
  }

  /** Everything posted to p arrives. */
  lemma {:induction false} DrainPeer(s0: State, s: State, p: Addr) returns (t: State)
    requires Waits(s0, s) && Inv(s) && p in s.props
    ensures Waits(s0, t) && Inv(t) && p in t.props && t == s.(props := s.props[p := t.props[p]])
    ensures t.props[p].chan == [] && t.props[p].queue == s.props[p].queue
    decreases |s.props[p].chan|
  {
    hide Waits, Inv, Fits, Splice, NextStage;
    if s.props[p].chan == [] {
      t := s;
    } else {
      CanDeliver(s, p);
      WaitsStep(s0, s, Deliver(p));
      t := DrainPeer(s0, Next(s, Deliver(p)), p);
    }
  }

  /** With nothing in flight the queue is popped until the pending token is marked. */
  lemma {:induction false} PollPeer(s0: State, s: State, p: Addr) returns (t: State)
    requires Waits(s0, s) && Inv(s) && !s.cfg.sync && s.writer.Waiting? && p in s.props
    requires s.props[p].chan == [] && |s.hist| - 1 in s.props[p].queue
    ensures Waits(s0, t) && Inv(t) && p in t.props
    ensures t == s.(props := s.props[p := t.props[p]], writer := s.writer.(marked := s.writer.marked + {p}))
    decreases |s.props[p].queue|
  {
    hide Waits, Inv;
    assert Completed(s.props[p], WriteTok(s.props[p].queue[0]));
    WaitsStep(s0, s, Poll(p));
    t := Next(s, Poll(p));
    if s.props[p].queue[0] != |s.hist| - 1 {
      t := PollPeer(s0, t, p);
    }
  }

  lemma MarkPeer(s0: State, s: State, p: Addr) returns (t: State)
    requires Waits(s0, s) && Inv(s) && !s.cfg.sync && s.writer.Waiting? && p in s.props
    requires |s.hist| - 1 in s.props[p].queue
    ensures Waits(s0, t) && Inv(t) && p in t.props
    ensures t == s.(props := s.props[p := t.props[p]], writer := s.writer.(marked := s.writer.marked + {p}))
  {
    hide *;
    var u := DrainPeer(s0, s, p);
    t := PollPeer(s0, u, p);
    assert t.props == s.props[p := t.props[p]];
  }

  /** All the peers in `todo` mark the pending token. */
  lemma {:induction false} MarkAll(s0: State, s: State, todo: set<Addr>) returns (t: State)
    requires Waits(s0, s) && Inv(s) && !s.cfg.sync && s.writer.Waiting? && todo <= s.props.Keys
    requires forall p :: p in todo ==> |s.hist| - 1 in s.props[p].queue
    ensures Waits(s0, t) && t == s.(props := t.props, writer := s.writer.(marked := s.writer.marked + todo))
    decreases |todo|
  {
    hide *;
    if todo == {} {
      t := s;
      assert s.writer.marked + todo == s.writer.marked;
    } else {
      var p :| p in todo;
      var u := MarkPeer(s0, s, p);
      t := MarkAll(s0, u, todo - {p});
      assert s.writer.marked + {p} + (todo - {p}) == s.writer.marked + todo;
    }
  }

  lemma Returns(s: State)
    requires Inv(s) && !s.cfg.sync && s.writer.Waiting? && |s.members| > s.cfg.rep / 2 && |Chances(s)| > s.cfg.rep / 2
    ensures CanReturn(s)
  {
    hide Inv, Waits, Run;
    WaitsRefl(s);
    var holders := set p | p in s.props && |s.hist| - 1 in s.props[p].queue;
    var t := MarkAll(s, s, holders);
    assert t.writer.marked == Chances(s);
    assert s.hist != [] by { PendingExists(s); }
    assert Enabled(t, ReturnQuorum);
  }

  lemma PendingExists(s: State)
    requires Inv(s) && s.writer.Waiting?
    ensures s.hist != []
  {
  }

  /** A write that is being polled for can still be acknowledged without a change of the
      membership if and only if the peers that have marked it and the connections that still hold
      its token are more than half of the replicas. Replacing peers while the call polls can make
      this false for good, with enough peers left for the call not to give up: it never returns. */
  lemma ReturnPossibleIff(s: State)
    requires Reachable(s) && !s.cfg.sync && s.writer.Waiting? && |s.members| > s.cfg.rep / 2
    ensures CanReturn(s) <==> |Chances(s)| > s.cfg.rep / 2
  {
    hide Reachable, Chances, Inv;
    ReachableInv(s);
    if |Chances(s)| > s.cfg.rep / 2 {
      Returns(s);
    } else if CanReturn(s) {
      CannotReturn(s);
    }
  }

  lemma MarkedChances(s: State)
    requires s.writer.Waiting?
    ensures s.writer.marked <= Chances(s)
  {
  }

  lemma CannotReturn(s: State)
    requires s.writer.Waiting? && CanReturn(s)
    ensures |Chances(s)| > s.cfg.rep / 2
  {
    hide Chances, Patient;
    var t: State :| Waits(s, t) && Enabled(t, ReturnQuorum);
    var es :| (forall i :: 0 <= i < |es| ==> Patient(es[i])) && Run(s, es) == Some(t);
    ChancesBound(s, es, t);
    MarkedChances(t);
    SubsetCard(t.writer.marked, Chances(s));
  }

  /** One peer after the other is replaced and recovered while the write is polled for. */
  lemma {:induction false} RenewAll(s: State, todo: set<Addr>) returns (t: State)
    requires Reachable(s) && s.watcher.Quiet? && s.members == s.props.Keys && todo <= s.members && s.departed == map[]
    ensures Reachable(t) && t == s.(props := t.props, record := t.record) && t.props.Keys == s.props.Keys
    ensures forall p :: p in s.props ==> t.props[p].queue == (if p in todo then [] else s.props[p].queue)
    decreases |todo|
  {
    hide *;
    if todo == {} {
      t := s;
    } else {
      var p :| p in todo;
      var u := Renews(s, p);
      t := RenewAll(u, todo - {p});
    }
  }

  /** For every replication factor: with all replicas present again, a write whose peers were all
      replaced before it reached a majority polls for ever. */
  lemma StuckWrite(cfg: Config) returns (s: State)
    requires cfg.rep >= 1 && cfg.size < TWO32 && !cfg.sync
    ensures Reachable(s) && s.cfg == cfg && s.writer.Waiting? && |s.members| == cfg.rep && !CanReturn(s)
  {
    hide Reachable, Start, Names, Chances, CanReturn;
    var members := Names(cfg.rep);
    NamesCount(cfg.rep);
    StartReachable(cfg, members);
    var s1 := PostedTo(Start(cfg, members), Op(0, []));
    s := RenewAll(s1, members);
    assert Chances(s) == {} by { NoChances(s); }
    ReturnPossibleIff(s);
  }

  lemma NoChances(s: State)
    requires s.writer.Waiting? && s.writer.marked == {} && forall p :: p in s.props ==> s.props[p].queue == []
    ensures Chances(s) == {}
  {
  }
}
