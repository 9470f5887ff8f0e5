/** The one-shot child watch: when it is armed, and what a client that lost it can still do. */
module Watch {
  import opened Bytes
  import opened Replication
  import opened Safety
  import opened Client
  import opened Runs

  /** The last event of es that has to do with the watch is a child event that found no server. */
  predicate Missed(es: seq<Event>) {
    if es == [] then false else
      match es[|es| - 1]
      case ChildEvent(found) => found.None?
      case PeerDeleted(_, _, None) => false
      case _ => Missed(es[..|es| - 1])
  }

  ghost predicate Armed(s: State, missed: bool) {
    match s.watcher
    case Quiet => s.childWatch <==> |s.members| < s.cfg.rep && !missed
    case Suspending => !missed
    case Connected(_, cause) => if cause.Joined? then !missed else s.childWatch <==> |s.members| < s.cfg.rep && !missed
    case Resyncing(_, cause) => if cause.Joined? then !missed else s.childWatch <==> |s.members| < s.cfg.rep && !missed
  }

  /** What one event does to the members and the watcher's flags. */
  lemma ArmedDeleted(s: State, p: Addr, kept: bool, replacement: Option<Addr>, missed: bool)
    requires MembershipOk(s) && Enabled(s, PeerDeleted(p, kept, replacement)) && Armed(s, missed)
    ensures Armed(Next(s, PeerDeleted(p, kept, replacement)), missed && replacement.Some?)
  {
    hide JoiningPeer;
    assert |s.members - {p}| == |s.members| - 1;
    if replacement.Some? {
      assert |s.members - {p} + {replacement.value}| == |s.members|;
    }
  }

  lemma ArmedStep(s: State, e: Event, missed: bool)
    requires MembershipOk(s) && Enabled(s, e) && Armed(s, missed)
    requires !e.PeerDeleted? && s.cfg.rep >= 1
    ensures Armed(Next(s, e), if e.ChildEvent? then e.found.None? else missed)
  {
    hide JoiningPeer, PostTo, SnapshotTo, DeliverAt, PollAt, Splice, Completed, Fits;
  }

  lemma {:induction false} ArmedRun(s: State, es: seq<Event>, t: State)
    requires Initial(s) && Run(s, es) == Some(t)
    ensures Inv(t) && Armed(t, Missed(es))
  {
    hide Inv, Armed, Enabled, Next, Initial, MembershipOk;
    InitialInv(s);
    InvMembership(s);
    if es == [] {
      ArmedInitially(s);
    } else {
      var init, e := es[..|es| - 1], es[|es| - 1];
      var u := Run(s, init).value;
      ArmedRun(s, init, u);
      NextInv(u, e);
      InvMembership(u);
      if e.PeerDeleted? {
        ArmedDeleted(u, e.p, e.kept, e.replacement, Missed(init));
      } else {
        ArmedStep(u, e, Missed(init));
      }
    }
  }

  lemma InvMembership(s: State)
    requires Inv(s)
    ensures MembershipOk(s) && s.cfg.rep >= 1
  {
    hide MembershipOk;
  }

  lemma ArmedInitially(s: State)
    requires Initial(s)
    ensures Armed(s, false)
  {
  }

  /** Exactly when the watch is armed: after every watcher event, below full strength, unless the
      last child event or failed replacement was a child event that found no server. */
  lemma ArmedIff(s: State, es: seq<Event>, t: State)
    requires Initial(s) && Run(s, es) == Some(t) && t.watcher.Quiet?
    ensures t.childWatch <==> |t.members| < t.cfg.rep && !Missed(es)
  {
    hide Inv, Initial, Run, Missed;
    ArmedRun(s, es, t);
  }

  // ---- a client that lost the watch ----

  predicate NoneDeleted(es: seq<Event>) {
    forall i :: 0 <= i < |es| ==> !es[i].PeerDeleted?
  }

  /** Between events with the watch gone, the membership stays as it is, and suspended writes stay
      suspended, until another peer is deleted; for good when there is none left. */
  lemma {:induction false} NeverRejoins(s: State, es: seq<Event>, t: State)
    requires s.watcher.Quiet? && !s.childWatch && (NoneDeleted(es) || s.members == {}) && Run(s, es) == Some(t)
    ensures t.watcher.Quiet? && !t.childWatch && t.members == s.members && t.suspended == s.suspended
  {
    if es != [] {
      var u := Run(s, es[..|es| - 1]).value;
      NeverRejoins(s, es[..|es| - 1], u);
      hide DeliverAt, PostTo, PollAt, Splice, Fits, Completed;
    }
  }

  /** Every peer leaves; no server is found. */
  lemma {:induction false} LosesAll(cfg: Config, k: nat) returns (t: State)
    requires cfg.rep >= 1 && cfg.size < TWO32 && k <= cfg.rep
    ensures Reachable(t) && AtRest(t) && t.cfg == cfg && t.members == Names(cfg.rep) - Names(k)
    ensures k > 0 ==> t.childWatch
    ensures t.suspended || |t.members| > cfg.rep / 2
  {
    hide Reachable, AtRest, Dropped, Names, Start;
    if k == 0 {
      NamesCount(cfg.rep);
      NamesCount(0);
      StartReachable(cfg, Names(cfg.rep));
      StartAtRest(cfg, Names(cfg.rep));
      t := Start(cfg, Names(cfg.rep));
    } else {
      var u := LosesAll(cfg, k - 1);
      NamesGrow(k - 1, cfg.rep);
      NamesStep(k - 1);
      t := Leaves(u, Name(k - 1), false);
    }
  }

  lemma StartAtRest(cfg: Config, members: set<Addr>)
    ensures AtRest(Start(cfg, members))
  {
    assert Start(cfg, members).props.Keys == members;
  }

  // ---- whether suspended writes can resume ----

  /** Some run from s ends with writes possible. */
  ghost predicate CanResume(s: State) {
    exists t: State :: Reaches(s, t) && !t.suspended
  }

  /** No peer is left and nothing will bring one in. */
  predicate Abandoned(s: State) {
    s.suspended && s.watcher.Quiet? && !s.childWatch && s.members == {}
  }

  lemma Goes(s0: State, s: State, e: Event)
    requires Reaches(s0, s) && Inv(s) && Enabled(s, e)
    ensures Reaches(s0, Next(s, e)) && Inv(Next(s, e))
  {
    hide *;
    ReachesStep(s0, s, e);
    NextInv(s, e);
  }

  lemma {:induction false} LongestName(addrs: set<Addr>) returns (n: nat)
    ensures Shorter(addrs, n)
    decreases addrs
  {
    if addrs == {} {
      n := 0;
    } else {
      var a :| a in addrs;
      var m := LongestName(addrs - {a});
      n := Max(m, |a.name| + 1);
      assert forall b :: b in addrs ==> b == a || b in addrs - {a};
    }
  }

  /** There is always one more server. */
  lemma NewAddr(addrs: set<Addr>) returns (x: Addr)
    ensures x !in addrs
  {
    var n := LongestName(addrs);
    x := Name(n);
    assert |x.name| == n;
  }

  /** Everything posted to p arrives. */
  lemma {:induction false} AllArrive(s0: State, s: State, p: Addr) returns (t: State)
    requires Reaches(s0, s) && Inv(s) && p in s.props
    ensures Reaches(s0, t) && Inv(t) && p in t.props && t.props[p].chan == []
    ensures t == s.(props := s.props[p := t.props[p]])
    decreases |s.props[p].chan|
  {
    hide Reaches, Inv, Fits, Splice, NextStage;
    if s.props[p].chan == [] {
      t := s;
    } else {
      CanDeliver(s, p);
      Goes(s0, s, Deliver(p));
      t := AllArrive(s0, Next(s, Deliver(p)), p);
    }
  }

  /** A recovery under way is finished. */
  lemma Finishes(s0: State, s: State) returns (t: State)
    requires Reaches(s0, s) && Inv(s) && s.watcher.Resyncing? && s.watcher.peer in s.props
    ensures Reaches(s0, t) && Inv(t) && t.watcher.Quiet? && t.members == s.members && t.cfg == s.cfg
    ensures s.watcher.cause.Joined? ==>
              && t.suspended == (s.suspended && |s.members| <= s.cfg.rep / 2)
              && (|s.members| < s.cfg.rep ==> t.childWatch)
  {
    hide Reaches, Inv;
    var u := AllArrive(s0, s, s.watcher.peer);
    Goes(s0, u, RecoverDone);
    t := Next(u, RecoverDone);
  }

  /** A server just connected is recovered. */
  lemma Integrates(s0: State, s: State) returns (t: State)
    requires Reaches(s0, s) && Inv(s) && s.watcher.Connected? && s.watcher.peer in s.props
    ensures Reaches(s0, t) && Inv(t) && t.watcher.Quiet? && t.members == s.members && t.cfg == s.cfg
    ensures s.watcher.cause.Joined? ==>
              && t.suspended == (s.suspended && |s.members| <= s.cfg.rep / 2)
              && (|s.members| < s.cfg.rep ==> t.childWatch)
  {
    hide Reaches, Inv, SnapshotTo;
    assert Enabled(s, RecoverPost) by { ConnectedCanSync(s); }
    Goes(s0, s, RecoverPost);
    t := Finishes(s0, RecoverPostStep(s));
  }

  /** A child event brings in a new server. */
  lemma OneMore(s0: State, s: State) returns (t: State)
    requires Reaches(s0, s) && Inv(s) && s.watcher.Quiet? && s.childWatch
    ensures Reaches(s0, t) && Inv(t) && t.watcher.Quiet? && t.cfg == s.cfg && |t.members| == |s.members| + 1
    ensures t.suspended == (s.suspended && |t.members| <= s.cfg.rep / 2)
    ensures |t.members| < s.cfg.rep ==> t.childWatch
  {
    hide Reaches, Inv, JoiningPeer;
    var x := NewAddr(s.members);
    Goes(s0, s, ChildEvent(Some(x)));
    t := Integrates(s0, ConnectedTo(s.(childWatch := false), x, Joined));
  }

  /** With the watch armed, servers join until writes resume. */
  lemma {:induction false} Refills(s0: State, s: State) returns (t: State)
    requires Reaches(s0, s) && Inv(s) && s.watcher.Quiet? && s.childWatch
    ensures Reaches(s0, t) && !t.suspended
    decreases s.cfg.rep - |s.members|
  {
    hide *;
    InvMembership(s);
    BelowFull(s);
    t := OneMore(s0, s);
    if t.suspended {
      t := Refills(s0, t);
    }
  }

  lemma BelowFull(s: State)
    requires MembershipOk(s) && s.cfg.rep >= 1
    ensures |s.members| <= s.cfg.rep && (s.childWatch ==> |s.members| < s.cfg.rep) && s.cfg.rep / 2 < s.cfg.rep
    ensures s.watcher.Quiet? ==> (s.suspended <==> |s.members| <= s.cfg.rep / 2)
    ensures s.watcher.Suspending? ==> |s.members| <= s.cfg.rep / 2
    ensures s.members == s.props.Keys
    ensures s.watcher.Connected? || s.watcher.Resyncing? ==> s.watcher.peer in s.props
  {
  }

  /** The lock is taken: a polling write, with too few peers, returns first. */
  lemma Suspends(s0: State, s: State) returns (t: State)
    requires Reaches(s0, s) && Inv(s) && s.watcher.Suspending? && |s.members| <= s.cfg.rep / 2
    ensures Reaches(s0, t) && Inv(t) && t.watcher.Quiet? && t.childWatch
  {
    hide Reaches, Inv;
    t := s;
    if !s.cfg.sync && s.writer.Waiting? {
      Goes(s0, s, ReturnShort);
      t := Next(s, ReturnShort);
    }
    Goes(s0, t, Suspend);
    t := Next(t, Suspend);
  }

  /** With half or fewer of the peers left, losing one more arms the watch. */
  lemma LosesOne(s0: State, s: State) returns (t: State)
    requires Reaches(s0, s) && Inv(s) && s.watcher.Quiet? && s.members == s.props.Keys && s.members != {}
    requires |s.members| <= s.cfg.rep / 2
    ensures Reaches(s0, t) && Inv(t) && t.watcher.Quiet? && t.childWatch
  {
    hide Reaches, Inv;
    var p :| p in s.members;
    assert |s.members - {p}| == |s.members| - 1;
    Goes(s0, s, PeerDeleted(p, false, None));
    t := Suspends(s0, PeerDeletedStep(s, p, false, None));
  }

  lemma HasResumed(s: State, t: State)
    requires Reaches(s, t) && !t.suspended
    ensures CanResume(s)
  {
  }

  lemma Resumes(s: State)
    requires Inv(s) && !Abandoned(s)
    ensures CanResume(s)
  {
    hide Inv, Reaches, MembershipOk;
    ReachesRefl(s);
    InvMembership(s);
    BelowFull(s);
    var t := s;
    match s.watcher {
      case Quiet =>
      case Suspending => t := Suspends(s, s);
      case Connected(_, _) => t := Integrates(s, s);
      case Resyncing(_, _) => t := Finishes(s, s);
    }
    InvMembership(t);
    BelowFull(t);
    if t.suspended {
      if !t.childWatch {
        t := LosesOne(s, t);
      }
      t := Refills(s, t);
    }
    HasResumed(s, t);
  }

  /** The exact condition, in every watcher phase: a client can come to a state in which writes are
      possible if and only if it is not one that, between events, is suspended with no peer left to
      lose and the watch gone. */
  lemma ResumeIff(s: State)
    requires Reachable(s)
    ensures CanResume(s) <==> !Abandoned(s)
  {
    hide Inv, Reachable;
    ReachableInv(s);
    if Abandoned(s) {
      if CanResume(s) {
        var t: State :| Reaches(s, t) && !t.suspended;
        var es :| Run(s, es) == Some(t);
        NeverRejoins(s, es, t);
      }
    } else {
      Resumes(s);
    }
  }

  /** For every configuration: all peers are lost, the child event comes while no server is
      listed, and from then on, whatever servers join, the client stays without a peer and its
      writes suspended in every run. */
  lemma SuspendedForGood(cfg: Config) returns (s: State)
    requires cfg.rep >= 1 && cfg.size < TWO32
    ensures Reachable(s) && s.cfg == cfg && s.suspended && !CanResume(s)
    ensures forall es: seq<Event> :: Run(s, es).Some? ==> Run(s, es).value.suspended && Run(s, es).value.members == {}
  {
    hide Reachable, Names, Run, CanResume;
    var u := LosesAll(cfg, cfg.rep);
    assert u.members == {};
    ReachableStep(u, ChildEvent(None));
    s := Next(u, ChildEvent(None));
    ResumeIff(s);
    forall es: seq<Event> | Run(s, es).Some? ensures Run(s, es).value.suspended && Run(s, es).value.members == {} {
      NeverRejoins(s, es, Run(s, es).value);
    }
  }
}
