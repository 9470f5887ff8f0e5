/** The replication protocol of one open file as a state machine: one application thread
    writing, one watcher thread changing the membership, and the network delivering what
    was posted to each peer in order. */
module Replication {
  import opened Bytes

  datatype Option<+T> = None | Some(value: T)

  datatype Addr = Addr(name: string)

  /** One write as the application issued it. */
  datatype Op = Op(off: nat, bytes: seq<byte>)

  /** The CombinedRequestToken a posted pair of writes completes. */
  datatype Tok = WriteTok(num: nat) | SyncTok

  /** One RDMA write: either file bytes or the sequence word. */
  datatype Msg =
    | Data(tok: Tok, off: nat, bytes: seq<byte>)
    | Word(tok: Tok, num: nat)

  /** History variable, read by no guard: how far a peer's recovery has come.
      `ahead` is the number of undelivered messages in front of the snapshot, `resume` the
      first write posted after it, `upto` the number of writes the snapshot holds, `applied`
      the number of writes the region replays. */
  datatype Stage =
    | Joining
    | Syncing(ahead: nat, resume: nat, upto: nat)
    | SyncingWord(resume: nat, upto: nat)
    | Live(applied: nat)

  /** A peer: its memory region (file bytes and sequence word), the messages posted to it and
      not delivered, the op_queue of RemoteConData, the tokens posted on this connection and
      those whose all_prev_completed flag is set. */
  datatype Peer = Peer(data: seq<byte>, word: nat, chan: seq<Msg>, queue: seq<nat>,
                       posted: seq<nat>, marked: set<nat>, stage: Stage)

  /** The application thread: outside a write, between the local copy and WriteQuorum's
      posting loop, or polling. `tokens` are the peers of request_tokens. */
  datatype Writer = Idle | Begun(off: nat, len: nat) | Waiting(tokens: set<Addr>, marked: set<Addr>)

  /** Which event brought a new peer in: a deleted peer's replacement or a child event. */
  datatype Cause = Deleted | Joined

  /** The watcher thread between and inside events. */
  datatype Watcher = Quiet | Suspending | Connected(peer: Addr, cause: Cause) | Resyncing(peer: Addr, cause: Cause)

  /** size is seq_offset, the bytes below the sequence slot; sync selects WriteSync. */
  datatype Config = Config(size: nat, rep: nat, sync: bool)

  /** `departed` holds the servers that left the membership with their memory intact, each as it
      stood on its last connection: what was posted there may still arrive. */
  datatype State = State(
    cfg: Config,
    buffer: seq<byte>, fileSize: nat, seqNext: nat, word: nat,
    members: set<Addr>, props: map<Addr, Peer>,
    writer: Writer, watcher: Watcher, suspended: bool, childWatch: bool,
    record: set<Addr>, departed: map<Addr, Peer>,
    hist: seq<Op>, acked: set<nat>)
  {
    /** Number of writes already posted to the peers. */
    function Posted(): nat {
      if writer.Begun? && hist != [] then |hist| - 1 else |hist|
    }
  }

  datatype Event =
    | BeginWrite(op: Op)
    | Post
    | Deliver(p: Addr)
    | Poll(p: Addr)
    | Await(p: Addr)
    | ReturnQuorum
    | ReturnShort
    | ReturnSync
    | PeerDeleted(p: Addr, kept: bool, replacement: Option<Addr>)
    | Suspend
    | ChildEvent(found: Option<Addr>)
    | RecoverPost
    | RecoverDone
    | Arrive(p: Addr)
    | Restart(p: Addr)

  // ---- peers ----

  /** A peer just connected that holds nothing: its region is zero, nothing is posted to it. */
  function FreshPeer(size: nat): Peer {
    Peer(Zeros(size), 0, [], [], [], {}, Joining)
  }

  predicate Fits(m: Msg, size: nat) {
    m.Data? ==> m.off + |m.bytes| <= size
  }

  /** A token is complete once neither of its two writes is still in flight. */
  predicate Completed(p: Peer, t: Tok) {
    forall j :: 0 <= j < |p.chan| ==> p.chan[j].tok != t
  }

  function NextStage(stage: Stage, m: Msg): Stage {
    match stage
    case Joining => Joining
    case Syncing(ahead, resume, upto) =>
      if ahead > 0 then Syncing(ahead - 1, resume, upto) else SyncingWord(resume, upto)
    case SyncingWord(_, upto) => Live(upto)
    case Live(applied) =>
      if m.Data? && m.tok.WriteTok? then Live(Max(applied, m.tok.num + 1)) else Live(applied)
  }

  function DeliverAt(p: Peer): Peer
    requires p.chan != [] && Fits(p.chan[0], |p.data|)
  {
    var m := p.chan[0];
    p.(data := if m.Data? then Splice(p.data, m.off, m.bytes) else p.data,
       word := if m.Word? then m.num else p.word,
       chan := p.chan[1..],
       stage := NextStage(p.stage, m))
  }

  function PostTo(p: Peer, tok: nat, off: nat, bytes: seq<byte>, word: nat, queued: bool): Peer {
    p.(chan := p.chan + [Data(WriteTok(tok), off, bytes), Word(WriteTok(tok), word)],
       posted := p.posted + [tok],
       queue := if queued then p.queue + [tok] else p.queue)
  }

  function PollAt(p: Peer): Peer
    requires p.queue != []
  {
    p.(queue := p.queue[1..], marked := p.marked + {p.queue[0]})
  }

  /** recoverPeer's two writes: the file from offset 0 (its size cast to uint32) and the word. */
  function SnapshotTo(p: Peer, bytes: seq<byte>, word: nat, resume: nat, upto: nat): Peer {
    p.(chan := p.chan + [Data(SyncTok, 0, bytes), Word(SyncTok, word)],
       stage := Syncing(|p.chan|, resume, upto))
  }

  // ---- steps ----

  predicate Enabled(s: State, e: Event) {
    match e
    case BeginWrite(op) => s.writer.Idle? && op.off + |op.bytes| <= |s.buffer|
    case Post =>
      && s.writer.Begun? && (s.cfg.sync || !s.suspended)
      && s.writer.off + s.writer.len <= |s.buffer| && s.hist != []
    case Deliver(p) => p in s.props && s.props[p].chan != [] && Fits(s.props[p].chan[0], |s.props[p].data|)
    case Poll(p) =>
      && !s.cfg.sync && s.writer.Waiting? && p in s.props && s.props[p].queue != []
      && Completed(s.props[p], WriteTok(s.props[p].queue[0]))
    case Await(p) =>
      && s.cfg.sync && s.writer.Waiting? && s.hist != [] && p in s.props && p in s.writer.tokens
      && |s.hist| - 1 in s.props[p].posted && Completed(s.props[p], WriteTok(|s.hist| - 1))
    case ReturnQuorum =>
      && !s.cfg.sync && s.writer.Waiting? && s.hist != []
      && |s.members| > s.cfg.rep / 2 && |s.writer.marked| > s.cfg.rep / 2
    case ReturnShort => !s.cfg.sync && s.writer.Waiting? && |s.members| <= s.cfg.rep / 2
    case ReturnSync => s.cfg.sync && s.writer.Waiting? && s.hist != [] && s.writer.marked == s.writer.tokens
    case PeerDeleted(p, _, replacement) =>
      && s.watcher.Quiet? && p in s.members && p in s.props
      && (replacement.Some? ==> replacement.value !in s.members - {p})
    case Suspend => s.watcher.Suspending? && (s.cfg.sync || !s.writer.Waiting?)
    case ChildEvent(found) => s.watcher.Quiet? && s.childWatch && (found.Some? ==> found.value !in s.members)
    case RecoverPost => s.watcher.Connected? && s.watcher.peer in s.props && s.fileSize % TWO32 <= |s.buffer|
    case RecoverDone => s.watcher.Resyncing? && s.watcher.peer in s.props && Completed(s.props[s.watcher.peer], SyncTok)
    case Arrive(p) => p in s.departed && s.departed[p].chan != [] && Fits(s.departed[p].chan[0], |s.departed[p].data|)
    case Restart(p) => p in s.departed
  }

  /** Append and WritePos up to the replication call: copy, extend, bump the sequence word. */
  function BeginWriteStep(s: State, op: Op): State
    requires Enabled(s, BeginWrite(op))
  {
    s.(buffer := Splice(s.buffer, op.off, op.bytes),
       fileSize := Max(s.fileSize, op.off + |op.bytes|),
       word := s.seqNext,
       seqNext := (s.seqNext + 1) % TWO64,
       writer := Begun(op.off, |op.bytes|),
       hist := s.hist + [op])
  }

  /** The posting loop of WriteQuorum or WriteSync. */
  function PostStep(s: State): State
    requires Enabled(s, Post)
  {
    var bytes := s.buffer[s.writer.off..s.writer.off + s.writer.len];
    s.(props := map p | p in s.props :: PostTo(s.props[p], |s.hist| - 1, s.writer.off, bytes, s.word, !s.cfg.sync),
       writer := Waiting(s.props.Keys, {}))
  }

  function PollStep(s: State, p: Addr): State
    requires Enabled(s, Poll(p))
  {
    s.(props := s.props[p := PollAt(s.props[p])],
       writer := if s.props[p].queue[0] == |s.hist| - 1
                 then s.writer.(marked := s.writer.marked + {p}) else s.writer)
  }

  /** The connection to p is dropped; `kept` says whether the server still holds its region. */
  function Dropped(s: State, p: Addr, kept: bool): State
    requires p in s.props
  {
    s.(members := s.members - {p}, props := s.props - {p},
       departed := if kept then s.departed[p := s.props[p]] else s.departed)
  }

  /** What AddPeer connects to: a server that still holds the file hands back the region it has,
      any other a zero one. */
  function JoiningPeer(s: State, x: Addr): Peer {
    if x in s.departed then FreshPeer(s.cfg.size).(data := s.departed[x].data, word := s.departed[x].word)
    else FreshPeer(s.cfg.size)
  }

  function ConnectedTo(s: State, x: Addr, cause: Cause): State {
    s.(members := s.members + {x}, props := s.props[x := JoiningPeer(s, x)], departed := s.departed - {x},
       watcher := Connected(x, cause))
  }

  function PeerDeletedStep(s: State, p: Addr, kept: bool, replacement: Option<Addr>): State
    requires Enabled(s, PeerDeleted(p, kept, replacement))
  {
    var t := Dropped(s, p, kept);
    match replacement
    case Some(x) => ConnectedTo(t, x, Deleted)
    case None => if |t.members| <= s.cfg.rep / 2 then t.(watcher := Suspending) else t.(childWatch := true)
  }

  function RecoverPostStep(s: State): State
    requires Enabled(s, RecoverPost)
  {
    var x := s.watcher.peer;
    s.(props := s.props[x := SnapshotTo(s.props[x], s.buffer[..s.fileSize % TWO32], s.word, s.Posted(), |s.hist|)],
       watcher := Resyncing(x, s.watcher.cause))
  }

  function RecoverDoneStep(s: State): State
    requires Enabled(s, RecoverDone)
  {
    if s.watcher.cause.Deleted? then
      s.(watcher := Quiet, record := s.members)
    else
      s.(watcher := Quiet,
         suspended := s.suspended && |s.members| <= s.cfg.rep / 2,
         childWatch := s.childWatch || |s.members| < s.cfg.rep)
  }

  function Next(s: State, e: Event): State
    requires Enabled(s, e)
  {
    match e
    case BeginWrite(op) => BeginWriteStep(s, op)
    case Post => PostStep(s)
    case Deliver(p) => s.(props := s.props[p := DeliverAt(s.props[p])])
    case Poll(p) => PollStep(s, p)
    case Await(p) => s.(writer := s.writer.(marked := s.writer.marked + {p}))
    case ReturnQuorum => s.(writer := Idle, acked := s.acked + {|s.hist| - 1})
    case ReturnShort => s.(writer := Idle)
    case ReturnSync => s.(writer := Idle, acked := s.acked + {|s.hist| - 1})
    case PeerDeleted(p, kept, replacement) => PeerDeletedStep(s, p, kept, replacement)
    case Suspend => s.(watcher := Quiet, suspended := true, childWatch := true)
    case ChildEvent(found) =>
      (match found
       case None => s.(childWatch := false)
       case Some(x) => ConnectedTo(s.(childWatch := false), x, Joined))
    case RecoverPost => RecoverPostStep(s)
    case RecoverDone => RecoverDoneStep(s)
    case Arrive(p) => s.(departed := s.departed[p := DeliverAt(s.departed[p])])
    case Restart(p) => s.(departed := s.departed - {p})
  }

  /** A client just constructed over `members`, before its first write. */
  function Start(cfg: Config, members: set<Addr>): State {
    State(cfg, Zeros(cfg.size), 0, 0, 0,
          members, map p | p in members :: FreshPeer(cfg.size).(stage := Live(0)),
          Idle, Quiet, false, false, members, map[], [], {})
  }

  predicate Initial(s: State) {
    && s.cfg.rep >= 1 && s.cfg.size < TWO32
    && |s.members| == s.cfg.rep
    && s == Start(s.cfg, s.members)
  }

  /** The state a run of events leads to; None when some event was not enabled. */
  function Run(s: State, es: seq<Event>): Option<State> {
    if es == [] then Some(s) else
      var r := Run(s, es[..|es| - 1]);
      var e := es[|es| - 1];
      if r.Some? && Enabled(r.value, e) then Some(Next(r.value, e)) else None
  }

  ghost predicate Reaches(s: State, t: State) {
    exists es: seq<Event> :: Run(s, es) == Some(t)
  }

  ghost predicate Reachable(t: State) {
    exists s: State :: Initial(s) && Reaches(s, t)
  }

  lemma ReachesRefl(s: State)
    ensures Reaches(s, s)
  {
    assert Run(s, []) == Some(s);
  }

  lemma ReachesStep(s: State, t: State, e: Event)
    requires Reaches(s, t) && Enabled(t, e)
    ensures Reaches(s, Next(t, e))
  {
    var es :| Run(s, es) == Some(t);
    assert (es + [e])[..|es + [e]| - 1] == es;
    assert Run(s, es + [e]) == Some(Next(t, e));
  }

  lemma {:induction false} ReachesTrans(s: State, t: State, es: seq<Event>)
    requires Reaches(s, t) && Run(t, es).Some?
    ensures Reaches(s, Run(t, es).value)
  {
    if es != [] {
      ReachesTrans(s, t, es[..|es| - 1]);
      ReachesStep(s, Run(t, es[..|es| - 1]).value, es[|es| - 1]);
    }
  }

  lemma ReachesJoin(s: State, t: State, u: State)
    requires Reaches(s, t) && Reaches(t, u)
    ensures Reaches(s, u)
  {
    var es :| Run(t, es) == Some(u);
    ReachesTrans(s, t, es);
  }

  lemma ReachableStep(t: State, e: Event)
    requires Reachable(t) && Enabled(t, e)
    ensures Reachable(Next(t, e))
  {
    var s :| Initial(s) && Reaches(s, t);
    ReachesStep(s, t, e);
  }
}
