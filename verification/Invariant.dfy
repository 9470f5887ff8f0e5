/** The inductive invariant of the replication machine and its proof, event by event. */
module Invariant {
  import opened Bytes
  import opened Replication

  // ---- the history and what it replays to ----

  /** The region after the first m writes of h, starting from zeros. */
  function Replay(size: nat, h: seq<Op>, m: nat): (r: seq<byte>)
    requires m <= |h| && OpsFit(size, h)
    ensures |r| == size
  {
    if m == 0 then Zeros(size) else Splice(Replay(size, h, m - 1), h[m - 1].off, h[m - 1].bytes)
  }

  predicate OpsFit(size: nat, h: seq<Op>) {
    forall i :: 0 <= i < |h| ==> h[i].off + |h[i].bytes| <= size
  }

  /** The file length after the first m writes. */
  function FileLen(h: seq<Op>, m: nat): nat
    requires m <= |h|
  {
    if m == 0 then 0 else Max(FileLen(h, m - 1), h[m - 1].off + |h[m - 1].bytes|)
  }

  /** The sequence word after m writes: the first write carries 0, and the counter wraps. */
  function NumOf(m: nat): nat {
    if m == 0 then 0 else (m - 1) % TWO64
  }

  /** Message a of the stream every peer is sent: the data of write a/2, then its word. */
  function MsgAt(h: seq<Op>, a: nat): Msg
    requires a / 2 < |h|
  {
    if a % 2 == 0 then Data(WriteTok(a / 2), h[a / 2].off, h[a / 2].bytes)
    else Word(WriteTok(a / 2), NumOf(a / 2 + 1))
  }

  /** c is the stretch of the stream that starts at position a. */
  predicate Regular(h: seq<Op>, a: int, c: seq<Msg>) {
    && 0 <= a && a + |c| <= 2 * |h|
    && forall j :: 0 <= j < |c| ==> c[j] == MsgAt(h, a + j)
  }

  lemma {:induction false} ReplayExtend(size: nat, h: seq<Op>, op: Op, m: nat)
    requires m <= |h| && OpsFit(size, h) && OpsFit(size, h + [op])
    ensures Replay(size, h + [op], m) == Replay(size, h, m)
    ensures FileLen(h + [op], m) == FileLen(h, m)
  {
    if m > 0 {
      ReplayExtend(size, h, op, m - 1);
      assert (h + [op])[m - 1] == h[m - 1];
    }
  }

  lemma {:induction false} ReplayBounds(size: nat, h: seq<Op>, m: nat)
    requires m <= |h| && OpsFit(size, h)
    ensures FileLen(h, m) <= size
    ensures ZeroFrom(Replay(size, h, m), FileLen(h, m))
  {
    if m > 0 {
      ReplayBounds(size, h, m - 1);
    }
  }

  lemma {:induction false} FileLenMono(h: seq<Op>, k: nat, m: nat)
    requires k <= m <= |h|
    ensures FileLen(h, k) <= FileLen(h, m)
    ensures k < m ==> h[k].off + |h[k].bytes| <= FileLen(h, m)
  {
    if k < m {
      FileLenMono(h, k, m - 1);
    }
  }

  // ---- one peer ----

  ghost predicate JoiningOk(h: seq<Op>, n: nat, p: Peer)
    requires n <= |h|
  {
    && Regular(h, 2 * n - |p.chan|, p.chan)
    && ZeroFrom(p.data, FileLen(h, |h|))
  }

  /** The snapshot of the first `upto` writes sits at position `ahead` of the channel; the
      stream before it ends, and the stream after it resumes, at write `resume`. */
  ghost predicate SyncingOk(size: nat, h: seq<Op>, n: nat, p: Peer, ahead: nat, resume: nat, upto: nat)
    requires n <= |h| && OpsFit(size, h)
  {
    && resume <= upto <= resume + 1 && resume <= n && upto <= |h|
    && |p.chan| == ahead + 2 + 2 * (n - resume)
    && FileLen(h, upto) <= size
    && Regular(h, 2 * resume - ahead, p.chan[..ahead])
    && p.chan[ahead] == Data(SyncTok, 0, Replay(size, h, upto)[..FileLen(h, upto)])
    && p.chan[ahead + 1] == Word(SyncTok, NumOf(upto))
    && Regular(h, 2 * resume, p.chan[ahead + 2..])
    && ZeroFrom(p.data, FileLen(h, upto))
  }

  ghost predicate SyncingWordOk(size: nat, h: seq<Op>, n: nat, p: Peer, resume: nat, upto: nat)
    requires n <= |h| && OpsFit(size, h)
  {
    && resume <= upto <= resume + 1 && resume <= n && upto <= |h|
    && |p.chan| == 1 + 2 * (n - resume)
    && p.chan[0] == Word(SyncTok, NumOf(upto))
    && Regular(h, 2 * resume, p.chan[1..])
    && p.data == Replay(size, h, upto)
  }

  /** The region replays the first m writes, m being exactly those delivered or, right after a
      snapshot, one more; the word names m, or m - 1 while the word of write m - 1 is under way. */
  ghost predicate LiveOk(size: nat, h: seq<Op>, n: nat, p: Peer, m: nat)
    requires n <= |h| && OpsFit(size, h)
  {
    var a := 2 * n - |p.chan|;
    && Regular(h, a, p.chan)
    && a <= 2 * m <= a + 2 && m <= |h|
    && p.data == Replay(size, h, m)
    && (p.word == NumOf(m) || (2 * m == a + 1 && p.word == NumOf(m - 1)))
  }

  ghost predicate PeerOk(size: nat, h: seq<Op>, n: nat, p: Peer) {
    && n <= |h| && OpsFit(size, h) && |p.data| == size
    && match p.stage
       case Joining => JoiningOk(h, n, p)
       case Syncing(ahead, resume, upto) => SyncingOk(size, h, n, p, ahead, resume, upto)
       case SyncingWord(resume, upto) => SyncingWordOk(size, h, n, p, resume, upto)
       case Live(m) => LiveOk(size, h, n, p, m)
  }

  lemma RegularExtend(h: seq<Op>, op: Op, a: int, c: seq<Msg>)
    requires Regular(h, a, c)
    ensures Regular(h + [op], a, c)
  {
    forall j | 0 <= j < |c| ensures c[j] == MsgAt(h + [op], a + j) {
      assert (a + j) / 2 < |h|;
    }
  }

  lemma RegularTail(h: seq<Op>, a: int, c: seq<Msg>)
    requires Regular(h, a, c) && c != []
    ensures Regular(h, a + 1, c[1..]) && 0 <= a && a / 2 < |h|
    ensures c[0] == MsgAt(h, a)
  {
    assert c[0] == MsgAt(h, a + 0);
    forall j | 0 <= j < |c[1..]| ensures c[1..][j] == MsgAt(h, a + 1 + j) {
      assert c[1..][j] == c[j + 1] == MsgAt(h, a + (j + 1));
    }
  }

  lemma SyncingExtend(size: nat, h: seq<Op>, op: Op, n: nat, p: Peer, ahead: nat, resume: nat, upto: nat)
    requires n <= |h| && OpsFit(size, h) && OpsFit(size, h + [op])
    requires SyncingOk(size, h, n, p, ahead, resume, upto)
    ensures SyncingOk(size, h + [op], n, p, ahead, resume, upto)
  {
    RegularExtend(h, op, 2 * resume - ahead, p.chan[..ahead]);
    RegularExtend(h, op, 2 * resume, p.chan[ahead + 2..]);
    ReplayExtend(size, h, op, upto);
    hide Regular, Replay, FileLen, ZeroFrom;
  }

  lemma SyncingWordExtend(size: nat, h: seq<Op>, op: Op, n: nat, p: Peer, resume: nat, upto: nat)
    requires n <= |h| && OpsFit(size, h) && OpsFit(size, h + [op])
    requires SyncingWordOk(size, h, n, p, resume, upto)
    ensures SyncingWordOk(size, h + [op], n, p, resume, upto)
  {
    RegularExtend(h, op, 2 * resume, p.chan[1..]);
    ReplayExtend(size, h, op, upto);
    hide Regular, Replay;
  }

  lemma LiveExtend(size: nat, h: seq<Op>, op: Op, n: nat, p: Peer, m: nat)
    requires n <= |h| && OpsFit(size, h) && OpsFit(size, h + [op])
    requires LiveOk(size, h, n, p, m)
    ensures LiveOk(size, h + [op], n, p, m)
  {
    RegularExtend(h, op, 2 * n - |p.chan|, p.chan);
    ReplayExtend(size, h, op, m);
    hide Regular, Replay, NumOf;
  }

  lemma PeerOkExtend(size: nat, h: seq<Op>, op: Op, n: nat, p: Peer)
    requires PeerOk(size, h, n, p) && op.off + |op.bytes| <= size
    ensures PeerOk(size, h + [op], n, p)
  {
    assert OpsFit(size, h + [op]);
    hide SyncingOk, SyncingWordOk, LiveOk, OpsFit, Replay;
    match p.stage
    case Joining =>
      RegularExtend(h, op, 2 * n - |p.chan|, p.chan);
      ReplayExtend(size, h, op, |h|);
      FileLenMono(h + [op], |h|, |h| + 1);
    case Syncing(ahead, resume, upto) => SyncingExtend(size, h, op, n, p, ahead, resume, upto);
    case SyncingWord(resume, upto) => SyncingWordExtend(size, h, op, n, p, resume, upto);
    case Live(m) => LiveExtend(size, h, op, n, p, m);
  }

  function Two(h: seq<Op>, n: nat): seq<Msg>
    requires n < |h|
  {
    [Data(WriteTok(n), h[n].off, h[n].bytes), Word(WriteTok(n), NumOf(n + 1))]
  }

  lemma RegularPost(h: seq<Op>, n: nat, c: seq<Msg>, a: int)
    requires n < |h| && Regular(h, a, c) && a + |c| == 2 * n
    ensures Regular(h, a, c + Two(h, n))
  {
    var d := c + Two(h, n);
    forall j | 0 <= j < |d| ensures d[j] == MsgAt(h, a + j) {
      if j < |c| { assert d[j] == c[j]; } else { assert a + j == 2 * n || a + j == 2 * n + 1; }
    }
  }

  lemma SyncingPost(size: nat, h: seq<Op>, n: nat, p: Peer, q: Peer, ahead: nat, resume: nat, upto: nat)
    requires n < |h| && OpsFit(size, h) && SyncingOk(size, h, n, p, ahead, resume, upto)
    requires q.data == p.data && q.chan == p.chan + Two(h, n)
    ensures SyncingOk(size, h, n + 1, q, ahead, resume, upto)
  {
    RegularPost(h, n, p.chan[ahead + 2..], 2 * resume);
    assert q.chan[..ahead] == p.chan[..ahead];
    assert q.chan[ahead + 2..] == p.chan[ahead + 2..] + Two(h, n);
  }

  lemma SyncingWordPost(size: nat, h: seq<Op>, n: nat, p: Peer, q: Peer, resume: nat, upto: nat)
    requires n < |h| && OpsFit(size, h) && SyncingWordOk(size, h, n, p, resume, upto)
    requires q.data == p.data && q.chan == p.chan + Two(h, n)
    ensures SyncingWordOk(size, h, n + 1, q, resume, upto)
  {
    RegularPost(h, n, p.chan[1..], 2 * resume);
    assert q.chan[1..] == p.chan[1..] + Two(h, n);
    hide Regular, Replay, OpsFit;
  }

  lemma LivePost(size: nat, h: seq<Op>, n: nat, p: Peer, q: Peer, m: nat)
    requires n < |h| && OpsFit(size, h) && LiveOk(size, h, n, p, m)
    requires q.data == p.data && q.word == p.word && q.chan == p.chan + Two(h, n)
    ensures LiveOk(size, h, n + 1, q, m)
  {
    RegularPost(h, n, p.chan, 2 * n - |p.chan|);
    hide Regular, Replay, OpsFit, NumOf;
  }

  lemma PeerOkPost(size: nat, h: seq<Op>, n: nat, p: Peer, queued: bool)
    requires PeerOk(size, h, n, p) && n < |h|
    ensures PeerOk(size, h, n + 1, PostTo(p, n, h[n].off, h[n].bytes, NumOf(n + 1), queued))
  {
    hide SyncingOk, SyncingWordOk, LiveOk, OpsFit, Replay, Regular;
    var q := PostTo(p, n, h[n].off, h[n].bytes, NumOf(n + 1), queued);
    assert q.chan == p.chan + Two(h, n);
    match p.stage
    case Joining =>
      RegularPost(h, n, p.chan, 2 * n - |p.chan|);
    case Syncing(ahead, resume, upto) => SyncingPost(size, h, n, p, q, ahead, resume, upto);
    case SyncingWord(resume, upto) => SyncingWordPost(size, h, n, p, q, resume, upto);
    case Live(m) => LivePost(size, h, n, p, q, m);
  }

  lemma RegularEmpty(h: seq<Op>, n: nat)
    requires n <= |h|
    ensures Regular(h, 2 * n, [])
  {
  }

  lemma PeerOkSnapshot(size: nat, h: seq<Op>, n: nat, p: Peer)
    requires PeerOk(size, h, n, p) && p.stage.Joining? && n <= |h| <= n + 1
    requires FileLen(h, |h|) <= size
    ensures PeerOk(size, h, n, SnapshotTo(p, Replay(size, h, |h|)[..FileLen(h, |h|)], NumOf(|h|), n, |h|))
  {
    hide Regular, Replay, OpsFit, NumOf, ZeroFrom, FileLen;
    var q := SnapshotTo(p, Replay(size, h, |h|)[..FileLen(h, |h|)], NumOf(|h|), n, |h|);
    assert q.chan[..|p.chan|] == p.chan;
    assert q.chan[|p.chan| + 2..] == [];
    RegularEmpty(h, n);
  }

  /** What waits at the head of a channel always fits the region. */
  lemma HeadFits(size: nat, h: seq<Op>, n: nat, p: Peer)
    requires PeerOk(size, h, n, p) && p.chan != []
    ensures Fits(p.chan[0], |p.data|)
  {
    hide ZeroFrom, Replay, FileLen, NumOf;
    match p.stage
    case Joining => RegularTail(h, 2 * n - |p.chan|, p.chan);
    case Syncing(ahead, resume, upto) =>
      if ahead > 0 {
        assert p.chan[..ahead][0] == p.chan[0];
        RegularTail(h, 2 * resume - ahead, p.chan[..ahead]);
      }
    case SyncingWord(resume, upto) =>
    case Live(m) => RegularTail(h, 2 * n - |p.chan|, p.chan);
  }

  lemma DeliverJoining(size: nat, h: seq<Op>, n: nat, p: Peer)
    requires PeerOk(size, h, n, p) && p.stage.Joining? && p.chan != [] && Fits(p.chan[0], size)
    ensures PeerOk(size, h, n, DeliverAt(p))
  {
    var a := 2 * n - |p.chan|;
    RegularTail(h, a, p.chan);
    FileLenMono(h, a / 2, |h|);
  }

  lemma AheadShift(p: Peer, ahead: nat)
    requires 0 < ahead && ahead + 2 <= |p.chan| && Fits(p.chan[0], |p.data|)
    ensures var c := DeliverAt(p).chan;
            && c[..ahead - 1] == p.chan[..ahead][1..] && c[ahead + 1..] == p.chan[ahead + 2..]
            && c[ahead - 1] == p.chan[ahead] && c[ahead] == p.chan[ahead + 1]
  {
  }

  lemma ZeroAbove(data: seq<byte>, off: nat, bytes: seq<byte>, k: nat)
    requires off + |bytes| <= |data| && off + |bytes| <= k && ZeroFrom(data, k)
    ensures ZeroFrom(Splice(data, off, bytes), k)
  {
  }

  lemma DeliverAhead(size: nat, h: seq<Op>, n: nat, p: Peer)
    requires PeerOk(size, h, n, p) && p.stage.Syncing? && p.stage.ahead > 0 && Fits(p.chan[0], size)
    ensures PeerOk(size, h, n, DeliverAt(p))
  {
    hide Regular, Replay, OpsFit, NumOf, ZeroFrom, FileLen;
    var ahead: int, resume: int, upto := p.stage.ahead, p.stage.resume, p.stage.upto;
    AheadShift(p, ahead);
    assert p.chan[..ahead][0] == p.chan[0];
    RegularTail(h, 2 * resume - ahead, p.chan[..ahead]);
    FileLenMono(h, (2 * resume - ahead) / 2, upto);
    if p.chan[0].Data? { ZeroAbove(p.data, p.chan[0].off, p.chan[0].bytes, FileLen(h, upto)); }
    assert SyncingOk(size, h, n, DeliverAt(p), ahead - 1, resume, upto);
  }

  lemma DeliverSnapshot(size: nat, h: seq<Op>, n: nat, p: Peer)
    requires PeerOk(size, h, n, p) && p.stage.Syncing? && p.stage.ahead == 0 && Fits(p.chan[0], size)
    ensures PeerOk(size, h, n, DeliverAt(p))
  {
    var upto := p.stage.upto;
    ReplayBounds(size, h, upto);
    assert DeliverAt(p).data == Replay(size, h, upto);
    assert p.chan[1..][1..] == p.chan[2..];
  }

  lemma DeliverSyncWord(size: nat, h: seq<Op>, n: nat, p: Peer)
    requires PeerOk(size, h, n, p) && p.stage.SyncingWord?
    ensures PeerOk(size, h, n, DeliverAt(p))
  {
    hide Regular, Replay, OpsFit, NumOf;
  }

  lemma ReplayStep(size: nat, h: seq<Op>, k: nat)
    requires k < |h| && OpsFit(size, h)
    ensures Replay(size, h, k + 1) == Splice(Replay(size, h, k), h[k].off, h[k].bytes)
  {
  }

  lemma DeliverLiveData(size: nat, h: seq<Op>, n: nat, p: Peer, k: nat)
    requires PeerOk(size, h, n, p) && p.stage.Live? && 2 * n - |p.chan| == 2 * k && k < n
    requires p.chan[0] == Data(WriteTok(k), h[k].off, h[k].bytes) && Regular(h, 2 * k + 1, p.chan[1..])
    ensures PeerOk(size, h, n, DeliverAt(p))
  {
    hide Regular, NumOf, Replay, Splice;
    ReplayStep(size, h, k);
    if p.stage.applied == k + 1 {
      SpliceTwice(Replay(size, h, k), h[k].off, h[k].bytes);
    }
    assert DeliverAt(p).data == Replay(size, h, k + 1);
  }

  lemma DeliverLiveWord(size: nat, h: seq<Op>, n: nat, p: Peer, k: nat)
    requires PeerOk(size, h, n, p) && p.stage.Live? && 2 * n - |p.chan| == 2 * k + 1 && k < n
    requires p.chan[0] == Word(WriteTok(k), NumOf(k + 1)) && Regular(h, 2 * k + 2, p.chan[1..])
    ensures PeerOk(size, h, n, DeliverAt(p))
  {
    hide Regular, Replay, OpsFit, NumOf;
    var q := DeliverAt(p);
    assert 2 * n - |q.chan| == 2 * k + 2;
    assert p.stage.applied == k + 1;
  }

  lemma DeliverLive(size: nat, h: seq<Op>, n: nat, p: Peer)
    requires PeerOk(size, h, n, p) && p.stage.Live? && p.chan != [] && Fits(p.chan[0], size)
    ensures PeerOk(size, h, n, DeliverAt(p))
  {
    var a := 2 * n - |p.chan|;
    RegularTail(h, a, p.chan);
    hide Regular, Replay, OpsFit, NumOf;
    if a % 2 == 0 {
      DeliverLiveData(size, h, n, p, a / 2);
    } else {
      DeliverLiveWord(size, h, n, p, a / 2);
    }
  }

  lemma PeerOkDeliver(size: nat, h: seq<Op>, n: nat, p: Peer)
    requires PeerOk(size, h, n, p) && p.chan != [] && Fits(p.chan[0], |p.data|)
    ensures PeerOk(size, h, n, DeliverAt(p))
  {
    hide JoiningOk, SyncingOk, SyncingWordOk, LiveOk, OpsFit;
    match p.stage
    case Joining => DeliverJoining(size, h, n, p);
    case Syncing(ahead, resume, upto) =>
      if ahead > 0 { DeliverAhead(size, h, n, p); } else { DeliverSnapshot(size, h, n, p); }
    case SyncingWord(resume, upto) => DeliverSyncWord(size, h, n, p);
    case Live(m) => DeliverLive(size, h, n, p);
  }
}
