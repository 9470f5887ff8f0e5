/** TryRecover as the program runs it: a scan for the source, a read, and a write to every
    other peer. */
module Recoverer {
  import opened Bytes
  import opened Replication
  import opened Recovery

  class RecoveringClient {
    const buffer: array<byte>
    var fileSize: nat
    /** The regions of remote_props, as reached through their queue pairs. */
    var regions: map<Addr, Region>

    function Slot(): int { buffer.Length - WORD }

    /** A fresh client: a zero buffer, connected to regions of its own size. */
    predicate Connected()
      reads this, buffer
    {
      && WORD <= buffer.Length && Slot() < TWO32
      && forall p :: p in regions ==> |regions[p].data| == Slot()
    }

    constructor (mr: array<byte>, conns: map<Addr, Region>)
      requires WORD <= mr.Length < TWO32 && forall p :: p in conns ==> |conns[p].data| == mr.Length - WORD
      ensures Connected() && buffer == mr && regions == conns && fileSize == 0
    {
      buffer, fileSize, regions := mr, 0, conns;
    }

    /** getRecoverSrcPeer over the answers to GET_INFO, in the order of the connection table. */
    method GetRecoverSrcPeer(order: seq<Addr>) returns (src: Option<Addr>, size: nat)
      requires Connected() && Covers(order, regions)
      ensures src == Scan(order, regions) && IsSource(regions, src) && size == RecoverSize(regions, src)
      ensures size > 0 ==> src.Some? && src.value in regions && size <= Slot()
    {
      hide UsedSize;
      var minSeq: nat := TWO64 - 1;
      src, size := None, 0;
      for i := 0 to |order|
        invariant src == Scan(order[..i], regions)
        invariant src.None? ==> minSeq == TWO64 - 1 && size == 0
        invariant src.Some? ==> minSeq == regions[src.value].word && size == UsedSize(regions[src.value].data)
      {
        assert order[..i + 1][..i] == order[..i];
        var info := regions[order[i]];
        if info.word != 0 && info.word < minSeq {
          minSeq, size, src := info.word, UsedSize(info.data), Some(order[i]);
        }
      }
      assert order[..|order|] == order;
      ScanIsSource(order, regions);
    }

    method RecoverFromSrc(src: Addr, size: nat)
      requires Connected() && src in regions && size <= Slot()
      modifies this`fileSize, buffer
      ensures fileSize == size && buffer[..] == Splice(old(buffer[..]), 0, regions[src].data[..size])
    {
      forall i | 0 <= i < size {
        buffer[i] := regions[src].data[i];
      }
      fileSize := size;
    }

    /** syncPeerAfterRecover: the file and the local sequence word to everyone but skipPeer. */
    method SyncPeerAfterRecover(skipPeer: Option<Addr>)
      requires Connected() && fileSize <= Slot()
      modifies this`regions
      ensures regions.Keys == old(regions).Keys
      ensures var file, word := buffer[..fileSize % TWO32], FromLE(buffer[Slot()..]);
              forall p :: p in regions ==>
                regions[p] == if skipPeer == Some(p) then old(regions)[p]
                              else Region(Splice(old(regions)[p].data, 0, file), word)
    {
      var file, word := buffer[..fileSize % TWO32], FromLE(buffer[Slot()..]);
      ghost var was := regions;
      var todo := regions.Keys;
      while todo != {}
        invariant todo <= was.Keys == regions.Keys
        invariant forall p :: p in todo ==> regions[p] == was[p]
        invariant forall p :: p in regions && p !in todo ==>
                    regions[p] == if skipPeer == Some(p) then was[p] else Region(Splice(was[p].data, 0, file), word)
        decreases todo
      {
        var p :| p in todo;
        if skipPeer != Some(p) {
          regions := regions[p := Region(Splice(regions[p].data, 0, file), word)];
        }
        todo := todo - {p};
      }
    }

    /** TryRecover on a fresh client does what the specification says, from a source it chose. */
    method Run(order: seq<Addr>) returns (src: Option<Addr>)
      requires Connected() && Covers(order, regions) && ZeroFrom(buffer[..], 0) && fileSize == 0
      modifies this`fileSize, this`regions, buffer
      ensures src == Scan(order, old(regions)) && IsSource(old(regions), src)
      ensures Restored(buffer[..Slot()], fileSize, regions) == TryRecover(Slot(), old(regions), src)
    {
      hide UsedSize, FromLE, Candidate, IsSource, Scan, Covers, Splice, Zeros;
      var size;
      src, size := GetRecoverSrcPeer(order);
      ghost var want := TryRecover(Slot(), regions, src);
      if size > 0 {
        RecoverFromSrc(src.value, size);
      }
      SamePrefix(buffer[..], want.buffer);
      assert FromLE(buffer[Slot()..]) == 0 by { ZeroWord(buffer[Slot()..]); }
      assert buffer[..fileSize % TWO32] == want.buffer[..fileSize % TWO32];
      ghost var was := regions;
      SyncPeerAfterRecover(src);
      forall p | p in was ensures regions[p] == want.regions[p] {
      }
      assert regions == want.regions;
    }
  }

  lemma SamePrefix(s: seq<byte>, t: seq<byte>)
    requires |t| <= |s| && s[..|t|] == t
    ensures forall k :: 0 <= k <= |t| ==> s[..k] == t[..k]
  {
    forall k | 0 <= k <= |t| ensures s[..k] == t[..k] {
      assert s[..k] == s[..|t|][..k];
    }
  }
}
