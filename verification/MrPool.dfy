/** The pool of memory regions: free regions sorted by size, handed out best fit and zeroed. */
module MrPool {
  import opened Bytes

  type Mr = array<byte>

  /** mr_cmp: by size, then by address. */
  predicate Less(a: Mr, b: Mr, addr: map<Mr, nat>)
    requires a in addr && b in addr
  {
    if a.Length != b.Length then a.Length < b.Length else addr[a] < addr[b]
  }

  predicate Sorted(s: seq<Mr>, addr: map<Mr, nat>) {
    && (forall i :: 0 <= i < |s| ==> s[i] in addr)
    && (forall i, j :: 0 <= i < j < |s| ==> Less(s[i], s[j], addr))
  }

  function Without(s: seq<Mr>, i: nat): seq<Mr>
    requires i < |s|
  {
    s[..i] + s[i + 1..]
  }

  function Inserted(s: seq<Mr>, i: nat, mr: Mr): seq<Mr>
    requires i <= |s|
  {
    s[..i] + [mr] + s[i..]
  }

  /** Removing an element of a sorted free set removes exactly that region. */
  lemma WithoutIs(s: seq<Mr>, i: nat, addr: map<Mr, nat>)
    requires i < |s| && Sorted(s, addr)
    ensures Sorted(Without(s, i), addr)
    ensures forall b :: b in Without(s, i) <==> b in s && b != s[i]
  {
    var r := Without(s, i);
    forall b | b in r ensures b in s && b != s[i] {
      var k :| 0 <= k < |r| && r[k] == b;
      if k < i { assert Less(s[k], s[i], addr); } else { assert Less(s[i], s[k + 1], addr); }
    }
    forall b | b in s && b != s[i] ensures b in r {
      var k :| 0 <= k < |s| && s[k] == b;
      assert k < i ==> r[k] == b;
      assert k > i ==> r[k - 1] == b;
    }
  }

  /** Putting a region before the first one not below it keeps the free set sorted. */
  lemma InsertedIs(s: seq<Mr>, i: nat, mr: Mr, addr: map<Mr, nat>)
    requires i <= |s| && Sorted(s, addr) && mr in addr && mr !in s
    requires forall b, c :: b in addr && c in addr && addr[b] == addr[c] ==> b == c
    requires forall j :: 0 <= j < i ==> Less(s[j], mr, addr)
    requires i < |s| ==> !Less(s[i], mr, addr)
    ensures Sorted(Inserted(s, i, mr), addr)
    ensures forall b :: b in Inserted(s, i, mr) <==> b in s || b == mr
  {
    var r := Inserted(s, i, mr);
    forall j | i <= j < |s| ensures Less(mr, s[j], addr) {
      assert Less(mr, s[i], addr) by { assert s[i] in s && addr[s[i]] != addr[mr]; }
      assert j > i ==> Less(s[i], s[j], addr);
    }
    forall j, k | 0 <= j < k < |r| ensures r[j] in addr && r[k] in addr && Less(r[j], r[k], addr) {
      assert j < i ==> r[j] == s[j];
      assert j > i ==> r[j] == s[j - 1];
      assert k < i ==> r[k] == s[k];
      assert k > i ==> r[k] == s[k - 1];
    }
    assert s == s[..i] + s[i..];
  }

  lemma InsertedLength(s: seq<Mr>, i: nat, mr: Mr)
    requires i <= |s|
    ensures |Inserted(s, i, mr)| == |s| + 1
  {
  }

  /** In a sorted free set the first region that fits is the smallest that fits, and of several of
      that size the one at the lowest address. */
  lemma FirstFitIsBest(s: seq<Mr>, i: nat, size: nat, addr: map<Mr, nat>)
    requires i < |s| && Sorted(s, addr) && forall j :: 0 <= j < i ==> s[j].Length < size
    ensures forall b :: b in s && b.Length >= size ==>
              s[i].Length <= b.Length && (s[i].Length == b.Length ==> addr[s[i]] <= addr[b])
  {
    forall b | b in s && b.Length >= size
      ensures s[i].Length <= b.Length && (s[i].Length == b.Length ==> addr[s[i]] <= addr[b])
    {
      var j :| 0 <= j < |s| && s[j] == b;
      assert j > i ==> Less(s[i], s[j], addr);
    }
  }

  class NCLMrPool {
    /** The free set in its iteration order. */
    var freeMrs: seq<Mr>
    /** Regions handed out and not recycled. */
    ghost var held: set<Mr>
    /** Address of every region the pool has made, and the next one. */
    var addr: map<Mr, nat>
    var nextAddr: nat

    ghost predicate Tables()
      reads this
    {
      && addr.Keys == (set b | b in freeMrs) + held
      && (forall b :: b in freeMrs ==> b !in held)
      && (forall b :: b in addr ==> addr[b] < nextAddr)
      && (forall b, c :: b in addr && c in addr && addr[b] == addr[c] ==> b == c)
      && Sorted(freeMrs, addr)
    }

    ghost predicate Valid()
      reads this, freeMrs
    {
      Tables() && forall b :: b in freeMrs ==> ZeroFrom(b[..], 0)
    }

    /** Every region the pool ever made has size n. */
    ghost predicate Uniform(n: nat)
      reads this
    {
      forall b :: b in addr ==> b.Length == n
    }

    /** A request can be served: the pool is empty, or some free region is large enough. */
    ghost predicate CanServe(size: nat)
      reads this
    {
      freeMrs == [] || exists i :: 0 <= i < |freeMrs| && freeMrs[i].Length >= size
    }

    lemma UniformServes(size: nat)
      requires Valid() && Uniform(size)
      ensures CanServe(size)
    {
      if freeMrs != [] {
        assert freeMrs[0] in freeMrs;
      }
    }

    constructor (preAllocate: nat, mrSize: nat)
      ensures Valid() && held == {} && |freeMrs| == preAllocate && Uniform(mrSize)
      ensures forall b :: b in freeMrs ==> fresh(b)
    {
      freeMrs, held, addr, nextAddr := [], {}, map[], 0;
      new;
      for i := 0 to preAllocate
        invariant Valid() && held == {} && |freeMrs| == i && Uniform(mrSize)
        invariant forall b :: b in freeMrs ==> fresh(b)
      {
        var mr := NewMr(mrSize);
        PutFree(mr);
      }
    }

    /** Insertion of a zeroed region into the free set. */
    method PutFree(mr: Mr)
      requires Valid() && mr in held && ZeroFrom(mr[..], 0)
      modifies this`freeMrs, this`held
      ensures Valid() && held == old(held) - {mr} && |freeMrs| == |old(freeMrs)| + 1
      ensures forall b :: b in freeMrs <==> b in old(freeMrs) || b == mr
    {
      var i := Place(mr);
      InsertedIs(freeMrs, i, mr, addr);
      InsertedLength(freeMrs, i, mr);
      hide Sorted, Inserted, Less;
      freeMrs, held := Inserted(freeMrs, i, mr), held - {mr};
    }

    /** A fresh zeroed region, at an address above all others. */
    method NewMr(size: nat) returns (mr: Mr)
      requires Valid()
      modifies this`addr, this`nextAddr, this`held
      ensures Valid() && fresh(mr) && mr.Length == size && ZeroFrom(mr[..], 0)
      ensures held == old(held) + {mr} && addr == old(addr)[mr := old(nextAddr)] && mr !in old(addr)
    {
      mr := new byte[size](i => 0);
      assert mr !in freeMrs;
      addr := addr[mr := nextAddr];
      nextAddr := nextAddr + 1;
      held := held + {mr};
    }

    /** The smallest free region that fits, or a new one of exactly this size when none is
        free; zero either way. */
    method GetMRofSize(size: nat) returns (mr: Mr)
      requires Valid() && CanServe(size)
      modifies this
      ensures Valid() && mr.Length >= size && ZeroFrom(mr[..], 0)
      ensures held == old(held) + {mr} && mr !in old(held)
      ensures old(freeMrs) == [] ==> fresh(mr) && mr.Length == size && freeMrs == []
      ensures old(freeMrs) != [] ==>
                && mr in old(freeMrs) && addr == old(addr)
                && (forall b :: b in old(freeMrs) && b.Length >= size ==>
                      mr.Length <= b.Length && (mr.Length == b.Length ==> addr[mr] <= addr[b]))
                && (forall b :: b in freeMrs <==> b in old(freeMrs) && b != mr)
      ensures old(Uniform(size)) ==> Uniform(size)
    {
      if |freeMrs| == 0 {
        mr := NewMr(size);
      } else {
        mr := TakeBestFit(size);
      }
    }

    method TakeBestFit(size: nat) returns (mr: Mr)
      requires Valid() && CanServe(size) && freeMrs != []
      modifies this`freeMrs, this`held
      ensures Valid() && mr.Length >= size && ZeroFrom(mr[..], 0)
      ensures held == old(held) + {mr} && mr !in old(held) && mr in old(freeMrs)
      ensures forall b :: b in old(freeMrs) && b.Length >= size ==>
                mr.Length <= b.Length && (mr.Length == b.Length ==> addr[mr] <= addr[b])
      ensures forall b :: b in freeMrs <==> b in old(freeMrs) && b != mr
    {
      var i := FirstFit(size);
      mr := freeMrs[i];
      FirstFitIsBest(freeMrs, i, size, addr);
      WithoutIs(freeMrs, i, addr);
      hide Sorted, Without, Less;
      freeMrs, held := Without(freeMrs, i), held + {mr};
    }

    /** find_if over the free set. */
    method FirstFit(size: nat) returns (i: nat)
      requires CanServe(size) && freeMrs != []
      ensures i < |freeMrs| && freeMrs[i].Length >= size
      ensures forall j :: 0 <= j < i ==> freeMrs[j].Length < size
    {
      ghost var k :| 0 <= k < |freeMrs| && freeMrs[k].Length >= size;
      i := 0;
      while freeMrs[i].Length < size
        invariant i <= k && forall j :: 0 <= j < i ==> freeMrs[j].Length < size
        decreases k - i
      {
        i := i + 1;
      }
    }

    /** Zero a region that was handed out and put it back in its place. */
    method RecycleMR(mr: Mr)
      requires Valid() && mr in held
      modifies this`freeMrs, this`held, mr
      ensures Valid() && ZeroFrom(mr[..], 0) && held == old(held) - {mr}
      ensures forall b :: b in freeMrs <==> b in old(freeMrs) || b == mr
    {
      forall i | 0 <= i < mr.Length {
        mr[i] := 0;
      }
      var i := Place(mr);
      InsertedIs(freeMrs, i, mr, addr);
      hide Sorted, Inserted, Less;
      freeMrs, held := Inserted(freeMrs, i, mr), held - {mr};
    }
  
    /** Where a region belongs in the free set. */
    method Place(mr: Mr) returns (i: nat)
      requires Tables() && mr in addr
      ensures i <= |freeMrs| && (forall j :: 0 <= j < i ==> Less(freeMrs[j], mr, addr))
      ensures i < |freeMrs| ==> !Less(freeMrs[i], mr, addr)
    {
      i := 0;
      while i < |freeMrs| && Less(freeMrs[i], mr, addr)
        invariant i <= |freeMrs| && forall j :: 0 <= j < i ==> Less(freeMrs[j], mr, addr)
      {
        i := i + 1;
      }
    }
  }
}
