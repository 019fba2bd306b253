// The addresses of one harness run and the subset of them that signs a step.

module AddressPools {
  import opened Prelude

  type Address = nat

  type Pool = p: seq<Address> | |p| > 0 witness [0]

  // `AddressPool::generate`: as many distinct fresh addresses as asked for, and at least one.
  function Generate(size: nat): (pool: Pool)
    ensures |pool| == if size == 0 then 1 else size
    ensures Distinct(pool)
  {
    seq(if size == 0 then 1 else size, i => i)
  }

  // Indices wrap around the pool.
  function Get(pool: Pool, index: nat): Address {
    pool[index % |pool|]
  }

  // An index within the pool names the address there, and the indices repeat with the pool's size.
  lemma GetWraps(pool: Pool, index: nat)
    ensures index < |pool| ==> Get(pool, index) == pool[index]
    ensures Get(pool, index + |pool|) == Get(pool, index)
  {
    RemainderIsUnique(index + |pool|, |pool|, index / |pool| + 1, index % |pool|);
  }

  lemma RemainderIsUnique(x: nat, n: nat, quotient: nat, remainder: nat)
    requires remainder < n && x == quotient * n + remainder
    ensures x % n == remainder
  {
    var d := quotient - x / n;
    calc {
      d * n;
      quotient * n - x / n * n;
      x % n - remainder;
    }
    SmallMultipleIsZero(d, n);
  }

  lemma SmallMultipleIsZero(d: int, n: int)
    requires -n < d * n < n
    ensures d == 0
  {
  }

  // The addresses the raw indices name, repetitions included.
  function Named(pool: Pool, indices: seq<nat>): seq<Address> {
    seq(|indices|, i requires 0 <= i < |indices| => Get(pool, indices[i]))
  }

  function WithoutRepeats(named: seq<Address>): seq<Address> {
    if named == [] then []
    else
      var front := WithoutRepeats(named[..|named| - 1]);
      var last := named[|named| - 1];
      if last in front then front else front + [last]
  }

  function Resolved(pool: Pool, indices: seq<nat>): seq<Address> {
    WithoutRepeats(Named(pool, indices))
  }

  method Resolve(pool: Pool, indices: seq<nat>) returns (out: seq<Address>)
    ensures out == Resolved(pool, indices)
  {
    ghost var named := Named(pool, indices);
    out := [];
    var i := 0;
    while i < |indices|
      invariant 0 <= i <= |indices|
      invariant out == WithoutRepeats(named[..i])
    {
      assert named[..i + 1][..i] == named[..i];
      var address := Get(pool, indices[i]);
      if address !in out {
        out := out + [address];
      }
      i := i + 1;
    }
    assert named[..i] == named;
  }

  // Where `address` first occurs, or the length if it does not.
  function FirstIndex(named: seq<Address>, address: Address): (i: nat)
    ensures i <= |named|
    ensures i < |named| ==> named[i] == address
    ensures forall k :: 0 <= k < i ==> named[k] != address
  {
    if named == [] || named[0] == address then 0 else 1 + FirstIndex(named[1..], address)
  }

  // The signers of a step are exactly the addresses named, each once, in the order they are first named.
  lemma {:induction false} WithoutRepeatsInOrder(named: seq<Address>)
    ensures var out := WithoutRepeats(named);
            && (forall a :: a in out <==> a in named)
            && (forall k, l :: 0 <= k < l < |out| ==> FirstIndex(named, out[k]) < FirstIndex(named, out[l]))
    decreases |named|
  {
    if named != [] {
      var n := |named| - 1;
      var shorter := named[..n];
      WithoutRepeatsInOrder(shorter);
      assert named == shorter + [named[n]];
      var front := WithoutRepeats(shorter);
      forall k | 0 <= k < |front| ensures FirstIndex(named, front[k]) == FirstIndex(shorter, front[k]) {
        FirstIndexInFront(shorter, named[n], front[k]);
      }
    }
  }

  // Who signs a step, by the indices it authorizes.
  lemma SignersAreNamed(pool: Pool, indices: seq<nat>, a: Address)
    ensures a in Resolved(pool, indices) <==> exists i :: 0 <= i < |indices| && pool[indices[i] % |pool|] == a
  {
    var named := Named(pool, indices);
    WithoutRepeatsInOrder(named);
    assert forall i :: 0 <= i < |indices| ==> named[i] == pool[indices[i] % |pool|];
    if a in named {
      var i :| 0 <= i < |named| && named[i] == a;
      assert pool[indices[i] % |pool|] == a;
    }
  }

  lemma FirstIndexInFront(front: seq<Address>, last: Address, a: Address)
    requires a in front
    ensures FirstIndex(front + [last], a) == FirstIndex(front, a)
  {
    var all := front + [last];
    var i, j := FirstIndex(front, a), FirstIndex(all, a);
    assert i < |front| && all[i] == a;
    assert j <= i && all[j] == front[j];
  }
}
