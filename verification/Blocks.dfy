/**
 Sizes in bytes and in blocks.  They are counted up block by block, and shown to be the product and
 the quotient that the driver computes; proofs about whole runs need only the counting.
 */
module Blocks {
  import opened Arith

  /** The size of k blocks. */
  function Bytes(blk: nat, k: nat): nat {
    if k == 0 then 0 else Bytes(blk, k - 1) + blk
  }

  /** The number of whole blocks in n bytes. */
  function BlocksIn(blk: nat, n: nat): nat
    requires blk > 0
  {
    if n < blk then 0 else 1 + BlocksIn(blk, n - blk)
  }

  lemma {:induction false} BytesIsProduct(blk: nat, k: nat)
    ensures Bytes(blk, k) == k * blk
  {
    if k > 0 {
      BytesIsProduct(blk, k - 1);
      assert k * blk == (k - 1) * blk + blk;
    }
  }

  lemma {:induction false} BlocksInIsQuotient(blk: nat, n: nat)
    requires blk > 0
    ensures BlocksIn(blk, n) == n / blk
  {
    if n < blk {
      DivUnique(n, blk, 0, n);
    } else {
      BlocksInIsQuotient(blk, n - blk);
      var q, r := (n - blk) / blk, (n - blk) % blk;
      assert n == q * blk + r + blk == (q + 1) * blk + r;
      DivUnique(n, blk, q + 1, r);
    }
  }

  lemma {:induction false} BytesAdd(blk: nat, a: nat, b: nat)
    ensures Bytes(blk, a + b) == Bytes(blk, a) + Bytes(blk, b)
  {
    if b > 0 {
      BytesAdd(blk, a, b - 1);
    }
  }

  /** n bytes beyond k blocks hold as many more blocks as n bytes do. */
  lemma {:induction false} BlocksBeyond(blk: nat, k: nat, n: nat)
    requires blk > 0
    ensures BlocksIn(blk, Bytes(blk, k) + n) == k + BlocksIn(blk, n)
  {
    if k > 0 {
      BlocksBeyond(blk, k - 1, n);
    }
  }

  lemma BlocksInBytes(blk: nat, k: nat)
    requires blk > 0
    ensures BlocksIn(blk, Bytes(blk, k)) == k
  {
    BlocksBeyond(blk, k, 0);
  }

  lemma {:induction false} WholePart(blk: nat, n: nat, k: nat)
    requires blk > 0 && k <= BlocksIn(blk, n)
    ensures Bytes(blk, k) <= n
  {
    if k > 0 {
      WholePart(blk, n - blk, k - 1);
    }
  }

  lemma OneBlock(blk: nat, k: nat)
    requires blk > 0
    ensures Bytes(blk, k) == blk <==> k == 1
  {
    if k > 1 {
      BytesAdd(blk, 2, k - 2);
    }
  }
}
