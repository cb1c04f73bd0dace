/** The free-block bitmap packed in words (fs/fs.c:112-127): block b is bit b % 32 of word b / 32,
    and a set bit is a free block. A word is an unsigned number. */
module Bitmap {

  /** Bit i of w. */
  predicate Bit(w: nat, i: nat) {
    if i == 0 then w % 2 == 1 else Bit(w / 2, i - 1)
  }

  /** `w | 1 << i` for v, `w & ~(1 << i)` for !v. */
  function Put(w: nat, i: nat, v: bool): nat {
    if i == 0 then w / 2 * 2 + (if v then 1 else 0) else Put(w / 2, i - 1, v) * 2 + w % 2
  }

  lemma {:induction false} PutBit(w: nat, i: nat, v: bool, j: nat)
    ensures Bit(Put(w, i, v), j) == if i == j then v else Bit(w, j)
  {
    if i > 0 && j > 0 { PutBit(w / 2, i - 1, v, j - 1); }
  }

  /** The first `n` bits of the words. */
  function Bits(m: seq<nat>, n: nat): seq<bool>
    requires n <= 32 * |m|
  {
    seq(n, b requires 0 <= b < n => Bit(m[b / 32], b % 32))
  }

  function PutBlock(m: seq<nat>, b: nat, v: bool): seq<nat>
    requires b < 32 * |m|
  {
    m[b / 32 := Put(m[b / 32], b % 32, v)]
  }

  /** Writing the bit of one block leaves the bit of every other block, in its own word and in the
      other words. */
  lemma PutBlockSpec(m: seq<nat>, n: nat, b: nat, v: bool)
    requires b < n <= 32 * |m|
    ensures Bits(PutBlock(m, b, v), n) == Bits(m, n)[b := v]
  {
    forall j: nat | j < n ensures Bits(PutBlock(m, b, v), n)[j] == Bits(m, n)[b := v][j] {
      PutBit(m[b / 32], b % 32, v, j % 32);
      SameBit(b, j);
    }
  }

  lemma SameBit(b: nat, j: nat)
    ensures b == j <==> b / 32 == j / 32 && b % 32 == j % 32
  {
  }

  /** The word with its lowest `k` bits set. */
  function Ones(k: nat): nat { if k == 0 then 0 else 2 * Ones(k - 1) + 1 }

  lemma {:induction false} OnesBit(k: nat, i: nat)
    ensures Bit(Ones(k), i) <==> i < k
  {
    if k > 0 {
      if i > 0 { OnesBit(k - 1, i - 1); }
    } else if i > 0 {
      OnesBit(0, i - 1);
    }
  }

  /** Words of 0xffffffff make every block free. */
  lemma AllFree(m: seq<nat>, n: nat)
    requires n <= 32 * |m| && forall k | 0 <= k < |m| && 32 * k < n :: m[k] == Ones(32)
    ensures forall b | 0 <= b < n :: Bits(m, n)[b]
  {
    forall b: nat | b < n ensures Bits(m, n)[b] {
      assert m[b / 32] == Ones(32);
      OnesBit(32, b % 32);
    }
  }

  lemma OnesWord()
    ensures Ones(32) == 0xffff_ffff
  {
    assert Ones(4) == 0xf && Ones(8) == 0xff && Ones(12) == 0xfff && Ones(16) == 0xffff;
    assert Ones(20) == 0xf_ffff && Ones(24) == 0xff_ffff && Ones(28) == 0xfff_ffff;
  }
}
