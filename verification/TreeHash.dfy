/** The tree hash of THEX (draft-jchapweske-thex-02, section 2): 1024-byte base blocks are
    hashed with a 0x00 prefix, and two subtrees are joined with a 0x01 prefix, the left one
    holding the largest power of two of base blocks that leaves something for the right.
    Tiger itself is a parameter, so everything here holds of any digest function. */
module TreeHash {
  type byte = bv8
  const BYTES := 24
  const BASE_BLOCK_SIZE := 1024
  type Digest = d: seq<byte> | |d| == BYTES witness seq(BYTES, _ => 0)
  type Hasher = seq<byte> -> Digest

  function LeafHash(tiger: Hasher, data: seq<byte>): Digest {
    tiger([0] + data)
  }

  function Combine(tiger: Hasher, a: Digest, b: Digest): Digest {
    tiger([1] + a + b)
  }

  // ----- powers of two -----

  predicate PowerOfTwo(n: nat) {
    Doubles(1, n)
  }

  /** n is k, or is reached from it by doubling. */
  predicate Doubles(k: nat, n: nat)
    requires k > 0
    decreases n - k
  {
    k == n || (k < n && Doubles(2 * k, n))
  }

  /** The largest power of two below n, found by doubling. */
  function Split(n: nat): (k: nat)
    requires n >= 2
    ensures 1 <= k < n <= 2 * k
  {
    Grow(1, n)
  }

  function Grow(l: nat, n: nat): (r: nat)
    requires 0 < l < n
    ensures l <= r < n <= 2 * r
    decreases n - l
  {
    if l * 2 < n then Grow(l * 2, n) else l
  }

  lemma {:induction false} DoublesApart(k: nat, s: nat, t: nat)
    requires k > 0 && Doubles(k, s) && Doubles(k, t) && s < t
    ensures 2 * s <= t
    decreases s - k
  {
    if k < s {
      DoublesApart(2 * k, s, t);
    }
  }

  lemma PowersApart(s: nat, t: nat)
    requires PowerOfTwo(s) && PowerOfTwo(t) && s < t
    ensures 2 * s <= t
  {
    DoublesApart(1, s, t);
  }

  lemma {:induction false} DoublesTransitive(k: nat, m: nat, n: nat)
    requires k > 0 && m > 0 && Doubles(k, m) && Doubles(m, n)
    ensures Doubles(k, n)
    decreases m - k
  {
    if k < m {
      DoublesTransitive(2 * k, m, n);
    }
  }

  lemma {:induction false} DoublesScaled(u: nat, k: nat, n: nat)
    requires u > 0 && k > 0 && Doubles(k, n)
    ensures u * k > 0 && Doubles(u * k, u * n)
    decreases n - k
  {
    MulLe(u, 1, k);
    if k < n {
      DoublesScaled(u, 2 * k, n);
      assert u * (2 * k) == 2 * (u * k);
      MulLe(u, k + 1, n);
    }
  }

  lemma PowerTimesPower(s: nat, t: nat)
    requires PowerOfTwo(s) && PowerOfTwo(t)
    ensures PowerOfTwo(s * t)
  {
    DoublesScaled(s, 1, t);
    DoublesTransitive(1, s, s * t);
  }

  lemma PowerDoubled(s: nat)
    requires PowerOfTwo(s)
    ensures PowerOfTwo(2 * s)
  {
    assert Doubles(s, 2 * s);
    DoublesTransitive(1, s, 2 * s);
  }

  lemma {:induction false} GrowDoubles(l: nat, n: nat)
    requires 0 < l < n
    ensures Doubles(l, Grow(l, n))
    decreases n - l
  {
    if l * 2 < n {
      GrowDoubles(l * 2, n);
    }
  }

  lemma SplitUnique(n: nat, k: nat)
    requires PowerOfTwo(k) && k < n <= 2 * k
    ensures n >= 2 && Split(n) == k
  {
    GrowDoubles(1, n);
    if k < Split(n) {
      PowersApart(k, Split(n));
    } else if Split(n) < k {
      PowersApart(Split(n), k);
    }
  }

  lemma MulLe(a: nat, x: nat, y: nat)
    requires x <= y
    ensures a * x <= a * y
  {
  }

  // ----- the reference: a recursion on the bytes -----

  /** MerkleTree::calcBlocks. */
  function Blocks(n: nat, size: nat): (m: nat)
    requires size > 0
    ensures m >= 1
  {
    if n == 0 then 1 else (n + size - 1) / size
  }

  lemma BlocksBounds(n: nat, size: nat)
    requires size > 0 && n > 0
    ensures size * (Blocks(n, size) - 1) < n <= size * Blocks(n, size)
  {
  }

  lemma BlocksUnique(n: nat, size: nat, m: nat)
    requires size > 0 && m > 0 && size * (m - 1) < n <= size * m
    ensures Blocks(n, size) == m
  {
    var q := Blocks(n, size);
    BlocksBounds(n, size);
    if q < m {
      MulLe(size, q, m - 1);
    } else if m < q {
      MulLe(size, m, q - 1);
    }
  }

  /** Where a range of more than one base block is cut: after the largest power of two of base
      blocks that leaves something over. */
  function SplitBytes(n: nat): (k: nat)
    requires n > BASE_BLOCK_SIZE
    ensures 0 < k < n
  {
    BlocksBounds(n, BASE_BLOCK_SIZE);
    BASE_BLOCK_SIZE * Split(Blocks(n, BASE_BLOCK_SIZE))
  }

  function Root(tiger: Hasher, data: seq<byte>): Digest
    decreases |data|
  {
    if |data| <= BASE_BLOCK_SIZE then LeafHash(tiger, data)
    else
      var k := SplitBytes(|data|);
      Combine(tiger, Root(tiger, data[..k]), Root(tiger, data[k..]))
  }

  // ----- the same recursion on lists of hashes -----

  function TreeOf(tiger: Hasher, hs: seq<Digest>): Digest
    requires |hs| >= 1
    decreases |hs|
  {
    if |hs| == 1 then hs[0]
    else
      var k := Split(|hs|);
      Combine(tiger, TreeOf(tiger, hs[..k]), TreeOf(tiger, hs[k..]))
  }

  lemma TreeStep(tiger: Hasher, hs: seq<Digest>, k: nat, a: seq<Digest>, b: seq<Digest>)
    requires |hs| >= 2 && k == Split(|hs|) && a == hs[..k] && b == hs[k..]
    ensures TreeOf(tiger, hs) == Combine(tiger, TreeOf(tiger, a), TreeOf(tiger, b))
  {
  }

  /** The base-block hashes of some data; empty data still has one. */
  function BaseHashes(tiger: Hasher, data: seq<byte>): (hs: seq<Digest>)
    ensures |hs| == Blocks(|data|, BASE_BLOCK_SIZE)
    decreases |data|
  {
    if |data| <= BASE_BLOCK_SIZE then [LeafHash(tiger, data)]
    else
      [LeafHash(tiger, data[..BASE_BLOCK_SIZE])] + BaseHashes(tiger, data[BASE_BLOCK_SIZE..])
  }

  lemma {:induction false} BaseHashesConcat(tiger: Hasher, a: seq<byte>, b: seq<byte>)
    requires |a| > 0 && |a| % BASE_BLOCK_SIZE == 0 && |b| > 0
    ensures BaseHashes(tiger, a + b) == BaseHashes(tiger, a) + BaseHashes(tiger, b)
    decreases |a|
  {
    assert (a + b)[..BASE_BLOCK_SIZE] == a[..BASE_BLOCK_SIZE];
    if |a| == BASE_BLOCK_SIZE {
      assert a[..BASE_BLOCK_SIZE] == a;
      assert (a + b)[BASE_BLOCK_SIZE..] == b;
    } else {
      assert (a + b)[BASE_BLOCK_SIZE..] == a[BASE_BLOCK_SIZE..] + b;
      BaseHashesConcat(tiger, a[BASE_BLOCK_SIZE..], b);
    }
  }

  /** Cutting the bytes where Root does cuts their base hashes where TreeOf does. */
  lemma BaseHashesCut(tiger: Hasher, data: seq<byte>)
    requires |data| > BASE_BLOCK_SIZE
    ensures var k, hs := SplitBytes(|data|), BaseHashes(tiger, data);
            && |hs| >= 2
            && BaseHashes(tiger, data[..k]) == hs[..Split(|hs|)]
            && BaseHashes(tiger, data[k..]) == hs[Split(|hs|)..]
  {
    var n := Blocks(|data|, BASE_BLOCK_SIZE);
    BlocksBounds(|data|, BASE_BLOCK_SIZE);
    var k := SplitBytes(|data|);
    assert data == data[..k] + data[k..];
    BaseHashesConcat(tiger, data[..k], data[k..]);
    BlocksUnique(k, BASE_BLOCK_SIZE, Split(n));
  }

  lemma {:induction false} RootIsTreeOfBase(tiger: Hasher, data: seq<byte>)
    ensures Root(tiger, data) == TreeOf(tiger, BaseHashes(tiger, data))
    decreases |data|
  {
    if |data| > BASE_BLOCK_SIZE {
      var k, hs := SplitBytes(|data|), BaseHashes(tiger, data);
      BaseHashesCut(tiger, data);
      TreeStep(tiger, hs, Split(|hs|), BaseHashes(tiger, data[..k]), BaseHashes(tiger, data[k..]));
      RootIsTreeOfBase(tiger, data[..k]);
      RootIsTreeOfBase(tiger, data[k..]);
    }
  }

  // ----- grouping base hashes into blocks of u -----

  /** One hash for every u base hashes, and one for what is left at the end. */
  function BlockHashes(tiger: Hasher, hs: seq<Digest>, u: nat): (bs: seq<Digest>)
    requires u >= 1 && |hs| >= 1
    ensures |bs| >= 1
    decreases |hs|
  {
    if |hs| <= u then [TreeOf(tiger, hs)]
    else [TreeOf(tiger, hs[..u])] + BlockHashes(tiger, hs[u..], u)
  }

  lemma {:induction false} BlockHashesCount(tiger: Hasher, hs: seq<Digest>, u: nat)
    requires u >= 1 && |hs| >= 1
    ensures |BlockHashes(tiger, hs, u)| == Blocks(|hs|, u)
    decreases |hs|
  {
    if |hs| > u {
      BlockHashesCount(tiger, hs[u..], u);
      var m := Blocks(|hs| - u, u);
      BlocksBounds(|hs| - u, u);
      assert u * m == u * (m - 1) + u;
      assert u * (m + 1) == u * m + u;
      BlocksUnique(|hs|, u, m + 1);
    } else {
      BlocksUnique(|hs|, u, 1);
    }
  }

  /** w is j times u, kept out of sight of the nonlinear solver. */
  predicate Times(w: nat, u: nat, j: nat)
    requires u >= 1
    decreases j
  {
    if j == 0 then w == 0 else w >= u && Times(w - u, u, j - 1)
  }

  lemma {:induction false} TimesIsProduct(w: nat, u: nat, j: nat)
    requires u >= 1
    ensures Times(w, u, j) <==> w == u * j
    decreases j
  {
    if j > 0 {
      assert u * j == u * (j - 1) + u;
      assert 0 <= u * (j - 1);
      if w >= u {
        TimesIsProduct(w - u, u, j - 1);
      }
    }
  }

  /** The first j blocks and the rest can be hashed apart. */
  lemma {:induction false} BlockHashesSplit(tiger: Hasher, hs: seq<Digest>, u: nat, j: nat, w: nat)
    requires u >= 1 && j >= 1 && Times(w, u, j) && w < |hs|
    ensures w > 0
    ensures |BlockHashes(tiger, hs[..w], u)| == j
    ensures BlockHashes(tiger, hs, u) == BlockHashes(tiger, hs[..w], u) + BlockHashes(tiger, hs[w..], u)
    decreases j
  {
    if j == 1 {
      assert w == u;
    } else {
      var rest := hs[u..];
      BlockHashesSplit(tiger, rest, u, j - 1, w - u);
      PeelBlock(tiger, hs, u, w);
      assert rest[w - u..] == hs[w..];
    }
  }

  lemma PeelBlock(tiger: Hasher, hs: seq<Digest>, u: nat, w: nat)
    requires 1 <= u < w < |hs|
    ensures BlockHashes(tiger, hs[..w], u) == [TreeOf(tiger, hs[..u])] + BlockHashes(tiger, hs[u..][..w - u], u)
  {
    assert hs[..w][..u] == hs[..u];
    assert hs[..w][u..] == hs[u..][..w - u];
  }

  /** The tree over block hashes is the tree over base hashes: the root does not depend on
      the block size. */
  lemma {:induction false} TreeOfBlockHashes(tiger: Hasher, hs: seq<Digest>, u: nat)
    requires PowerOfTwo(u) && |hs| >= 1
    ensures TreeOf(tiger, BlockHashes(tiger, hs, u)) == TreeOf(tiger, hs)
    decreases |hs|
  {
    if |hs| > u {
      var bs := BlockHashes(tiger, hs, u);
      BlockHashesCount(tiger, hs, u);
      var k := Split(|bs|);
      var w := u * k;
      SplitOfBlocks(|hs|, u);
      TimesIsProduct(w, u, k);
      BlockHashesSplit(tiger, hs, u, k, w);
      TreeStep(tiger, bs, k, BlockHashes(tiger, hs[..w], u), BlockHashes(tiger, hs[w..], u));
      TreeOfBlockHashes(tiger, hs[..w], u);
      TreeOfBlockHashes(tiger, hs[w..], u);
    }
  }

  /** Splitting a list of blocks in two splits their base hashes where the tree does. */
  lemma SplitOfBlocks(n: nat, u: nat)
    requires PowerOfTwo(u) && n > u
    ensures Blocks(n, u) >= 2
    ensures var w := u * Split(Blocks(n, u)); 0 < w < n && w == Split(n)
  {
    var m := Blocks(n, u);
    BlocksBounds(n, u);
    assert m >= 2 by { assert u * 1 == u; }
    ScaledSplit(n, u, m, Split(m));
    GrowDoubles(1, m);
    PowerTimesPower(u, Split(m));
    SplitUnique(n, u * Split(m));
  }

  lemma ScaledSplit(n: nat, u: nat, m: nat, k: nat)
    requires u >= 1 && m >= 1 && u * (m - 1) < n <= u * m && 1 <= k < m <= 2 * k
    ensures 0 < u * k < n <= 2 * (u * k)
  {
    MulLe(u, k, m - 1);
    MulLe(u, m, 2 * k);
    MulLe(u, 1, k);
    assert u * (2 * k) == 2 * (u * k);
  }
}
