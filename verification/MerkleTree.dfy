/** The streaming Merkle tree: base-block hashes go onto a stack of power-of-two subtrees that
    is merged like a binary counter, and a subtree as large as the block size becomes a leaf. */
module MerkleTree {
  import opened TreeHash

  const INDEX_RANGE := 0x1_0000_0000

  /** The cast of a leaf index to uint32_t. */
  function Cast32(i: nat): (r: nat)
    ensures r < INDEX_RANGE && (i < INDEX_RANGE ==> r == i) && exists turns: nat :: i == r + turns * INDEX_RANGE
  {
    assert i == i % INDEX_RANGE + (i / INDEX_RANGE) * INDEX_RANGE;
    if i < INDEX_RANGE then i else i % INDEX_RANGE
  }

  datatype MerkleBlock = MerkleBlock(hash: Digest, size: nat)

  // ----- the root of a list of leaves, read by position -----

  /** The m leaves from i on, each read by its index cast to 32 bits. */
  function Read(leaves: seq<Digest>, i: nat, m: nat): (r: seq<Digest>)
    requires i + m <= |leaves|
    ensures |r| == m
  {
    seq(m, j requires 0 <= j < m => leaves[Cast32(i + j)])
  }

  lemma ReadCut(leaves: seq<Digest>, i: nat, m: nat, k: nat)
    requires i + m <= |leaves| && k <= m
    ensures Read(leaves, i, m)[..k] == Read(leaves, i, k)
    ensures Read(leaves, i, m)[k..] == Read(leaves, i + k, m - k)
  {
  }

  /** As long as no index is cut, the leaves are read as they are. */
  lemma ReadIsSlice(leaves: seq<Digest>, i: nat, m: nat)
    requires i + m <= |leaves| <= INDEX_RANGE
    ensures Read(leaves, i, m) == leaves[i..i + m]
  {
    forall j | 0 <= j < m ensures Read(leaves, i, m)[j] == leaves[i + j] {
      assert Cast32(i + j) == i + j;
    }
  }

  /** The tree over a range of leaves from the trees over its two halves. */
  lemma ReadHalves(tiger: Hasher, leaves: seq<Digest>, i: nat, m: nat)
    requires i + m <= |leaves| && m > 1
    ensures Split(m) <= m && TreeOf(tiger, Read(leaves, i, m)) ==
            Combine(tiger, TreeOf(tiger, Read(leaves, i, Split(m))),
                TreeOf(tiger, Read(leaves, i + Split(m), m - Split(m))))
  {
    ReadCut(leaves, i, m, Split(m));
    TreeStep(tiger, Read(leaves, i, m), Split(m), Read(leaves, i, Split(m)), Read(leaves, i + Split(m), m - Split(m)));
  }

  lemma ReadOne(tiger: Hasher, leaves: seq<Digest>, i: nat)
    requires i < |leaves|
    ensures TreeOf(tiger, Read(leaves, i, 1)) == leaves[Cast32(i)]
  {
  }

  lemma OneBlock(length: nat, size: nat)
    requires size > 0 && length <= size
    ensures Blocks(length, size) == 1
  {
    if length > 0 {
      BlocksUnique(length, size, 1);
    }
  }

  /** Past 2^32 leaves the cast wraps: the leaf after the last index reads as the first one. */
  lemma LargeTreeReadsFirstLeaf(leaves: seq<Digest>)
    requires |leaves| > INDEX_RANGE
    ensures Read(leaves, INDEX_RANGE, 1) == [leaves[0]]
  {
    assert Read(leaves, INDEX_RANGE, 1)[0] == leaves[0];
  }

  /** Trees of n leaves are read as they are, whatever the leaves, if and only if n is at most 2^32. */
  lemma ReadExact(n: nat)
    ensures n <= INDEX_RANGE <==> forall leaves: seq<Digest> | |leaves| == n :: Read(leaves, 0, n) == leaves
  {
    if n <= INDEX_RANGE {
      forall leaves: seq<Digest> | |leaves| == n ensures Read(leaves, 0, n) == leaves {
        ReadIsSlice(leaves, 0, n);
      }
    } else {
      var zeros, ones: Digest := seq(24, _ => 0), seq(24, _ => 1);
      var leaves := seq(n, i => if i == 0 then zeros else ones);
      assert zeros[0] != ones[0] && leaves[INDEX_RANGE] == ones;
      LargeTreeReadsFirstLeaf(leaves);
      ReadCut(leaves, 0, n, INDEX_RANGE);
      ReadCut(leaves, INDEX_RANGE, n - INDEX_RANGE, 1);
      assert Read(leaves, 0, n)[INDEX_RANGE..][..1] == [zeros];
    }
  }

  // ----- the byte arithmetic of getHash -----

  /** The doubling loop of getHash, started at the block size, stops at a power of two of
      blocks: where the tree over the blocks is split. */
  lemma GrowIsSplit(size: nat, length: nat)
    requires 0 < size < length
    ensures Blocks(length, size) >= 2 && Grow(size, length) == size * Split(Blocks(length, size))
  {
    assert size * 1 == size;
    var p := GrowFactor(size, 1, length);
    BlocksBetween(size, length, p);
    SplitUnique(Blocks(length, size), p);
  }

  lemma BlocksBetween(size: nat, length: nat, p: nat)
    requires 0 < size && 0 < p && size * p < length <= 2 * (size * p)
    ensures p < Blocks(length, size) <= 2 * p
  {
    var m := Blocks(length, size);
    BlocksBounds(length, size);
    assert size * (2 * p) == 2 * (size * p);
    if m <= p {
      MulLe(size, m, p);
    } else if 2 * p + 1 <= m {
      MulLe(size, 2 * p, m - 1);
    }
  }

  lemma {:induction false} GrowFactor(size: nat, k: nat, length: nat) returns (p: nat)
    requires 0 < k && 0 < size * k < length
    ensures Doubles(k, p) && Grow(size * k, length) == size * p
    decreases length - size * k
  {
    assert size * (2 * k) == size * k * 2;
    if size * k * 2 < length {
      p := GrowFactor(size, 2 * k, length);
    } else {
      p := k;
    }
  }

  /** Cutting a byte range of m blocks after k blocks leaves k and m - k blocks. */
  lemma CutBlocks(size: nat, length: nat, k: nat)
    requires 0 < size && 1 <= k && size * k < length
    ensures 1 <= k < Blocks(length, size)
    ensures Blocks(size * k, size) == k && Blocks(length - size * k, size) == Blocks(length, size) - k
  {
    var m := Blocks(length, size);
    BlocksBounds(length, size);
    assert k < m by { if m <= k { MulLe(size, m, k); } }
    assert size * k == size * (k - 1) + size;
    BlocksUnique(size * k, size, k);
    assert size * (m - k) == size * m - size * k;
    assert size * (m - k - 1) == size * (m - 1) - size * k;
    BlocksUnique(length - size * k, size, m - k);
  }

  lemma DivExact(size: nat, q: nat, n: nat)
    requires size > 0 && n == size * q
    ensures n % size == 0 && n / size == q
  {
    var r := n / size;
    assert r <= q by { if q + 1 <= r { MulLe(size, q + 1, r); } }
    assert q <= r by { if r + 1 <= q { MulLe(size, r + 1, q); } }
  }

  /** The two parts of a range that begins at leaf i: block aligned, and split where the tree over its blocks is. */
  lemma Halves(size: nat, i: nat, length: nat)
    requires 0 < size < length
    ensures var m, l := Blocks(length, size), Grow(size, length);
            && m >= 2 && 0 < l < length && Blocks(l, size) == Split(m) && Blocks(length - l, size) == m - Split(m)
            && size * i + l == size * (i + Split(m))
  {
    var k := Split(Blocks(length, size));
    GrowIsSplit(size, length);
    CutBlocks(size, length, k);
    Spread(size, i, k);
  }

  lemma Spread(size: nat, i: nat, k: nat)
    ensures size * i + size * k == size * (i + k)
  {
  }

  // ----- the stack of subtrees -----

  /** The blocks hold consecutive runs of hs, each a power of two and (strictly) more than half
      of what is left at its position. */
  ghost predicate Stacked(tiger: Hasher, blocks: seq<MerkleBlock>, hs: seq<Digest>, strict: bool)
    decreases |blocks|
  {
    if blocks == [] then hs == []
    else
      var s := blocks[0].size / BASE_BLOCK_SIZE;
      && blocks[0].size == BASE_BLOCK_SIZE * s && PowerOfTwo(s)
      && s <= |hs| <= 2 * s && (strict ==> |hs| < 2 * s)
      && blocks[0].hash == TreeOf(tiger, hs[..s])
      && Stacked(tiger, blocks[1..], hs[s..], strict)
  }

  lemma {:induction false} StackSizes(tiger: Hasher, blocks: seq<MerkleBlock>, hs: seq<Digest>, strict: bool)
    requires Stacked(tiger, blocks, hs, strict)
    ensures forall i :: 0 <= i < |blocks| ==> blocks[i].size <= BASE_BLOCK_SIZE * |hs|
    decreases |blocks|
  {
    if blocks != [] {
      StackSizes(tiger, blocks[1..], hs[blocks[0].size / BASE_BLOCK_SIZE..], strict);
    }
  }

  lemma {:induction false} StackPush(tiger: Hasher, blocks: seq<MerkleBlock>, hs: seq<Digest>, h: Digest)
    requires Stacked(tiger, blocks, hs, true)
    ensures Stacked(tiger, blocks + [MerkleBlock(h, BASE_BLOCK_SIZE)], hs + [h], false)
    decreases |blocks|
  {
    if blocks != [] {
      var s := blocks[0].size / BASE_BLOCK_SIZE;
      StackPush(tiger, blocks[1..], hs[s..], h);
      assert (hs + [h])[s..] == hs[s..] + [h] && (hs + [h])[..s] == hs[..s];
      assert (blocks + [MerkleBlock(h, BASE_BLOCK_SIZE)])[1..] == blocks[1..] + [MerkleBlock(h, BASE_BLOCK_SIZE)];
    }
  }

  /** Two equal subtrees on top: together with everything below they cover hs. */
  lemma {:induction false} StackTopTwo(tiger: Hasher, pre: seq<MerkleBlock>, a: MerkleBlock, b: MerkleBlock,
                                       hs: seq<Digest>)
    requires Stacked(tiger, pre + [a, b], hs, false) && a.size == b.size
    ensures a.size > 0 && |hs| * BASE_BLOCK_SIZE >= |pre| + a.size + b.size
    ensures Stacked(tiger, pre + [MerkleBlock(Combine(tiger, a.hash, b.hash), a.size * 2)], hs, false)
    ensures pre == [] ==> TreeOf(tiger, hs) == Combine(tiger, a.hash, b.hash) && |hs| * BASE_BLOCK_SIZE == a.size * 2
    decreases |pre|
  {
    var both := MerkleBlock(Combine(tiger, a.hash, b.hash), a.size * 2);
    var blocks := pre + [a, b];
    var s := blocks[0].size / BASE_BLOCK_SIZE;
    if pre == [] {
      var rest := hs[s..];
      assert blocks[1..] == [b];
      assert Stacked(tiger, [b], rest, false);
      assert [b][1..] == [] && rest[s..] == [] && rest == rest[..s];
      SplitUnique(2 * s, s);
      PowerDoubled(s);
      assert hs == hs[..2 * s];
      assert both.size / BASE_BLOCK_SIZE == 2 * s;
      assert [both][1..] == [] && hs[2 * s..] == [];
    } else {
      assert blocks[1..] == pre[1..] + [a, b];
      StackTopTwo(tiger, pre[1..], a, b, hs[s..]);
      assert (pre + [both])[1..] == pre[1..] + [both];
    }
  }

  /** A settled stack over a power of two of hashes is a single block. */
  lemma BottomIsLargest(tiger: Hasher, blocks: seq<MerkleBlock>, hs: seq<Digest>)
    requires Stacked(tiger, blocks, hs, true) && PowerOfTwo(|hs|)
    ensures blocks != [] && blocks[0].size == BASE_BLOCK_SIZE * |hs|
  {
    var s := blocks[0].size / BASE_BLOCK_SIZE;
    if s < |hs| { PowersApart(s, |hs|); }
  }

  /** Once the two topmost sizes differ, no two sizes are equal: every block is strictly more
      than half of what it starts. */
  lemma {:induction false} StackSettled(tiger: Hasher, blocks: seq<MerkleBlock>, hs: seq<Digest>)
    requires Stacked(tiger, blocks, hs, false)
    requires |blocks| > 1 ==> blocks[|blocks| - 2].size != blocks[|blocks| - 1].size
    ensures Stacked(tiger, blocks, hs, true)
    decreases |blocks|
  {
    if |blocks| > 1 {
      var s := blocks[0].size / BASE_BLOCK_SIZE;
      var t := blocks[1].size / BASE_BLOCK_SIZE;
      StackSettled(tiger, blocks[1..], hs[s..]);
      if t < s { PowersApart(t, s); }
      if |blocks| > 2 {
        assert blocks[1..][1..] == blocks[2..];
        assert hs[s..][t..] != [];
      }
    } else if |blocks| == 1 {
      assert blocks[1..] == [];
    }
  }

  /** What finalize makes of the stack: combine from the top down. */
  function FoldBlocks(tiger: Hasher, blocks: seq<MerkleBlock>): Digest
    requires |blocks| >= 1
  {
    if |blocks| == 1 then blocks[0].hash
    else Combine(tiger, blocks[0].hash, FoldBlocks(tiger, blocks[1..]))
  }

  lemma {:induction false} FoldTop(tiger: Hasher, pre: seq<MerkleBlock>, a: MerkleBlock, b: MerkleBlock)
    ensures FoldBlocks(tiger, pre + [a, b]) == FoldBlocks(tiger, pre + [a.(hash := Combine(tiger, a.hash, b.hash))])
  {
    var c := a.(hash := Combine(tiger, a.hash, b.hash));
    if pre == [] {
      assert ([a, b])[1..] == [b];
    } else {
      assert (pre + [a, b])[1..] == pre[1..] + [a, b] && (pre + [c])[1..] == pre[1..] + [c];
      FoldTop(tiger, pre[1..], a, b);
    }
  }

  lemma {:induction false} FoldIsTree(tiger: Hasher, blocks: seq<MerkleBlock>, hs: seq<Digest>)
    requires Stacked(tiger, blocks, hs, true) && hs != []
    ensures FoldBlocks(tiger, blocks) == TreeOf(tiger, hs)
    decreases |blocks|
  {
    var s := blocks[0].size / BASE_BLOCK_SIZE;
    if |blocks| == 1 {
      assert blocks[1..] == [] && hs[s..] == [] && hs == hs[..s];
    } else {
      assert hs[s..] != [];
      FoldIsTree(tiger, blocks[1..], hs[s..]);
      SplitUnique(|hs|, s);
    }
  }

  // ----- base hashes sorted into finished leaves and a remainder -----

  /** How many base blocks make a leaf; 0 when the block size is never hit by a merge. */
  function Unit(size: nat): (u: nat)
    ensures u > 0 ==> PowerOfTwo(u) && (size > BASE_BLOCK_SIZE ==> size == BASE_BLOCK_SIZE * u)
  {
    if size <= BASE_BLOCK_SIZE then 1
    else if size % BASE_BLOCK_SIZE == 0 && PowerOfTwo(size / BASE_BLOCK_SIZE) then size / BASE_BLOCK_SIZE
    else 0
  }

  function FullBlocks(tiger: Hasher, hs: seq<Digest>, u: nat): seq<Digest>
    decreases |hs|
  {
    if u == 0 || |hs| < u then []
    else [TreeOf(tiger, hs[..u])] + FullBlocks(tiger, hs[u..], u)
  }

  function Remainder(hs: seq<Digest>, u: nat): (r: seq<Digest>)
    ensures u > 0 ==> |r| < u
    decreases |hs|
  {
    if u == 0 || |hs| < u then hs else Remainder(hs[u..], u)
  }

  lemma {:induction false} OneMore(tiger: Hasher, hs: seq<Digest>, h: Digest, u: nat)
    ensures var r := Remainder(hs, u) + [h];
            if |r| == u
            then FullBlocks(tiger, hs + [h], u) == FullBlocks(tiger, hs, u) + [TreeOf(tiger, r)]
                && Remainder(hs + [h], u) == []
            else FullBlocks(tiger, hs + [h], u) == FullBlocks(tiger, hs, u) && Remainder(hs + [h], u) == r
    decreases |hs|
  {
    if u == 0 || |hs| + 1 < u {
    } else if |hs| < u {
      assert (hs + [h])[..u] == hs + [h] && (hs + [h])[u..] == [];
    } else {
      assert (hs + [h])[..u] == hs[..u] && (hs + [h])[u..] == hs[u..] + [h];
      OneMore(tiger, hs[u..], h, u);
    }
  }

  /** The leaves finalize leaves behind. */
  function FinalLeaves(tiger: Hasher, base: seq<Digest>, u: nat): seq<Digest> {
    var r := Remainder(base, u);
    FullBlocks(tiger, base, u) + if r == [] then [] else [TreeOf(tiger, r)]
  }

  lemma {:induction false} FinalLeavesAreBlocks(tiger: Hasher, base: seq<Digest>, u: nat)
    requires base != [] && u > 0
    ensures FinalLeaves(tiger, base, u) == BlockHashes(tiger, base, u)
    decreases |base|
  {
    if |base| == u {
      assert base[..u] == base && base[u..] == [];
      assert FullBlocks(tiger, [], u) == [] && Remainder([], u) == [];
    } else if |base| > u {
      FinalLeavesAreBlocks(tiger, base[u..], u);
      assert FinalLeaves(tiger, base, u) == [TreeOf(tiger, base[..u])] + FinalLeaves(tiger, base[u..], u);
    }
  }

  /** The first base block of what is left, as the loop in update takes it. */
  lemma FirstBase(tiger: Hasher, data: seq<byte>, i: nat, n: nat, base: seq<Digest>, left: seq<Digest>)
    requires i <= |data| && n == if BASE_BLOCK_SIZE < |data| - i then BASE_BLOCK_SIZE else |data| - i
    requires left == BaseHashes(tiger, data[i..])
    ensures left != [] && base + left == base + [LeafHash(tiger, data[i..i + n])] + left[1..]
    ensures left[1..] == if i + n == |data| then [] else BaseHashes(tiger, data[i + n..])
  {
    var rest := data[i..];
    assert data[i..i + n] == rest[..n] && data[i + n..] == rest[n..];
    if i + n == |data| {
      assert rest[..n] == rest;
    }
  }

  lemma {:induction false} StackPower(tiger: Hasher, blocks: seq<MerkleBlock>, hs: seq<Digest>, i: nat)
    requires Stacked(tiger, blocks, hs, false) && i < |blocks|
    ensures var s := blocks[i].size / BASE_BLOCK_SIZE; blocks[i].size == BASE_BLOCK_SIZE * s && PowerOfTwo(s)
    decreases i
  {
    if i > 0 {
      StackPower(tiger, blocks[1..], hs[blocks[0].size / BASE_BLOCK_SIZE..], i - 1);
    }
  }

  /** Merging two equal blocks on top either stays below the leaf size or completes a leaf that
      covers the whole stack. */
  lemma MergeStep(tiger: Hasher, pre: seq<MerkleBlock>, a: MerkleBlock, b: MerkleBlock, hs: seq<Digest>, size: nat)
    requires Stacked(tiger, pre + [a, b], hs, false) && a.size == b.size
    requires Unit(size) > 0 ==> size > BASE_BLOCK_SIZE && |hs| <= Unit(size)
    ensures Stacked(tiger, pre + [MerkleBlock(Combine(tiger, a.hash, b.hash), a.size * 2)], hs, false)
    ensures a.size * 2 == size ==>
              pre == [] && |hs| == Unit(size) && TreeOf(tiger, hs) == Combine(tiger, a.hash, b.hash)
    ensures a.size * 2 != size && Unit(size) > 0 ==> a.size * 2 < size
  {
    StackTopTwo(tiger, pre, a, b, hs);
    StackPower(tiger, pre + [a, b], hs, |pre|);
    MergeFits(a.size, a.size / BASE_BLOCK_SIZE, |pre|, |hs|, size);
  }

  lemma MergeFits(merged: nat, s: nat, below: nat, n: nat, size: nat)
    requires PowerOfTwo(s) && merged == BASE_BLOCK_SIZE * s && merged > 0
    requires n * BASE_BLOCK_SIZE >= below + merged + merged
    requires Unit(size) > 0 ==> size > BASE_BLOCK_SIZE && n <= Unit(size)
    ensures merged * 2 == size ==> below == 0 && n == Unit(size)
    ensures merged * 2 != size && Unit(size) > 0 ==> merged * 2 < size
  {
    PowerDoubled(s);
    if merged * 2 == size {
      assert size / BASE_BLOCK_SIZE == 2 * s && size % BASE_BLOCK_SIZE == 0;
    }
  }

  // ----- the class -----

  class MerkleTree {
    const tiger: Hasher
    var blocks: seq<MerkleBlock>
    var leaves: seq<Digest>
    var root: Digest
    var fileSize: nat
    var blockSize: nat
    /** Leaves put in from outside before the first update. */
    ghost var prefix: seq<Digest>
    /** Base-block hashes of everything updated since. */
    ghost var base: seq<Digest>

    ghost predicate Valid()
      reads this
    {
      var u := Unit(blockSize);
      && blockSize > 0
      && leaves == prefix + FullBlocks(tiger, base, u)
      && Stacked(tiger, blocks, Remainder(base, u), true)
    }

    constructor (tiger: Hasher, blockSize: nat, prefix: seq<Digest>, fileSize: nat)
      requires blockSize > 0
      ensures Valid() && this.prefix == prefix && base == [] && this.tiger == tiger
      ensures this.blockSize == blockSize && this.fileSize == fileSize && leaves == prefix
    {
      this.tiger, this.blockSize, this.fileSize := tiger, blockSize, fileSize;
      blocks, leaves, root := [], prefix, seq(BYTES, _ => 0);
      this.prefix, base := prefix, [];
    }

    /** Nothing was put in yet. */
    lemma EmptyMeansNoBase()
      requires Valid()
      ensures leaves == [] && blocks == [] <==> prefix == [] && base == []
    {
      var u := Unit(blockSize);
      if base != [] && (u == 0 || |base| < u) {
        assert Remainder(base, u) != [];
      }
    }

    method Update(data: seq<byte>)
      requires Valid()
      modifies this
      ensures Valid() && prefix == old(prefix) && blockSize == old(blockSize)
      ensures base == Absorb(tiger, old(prefix), old(base), data)
      ensures fileSize == old(fileSize) + |data| && old(leaves) <= leaves
    {
      EmptyMeansNoBase();
      if |data| == 0 && !(leaves == [] && blocks == []) {
        return;
      }
      AddPieces(data);
      fileSize := fileSize + |data|;
    }

    /** The loop of update: at least one piece, even an empty one. */
    method AddPieces(data: seq<byte>)
      requires Valid()
      modifies this
      ensures Valid() && base == old(base) + BaseHashes(tiger, data) && old(leaves) <= leaves
      ensures prefix == old(prefix) && blockSize == old(blockSize) && fileSize == old(fileSize)
    {
      var i := 0;
      assert data[0..] == data;
      ghost var left := BaseHashes(tiger, data);
      ghost var all := base + left;
      while true
        invariant Valid() && prefix == old(prefix) && blockSize == old(blockSize) && fileSize == old(fileSize)
        invariant 0 <= i <= |data| && old(leaves) <= leaves
        invariant base + left == all
        invariant left == BaseHashes(tiger, data[i..])
        decreases |data| - i
      {
        i, left := AddPiece(data, i, left);
        assert left == [] ==> base + left == base;
        if i >= |data| {
          return;
        }
      }
    }

    method AddPiece(data: seq<byte>, i: nat, ghost left: seq<Digest>) returns (i': nat, ghost left': seq<Digest>)
      requires Valid() && i <= |data| && left == BaseHashes(tiger, data[i..])
      modifies this
      ensures Valid() && base + left' == old(base) + left && old(leaves) <= leaves
      ensures prefix == old(prefix) && blockSize == old(blockSize) && fileSize == old(fileSize)
      ensures i <= i' <= |data| && (i' < |data| ==> i < i')
      ensures left' == if i' == |data| then [] else BaseHashes(tiger, data[i'..])
    {
      var n := if BASE_BLOCK_SIZE < |data| - i then BASE_BLOCK_SIZE else |data| - i;
      FirstBase(tiger, data, i, n, base, left);
      AddBase(LeafHash(tiger, data[i..i + n]));
      return i + n, left[1..];
    }

    method AddBase(h: Digest)
      requires Valid()
      modifies this
      ensures Valid() && base == old(base) + [h] && old(leaves) <= leaves
      ensures prefix == old(prefix) && blockSize == old(blockSize) && fileSize == old(fileSize)
    {
      ghost var u := Unit(blockSize);
      ghost var rest := Remainder(base, u);
      OneMore(tiger, base, h, u);
      if BASE_BLOCK_SIZE < blockSize {
        AddBlock(rest, h);
      } else {
        leaves := leaves + [h];
        assert rest == [] && Stacked(tiger, [], [], true);
      }
      base := base + [h];
    }

    method AddBlock(ghost rest: seq<Digest>, h: Digest)
      requires BASE_BLOCK_SIZE < blockSize && Stacked(tiger, blocks, rest, true)
      requires Unit(blockSize) > 0 ==> |rest| < Unit(blockSize)
      modifies this`blocks, this`leaves
      ensures Stacked(tiger, blocks, if |rest| + 1 == Unit(blockSize) then [] else rest + [h], true)
      ensures leaves == old(leaves) + if |rest| + 1 == Unit(blockSize) then [TreeOf(tiger, rest + [h])] else []
    {
      StackPush(tiger, blocks, rest, h);
      StackSizes(tiger, blocks, rest, true);
      blocks := blocks + [MerkleBlock(h, BASE_BLOCK_SIZE)];
      ReduceBlocks(rest + [h]);
    }

    method ReduceBlocks(ghost hs: seq<Digest>)
      requires BASE_BLOCK_SIZE < blockSize && hs != []
      requires Stacked(tiger, blocks, hs, false)
      requires Unit(blockSize) > 0 ==>
                 |hs| <= Unit(blockSize) && forall i :: 0 <= i < |blocks| ==> blocks[i].size < blockSize
      modifies this`blocks, this`leaves
      ensures Stacked(tiger, blocks, if |hs| == Unit(blockSize) then [] else hs, true)
      ensures leaves == old(leaves) + if |hs| == Unit(blockSize) then [TreeOf(tiger, hs)] else []
    {
      ghost var u := Unit(blockSize);
      while |blocks| > 1
        invariant Stacked(tiger, blocks, hs, false) && leaves == old(leaves)
        invariant u > 0 ==> forall i :: 0 <= i < |blocks| ==> blocks[i].size < blockSize
        decreases |blocks|
      {
        var n := |blocks|;
        if blocks[n - 2].size != blocks[n - 1].size {
          break;
        }
        var full := MergeTop(hs);
        if full {
          return;
        }
      }
      StackSettled(tiger, blocks, hs);
      if |hs| == u {
        BottomIsLargest(tiger, blocks, hs);
      }
    }

    /** Merges the two blocks on top; a whole leaf leaves the stack. */
    method MergeTop(ghost hs: seq<Digest>) returns (full: bool)
      requires BASE_BLOCK_SIZE < blockSize && hs != [] && Stacked(tiger, blocks, hs, false)
      requires |blocks| > 1 && blocks[|blocks| - 2].size == blocks[|blocks| - 1].size
      requires Unit(blockSize) > 0 ==>
                 |hs| <= Unit(blockSize) && forall i :: 0 <= i < |blocks| ==> blocks[i].size < blockSize
      modifies this`blocks, this`leaves
      ensures full ==> |hs| == Unit(blockSize) && Stacked(tiger, blocks, [], true)
      ensures full ==> leaves == old(leaves) + [TreeOf(tiger, hs)]
      ensures !full ==> && Stacked(tiger, blocks, hs, false) && leaves == old(leaves) && |blocks| == old(|blocks|) - 1
                        && (Unit(blockSize) > 0 ==> forall i :: 0 <= i < |blocks| ==> blocks[i].size < blockSize)
    {
      var n := |blocks|;
      var a, b := blocks[n - 2], blocks[n - 1];
      assert blocks == blocks[..n - 2] + [a, b];
      MergeStep(tiger, blocks[..n - 2], a, b, hs, blockSize);
      full := a.size * 2 == blockSize;
      if full {
        leaves := leaves + [Combine(tiger, a.hash, b.hash)];
        blocks := blocks[..n - 2];
      } else {
        blocks := blocks[..n - 2] + [MerkleBlock(Combine(tiger, a.hash, b.hash), a.size * 2)];
      }
    }

    method Finalize()
      requires Valid()
      requires Blocks(fileSize, blockSize) <= |prefix + FinalLeaves(tiger, Closed(tiger, prefix, base),
               Unit(blockSize))|
      modifies this
      ensures leaves == prefix + FinalLeaves(tiger, base, Unit(blockSize)) && old(leaves) <= leaves
      ensures base == Closed(tiger, old(prefix), old(base))
      ensures prefix == old(prefix) && blockSize == old(blockSize) && fileSize == old(fileSize)
      ensures root == TreeOf(tiger, Read(leaves, 0, Blocks(fileSize, blockSize)))
    {
      EnsureLeaf();
      LastLeaf();
      CalcRoot();
    }

    /** What is on the stack becomes the last leaf. */
    method LastLeaf()
      requires Valid()
      modifies this`blocks, this`leaves
      ensures leaves == prefix + FinalLeaves(tiger, base, Unit(blockSize)) && old(leaves) <= leaves
    {
      if blocks != [] {
        FoldIsTree(tiger, blocks, Remainder(base, Unit(blockSize)));
      }
      CombineBlocks();
      if blocks != [] {
        leaves := leaves + [blocks[0].hash];
      }
    }

    /** The first lines of finalize: no updates yet, so hash one empty block. */
    method EnsureLeaf()
      requires Valid()
      modifies this
      ensures Valid() && base == Closed(tiger, old(prefix), old(base)) && old(leaves) <= leaves
      ensures prefix == old(prefix) && blockSize == old(blockSize) && fileSize == old(fileSize)
    {
      EmptyMeansNoBase();
      if leaves == [] && blocks == [] {
        Update([]);
      }
    }

    /** The loop of finalize. */
    method CombineBlocks()
      modifies this`blocks
      ensures |blocks| == if old(blocks) == [] then 0 else 1
      ensures blocks != [] ==> blocks[0].hash == FoldBlocks(tiger, old(blocks))
    {
      while |blocks| > 1
        invariant blocks == [] <==> old(blocks) == []
        invariant blocks != [] ==> FoldBlocks(tiger, blocks) == FoldBlocks(tiger, old(blocks))
      {
        var n := |blocks|;
        var a, b := blocks[n - 2], blocks[n - 1];
        assert blocks == blocks[..n - 2] + [a, b];
        FoldTop(tiger, blocks[..n - 2], a, b);
        blocks := blocks[..n - 2] + [a.(hash := Combine(tiger, a.hash, b.hash))];
      }
    }

    method CalcRoot()
      requires blockSize > 0 && Blocks(fileSize, blockSize) <= |leaves|
      modifies this`root
      ensures root == TreeOf(tiger, Read(leaves, 0, Blocks(fileSize, blockSize)))
    {
      root := GetHash(0, fileSize, 0);
    }

    /** The range begins at leaf i. */
    method GetHash(start: nat, length: nat, ghost i: nat) returns (h: Digest)
      requires blockSize > 0 && start == blockSize * i && i + Blocks(length, blockSize) <= |leaves|
      ensures h == TreeOf(tiger, Read(leaves, i, Blocks(length, blockSize)))
      decreases length, 1
    {
      if length <= blockSize {
        OneBlock(length, blockSize);
        ReadOne(tiger, leaves, i);
        DivExact(blockSize, i, start);
        h := leaves[Cast32(start / blockSize)];
      } else {
        h := GetBoth(start, length, i);
      }
    }

    method GetBoth(start: nat, length: nat, ghost i: nat) returns (h: Digest)
      requires 0 < blockSize < length && start == blockSize * i && i + Blocks(length, blockSize) <= |leaves|
      ensures h == TreeOf(tiger, Read(leaves, i, Blocks(length, blockSize)))
      decreases length, 0
    {
      var l := SplitPoint(length);
      ghost var m := Blocks(length, blockSize);
      Halves(blockSize, i, length);
      var a := GetHash(start, l, i);
      var b := GetHash(start + l, length - l, i + Split(m));
      h := Combine(tiger, a, b);
      ReadHalves(tiger, leaves, i, m);
    }

    /** Doubles the block size up to the largest multiple below the length. */
    method SplitPoint(length: nat) returns (l: nat)
      requires 0 < blockSize < length
      ensures l == Grow(blockSize, length)
    {
      l := blockSize;
      while l * 2 < length
        invariant 0 < l < length && Grow(l, length) == Grow(blockSize, length)
        decreases length - l
      {
        l := l * 2;
      }
    }
  }

  /** The base hashes after one more update. Empty data only counts when nothing came before. */
  function Absorb(tiger: Hasher, prefix: seq<Digest>, base: seq<Digest>, data: seq<byte>): seq<Digest> {
    if data == [] && !(prefix == [] && base == []) then base else base + BaseHashes(tiger, data)
  }

  /** The base hashes finalize works on: a tree that got nothing gets one empty block. */
  function Closed(tiger: Hasher, prefix: seq<Digest>, base: seq<Digest>): seq<Digest> {
    Absorb(tiger, prefix, base, [])
  }
}
