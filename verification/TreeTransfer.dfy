/** Sending a tree's leaves as bytes and rebuilding the tree on the other side, where only the
    leaves, the file size and the root are known: the block size is recovered from the count. */
module TreeTransfer {
  import opened TreeHash
  import opened MerkleTree
  import opened TreeStreaming
  import opened TreeBinding

  /** The leaves stored consecutively, left to right. */
  function LeafData(leaves: seq<Digest>): (data: seq<byte>)
    ensures |data| == BYTES * |leaves|
  {
    if leaves == [] then [] else LeafData(leaves[..|leaves| - 1]) + leaves[|leaves| - 1]
  }

  method GetLeafData(leaves: seq<Digest>) returns (buf: array<byte>)
    ensures fresh(buf) && buf[..] == LeafData(leaves)
  {
    buf := new byte[|leaves| * BYTES];
    for i := 0 to |leaves|
      invariant buf[..i * BYTES] == LeafData(leaves[..i])
    {
      ghost var before := buf[..i * BYTES];
      forall k | 0 <= k < BYTES {
        buf[i * BYTES + k] := leaves[i][k];
      }
      assert buf[..(i + 1) * BYTES] == before + leaves[i];
      assert leaves[..i + 1][..i] == leaves[..i];
    }
    assert leaves[..|leaves|] == leaves && buf[..] == buf[..|leaves| * BYTES];
  }

  /** Leaves are determined by their bytes. */
  lemma {:induction false} LeafDataInjective(a: seq<Digest>, b: seq<Digest>, rest: seq<byte>)
    requires LeafData(a) == LeafData(b) + rest && |rest| < BYTES
    ensures a == b && rest == []
    decreases |a|
  {
    if a != [] {
      var n := |a|;
      assert |b| == n && rest == [];
      assert LeafData(b) + rest == LeafData(b);
      assert LeafData(a)[BYTES * (n - 1)..] == a[n - 1] && LeafData(b)[BYTES * (n - 1)..] == b[n - 1];
      assert LeafData(a)[..BYTES * (n - 1)] == LeafData(a[..n - 1]);
      assert LeafData(b)[..BYTES * (n - 1)] == LeafData(b[..n - 1]);
      assert LeafData(b[..n - 1]) + [] == LeafData(b[..n - 1]);
      LeafDataInjective(a[..n - 1], b[..n - 1], []);
      assert a == a[..n - 1] + [a[n - 1]] && b == b[..n - 1] + [b[n - 1]];
    }
  }

  lemma Took(received: seq<byte>, b: seq<byte>, pos: nat, n: nat)
    requires pos + n <= |b|
    ensures (received + b[..pos]) + b[pos..pos + n] == received + b[..pos + n]
  {
  }

  /** The receiving stream: whole hashes go straight to the leaves, split ones through buf. */
  class TreeOutputStream {
    const tree: MerkleTree
    const buf: array<byte>
    var bufPos: nat

    ghost predicate Valid()
      reads this
    {
      buf.Length == BYTES && bufPos < BYTES
    }

    ghost function Received(): seq<byte>
      requires Valid()
      reads this, tree, buf
    {
      LeafData(tree.leaves) + buf[..bufPos]
    }

    constructor (tree: MerkleTree)
      ensures Valid() && this.tree == tree && bufPos == 0 && fresh(buf)
    {
      this.tree, bufPos := tree, 0;
      buf := new byte[BYTES];
    }

    method Write(b: seq<byte>)
      requires Valid()
      modifies this`bufPos, buf, tree`leaves
      ensures Valid() && Received() == old(Received()) + b
    {
      var pos := 0;
      ghost var received := Received();
      while pos < |b|
        invariant Valid() && pos <= |b|
        invariant Received() == received + b[..pos]
      {
        var left := |b| - pos;
        if bufPos == 0 && left >= BYTES {
          PushLeaf(b[pos..pos + BYTES]);
          Took(received, b, pos, BYTES);
          pos := pos + BYTES;
        } else {
          var bytes := if BYTES - bufPos < left then BYTES - bufPos else left;
          Buffer(b[pos..pos + bytes]);
          Took(received, b, pos, bytes);
          pos := pos + bytes;
        }
      }
      assert b[..pos] == b;
    }

    method PushLeaf(h: Digest)
      requires Valid() && bufPos == 0
      modifies tree`leaves
      ensures Valid() && Received() == old(Received()) + h
    {
      tree.leaves := tree.leaves + [h];
      assert tree.leaves[..|tree.leaves| - 1] == old(tree.leaves);
    }

    method Buffer(part: seq<byte>)
      requires Valid() && bufPos + |part| <= BYTES
      modifies this`bufPos, buf, tree`leaves
      ensures Valid() && Received() == old(Received()) + part
    {
      ghost var head := buf[..bufPos];
      forall k | 0 <= k < |part| {
        buf[bufPos + k] := part[k];
      }
      bufPos := bufPos + |part|;
      assert buf[..bufPos] == head + part;
      if bufPos == BYTES {
        tree.leaves := tree.leaves + [buf[..]];
        assert tree.leaves[..|tree.leaves| - 1] == old(tree.leaves);
        assert buf[..BYTES] == buf[..];
        bufPos := 0;
      }
    }
  }

  /** However the bytes are cut into writes, the leaves come out as they went in. */
  method Transfer(leaves: seq<Digest>, writes: seq<seq<byte>>, tree: MerkleTree)
    requires Concat(writes) == LeafData(leaves) && tree.leaves == []
    modifies tree`leaves
    ensures tree.leaves == leaves
  {
    var stream := new TreeOutputStream(tree);
    for i := 0 to |writes|
      invariant stream.Valid() && fresh(stream) && fresh(stream.buf) && stream.tree == tree
      invariant stream.Received() == Concat(writes[..i])
    {
      assert writes[..i + 1][..i] == writes[..i];
      stream.Write(writes[i]);
    }
    assert writes[..|writes|] == writes;
    LeafDataInjective(leaves, tree.leaves, stream.buf[..stream.bufPos]);
  }

  // ----- recovering the block size -----

  /** The guard of the doubling loop: blocks of bl bytes under n leaves are still too small. */
  predicate TooSmall(bl: nat, n: nat, fileSize: nat) {
    bl * n < fileSize
  }

  lemma ProgressLemma(bl: nat, n: nat, fileSize: nat)
    requires bl > 0 && n > 0 && TooSmall(bl, n, fileSize)
    ensures bl < fileSize
  {
    MulLe(bl, 1, n);
  }

  function Recovered(bl: nat, n: nat, fileSize: nat): (r: nat)
    requires bl > 0 && (n > 0 || fileSize == 0)
    ensures r >= bl
    decreases fileSize - bl
  {
    if TooSmall(bl, n, fileSize) then
      ProgressLemma(bl, n, fileSize);
      Recovered(bl * 2, n, fileSize)
    else bl
  }

  /** The loop ends at a power of two of base blocks that is large enough. */
  lemma {:induction false} RecoveredFits(bl: nat, n: nat, fileSize: nat)
    requires bl > 0 && (n > 0 || fileSize == 0)
    ensures var r := Recovered(bl, n, fileSize); Doubles(bl, r) && !TooSmall(r, n, fileSize)
    decreases fileSize - bl
  {
    if TooSmall(bl, n, fileSize) {
      ProgressLemma(bl, n, fileSize);
      RecoveredFits(bl * 2, n, fileSize);
    }
  }

  /** Some number of doublings ends the loop if and only if there is a leaf or nothing to cover. */
  lemma LoopEndsExactly(n: nat, fileSize: nat)
    ensures (exists bl :: Doubles(BASE_BLOCK_SIZE, bl) && !TooSmall(bl, n, fileSize)) <==> n > 0 || fileSize == 0
  {
    if n > 0 || fileSize == 0 {
      RecoveredFits(BASE_BLOCK_SIZE, n, fileSize);
      assert Doubles(BASE_BLOCK_SIZE, Recovered(BASE_BLOCK_SIZE, n, fileSize));
    }
  }

  /** With at least two leaves the sender's block size is the first one that is large enough. */
  lemma {:induction false} RecoveredIsSize(bl: nat, size: nat, n: nat, fileSize: nat)
    requires bl > 0 && Doubles(bl, size) && n >= 1
    requires size * n < 2 * fileSize && !TooSmall(size, n, fileSize)
    ensures Recovered(bl, n, fileSize) == size
    decreases size - bl
  {
    if bl < size {
      DoublesLarger(2 * bl, size);
      assert 2 * (bl * n) <= size * n by { MulLe(n, 2 * bl, size); }
      RecoveredIsSize(2 * bl, size, n, fileSize);
    }
  }

  lemma DoublesLarger(k: nat, n: nat)
    requires k > 0 && Doubles(k, n)
    ensures k <= n
  {
  }

  /** A list of two or more leaves gives back the block size it was made with. */
  lemma SenderSizeRecovered(u: nat, fileSize: nat)
    requires PowerOfTwo(u) && u > 0 && Blocks(fileSize, BASE_BLOCK_SIZE * u) >= 2
    ensures Recovered(BASE_BLOCK_SIZE, Blocks(fileSize, BASE_BLOCK_SIZE * u), fileSize) == BASE_BLOCK_SIZE * u
  {
    var size := BASE_BLOCK_SIZE * u;
    var m := Blocks(fileSize, size);
    BlocksBounds(fileSize, size);
    assert size * m == size * (m - 1) + size && size * (m - 1) >= size by { MulLe(size, 1, m - 1); }
    DoublesScaled(BASE_BLOCK_SIZE, 1, u);
    RecoveredIsSize(BASE_BLOCK_SIZE, size, m, fileSize);
  }

  /** With any leaf list at all, every index getHash uses is in range afterwards. */
  lemma RecoveredInRange(n: nat, fileSize: nat)
    requires n > 0
    ensures var r := Recovered(BASE_BLOCK_SIZE, n, fileSize);
            Unit(r) > 0 && Blocks(fileSize, r) <= n
  {
    var r := Recovered(BASE_BLOCK_SIZE, n, fileSize);
    RecoveredFits(BASE_BLOCK_SIZE, n, fileSize);
    MultipleOfBase(BASE_BLOCK_SIZE, 1, r);
    if fileSize > 0 {
      BlocksBounds(fileSize, r);
      if n + 1 <= Blocks(fileSize, r) {
        MulLe(r, n, Blocks(fileSize, r) - 1);
      }
    }
  }

  lemma {:induction false} MultipleOfBase(bl: nat, k: nat, r: nat)
    requires k > 0 && bl == BASE_BLOCK_SIZE * k && PowerOfTwo(k) && Doubles(bl, r)
    ensures r % BASE_BLOCK_SIZE == 0 && PowerOfTwo(r / BASE_BLOCK_SIZE)
    decreases r - bl
  {
    if bl < r {
      PowerDoubled(k);
      MultipleOfBase(2 * bl, 2 * k, r);
    }
  }

  /** The end of a tree download: block size, root, and the comparison with the wanted root. */
  method EndData(tree: MerkleTree, tth: Digest) returns (valid: bool)
    requires tree.leaves != []
    modifies tree`blockSize, tree`root
    ensures tree.blockSize == Recovered(BASE_BLOCK_SIZE, |tree.leaves|, tree.fileSize)
    ensures Blocks(tree.fileSize, tree.blockSize) <= |tree.leaves|
    ensures tree.root == TreeOf(tree.tiger, Read(tree.leaves, 0, Blocks(tree.fileSize, tree.blockSize)))
    ensures valid <==> tth == tree.root
  {
    var bl := BASE_BLOCK_SIZE;
    while TooSmall(bl, |tree.leaves|, tree.fileSize)
      invariant bl > 0
      invariant Recovered(bl, |tree.leaves|, tree.fileSize) == Recovered(BASE_BLOCK_SIZE, |tree.leaves|, tree.fileSize)
      decreases tree.fileSize - bl
    {
      ProgressLemma(bl, |tree.leaves|, tree.fileSize);
      bl := bl * 2;
    }
    RecoveredInRange(|tree.leaves|, tree.fileSize);
    tree.blockSize := bl;
    tree.CalcRoot();
    valid := tth == tree.root;
  }

  /** A tree sent by someone who hashed the data is accepted, with its own block size when it has
      two or more leaves. */
  lemma SentTreeAccepted(tiger: Hasher, data: seq<byte>, u: nat, leaves: seq<Digest>)
    requires PowerOfTwo(u) && u > 0
    requires leaves == BlockRoots(tiger, data, BASE_BLOCK_SIZE * u) && |leaves| <= INDEX_RANGE
    ensures |leaves| > 0
    ensures var r := Recovered(BASE_BLOCK_SIZE, |leaves|, |data|);
            && (|leaves| >= 2 ==> r == BASE_BLOCK_SIZE * u)
            && Blocks(|data|, r) == |leaves|
            && TreeOf(tiger, Read(leaves, 0, |leaves|)) == Root(tiger, data)
  {
    var size := BASE_BLOCK_SIZE * u;
    BlockRootsCount(tiger, data, size);
    RecoveredInRange(|leaves|, |data|);
    WholeRead(leaves);
    if |leaves| >= 2 {
      SenderSizeRecovered(u, |data|);
    }
    GroupsAreBlocks(tiger, data, u);
    TreeOfBlockHashes(tiger, BaseHashes(tiger, data), u);
    RootIsTreeOfBase(tiger, data);
  }

  lemma ReadsFront(leaves: seq<Digest>, m: nat)
    requires m <= |leaves| <= INDEX_RANGE
    ensures Read(leaves, 0, m) == leaves[..m]
  {
    ReadIsSlice(leaves, 0, m);
    assert leaves[0..m] == leaves[..m];
  }

  /** Whatever list of leaves is accepted for the root of a file: the leaves it uses are the
      hashes of the file's blocks, or two of the inputs hashed collide. */
  lemma AcceptedLeavesGenuine(tiger: Hasher, file: seq<byte>, leaves: seq<Digest>, size: nat, m: nat)
    requires 0 < |leaves| <= INDEX_RANGE
    requires size == Recovered(BASE_BLOCK_SIZE, |leaves|, |file|) && m == Blocks(|file|, size)
    requires m <= |leaves| ==> TreeOf(tiger, Read(leaves, 0, m)) == Root(tiger, file)
    ensures m <= |leaves|
    ensures || leaves[..m] == BlockRoots(tiger, file, size)
            || Collision(tiger, TreeInputs(tiger, leaves[..m]), TreeInputs(tiger, BlockRoots(tiger, file, size)))
  {
    RecoveredInRange(|leaves|, |file|);
    ReadsFront(leaves, m);
    FinalTree(tiger, file, size);
    TreeBinds(tiger, leaves[..m], BlockRoots(tiger, file, size));
  }
}
