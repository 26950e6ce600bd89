/** What a streamed tree is worth: however the data is cut into updates and whatever the block
    size, finalize yields the tree hash of the data. */
module TreeStreaming {
  import opened TreeHash
  import opened MerkleTree

  function Concat(chunks: seq<seq<byte>>): seq<byte> {
    if chunks == [] then [] else Concat(chunks[..|chunks| - 1]) + chunks[|chunks| - 1]
  }

  /** The base hashes after a run of updates on a new tree. */
  function AbsorbAll(tiger: Hasher, chunks: seq<seq<byte>>): seq<Digest> {
    if chunks == [] then []
    else Absorb(tiger, [], AbsorbAll(tiger, chunks[..|chunks| - 1]), chunks[|chunks| - 1])
  }

  /** What update asks of its callers: whole base blocks, except in the last call. */
  predicate WellCut(chunks: seq<seq<byte>>) {
    forall i :: 0 <= i < |chunks| - 1 ==> |chunks[i]| % BASE_BLOCK_SIZE == 0
  }

  /** Reference: the tree hash of every block of the data; empty data is one block. */
  function BlockRoots(tiger: Hasher, data: seq<byte>, size: nat): seq<Digest>
    requires size > 0
    decreases |data|
  {
    if |data| <= size then [Root(tiger, data)]
    else [Root(tiger, data[..size])] + BlockRoots(tiger, data[size..], size)
  }

  /** Where block i begins. */
  function StartOf(i: nat, size: nat): nat {
    if i == 0 then 0 else StartOf(i - 1, size) + size
  }

  lemma {:induction false} StartOfTimes(i: nat, size: nat)
    ensures StartOf(i, size) == size * i
  {
    if i > 0 {
      StartOfTimes(i - 1, size);
    }
  }

  lemma BlockRootsAt(tiger: Hasher, data: seq<byte>, size: nat, i: nat, start: nat)
    requires size > 0 && start == size * i && start < |data|
    ensures i < |BlockRoots(tiger, data, size)|
    ensures BlockRoots(tiger, data, size)[i] == Root(tiger, data[start..EndOf(data, start, size)])
  {
    StartOfTimes(i, size);
    BlockRootFrom(tiger, data, size, i, start, BlockRoots(tiger, data, size));
  }

  /** Where the block that begins at start ends. */
  function EndOf(data: seq<byte>, start: nat, size: nat): (end: nat)
    requires start <= |data|
    ensures start <= end <= |data|
  {
    if start + size <= |data| then start + size else |data|
  }

  lemma RestSlice(data: seq<byte>, size: nat, start: nat)
    requires size <= start <= |data|
    ensures data[size..][start - size..EndOf(data[size..], start - size, size)] == data[start..EndOf(data, start, size)]
  {
  }

  lemma FirstBlock(tiger: Hasher, data: seq<byte>, size: nat)
    requires size > 0 && data != []
    ensures BlockRoots(tiger, data, size) != []
    ensures BlockRoots(tiger, data, size)[0] == Root(tiger, data[0..EndOf(data, 0, size)])
  {
    assert data[0..|data|] == data;
    if size < |data| {
      assert data[0..size] == data[..size];
    }
  }

  lemma {:induction false} BlockRootFrom(tiger: Hasher, data: seq<byte>, size: nat, i: nat, start: nat,
                                         roots: seq<Digest>)
    requires size > 0 && start == StartOf(i, size) && start < |data| && roots == BlockRoots(tiger, data, size)
    ensures i < |roots| && roots[i] == Root(tiger, data[start..EndOf(data, start, size)])
    decreases |data|
  {
    if i == 0 {
      FirstBlock(tiger, data, size);
    } else {
      var rest, before, tail := data[size..], start - size, roots[1..];
      assert tail == BlockRoots(tiger, rest, size) && before == StartOf(i - 1, size);
      BlockRootFrom(tiger, rest, size, i - 1, before, tail);
      RestSlice(data, size, start);
    }
  }

  lemma {:induction false} BlockRootsCount(tiger: Hasher, data: seq<byte>, size: nat)
    requires size > 0
    ensures |BlockRoots(tiger, data, size)| == Blocks(|data|, size)
    decreases |data|
  {
    if |data| > size {
      BlockRootsCount(tiger, data[size..], size);
      var m := Blocks(|data| - size, size);
      BlocksBounds(|data| - size, size);
      assert size * (m + 1) == size * m + size && size * m == size * (m - 1) + size;
      BlocksUnique(|data|, size, m + 1);
    } else if |data| > 0 {
      BlocksUnique(|data|, size, 1);
    }
  }

  /** Grouping base hashes and hashing blocks of bytes come to the same. */
  lemma {:induction false} GroupsAreBlocks(tiger: Hasher, data: seq<byte>, u: nat)
    requires u >= 1
    ensures BlockHashes(tiger, BaseHashes(tiger, data), u) == BlockRoots(tiger, data, BASE_BLOCK_SIZE * u)
    decreases |data|
  {
    var size, base := BASE_BLOCK_SIZE * u, BaseHashes(tiger, data);
    if |data| > 0 { BlocksBounds(|data|, BASE_BLOCK_SIZE); }
    if |data| <= size {
      RootIsTreeOfBase(tiger, data);
    } else {
      var head, rest := data[..size], data[size..];
      assert data == head + rest;
      BaseHashesConcat(tiger, head, rest);
      BlocksUnique(size, BASE_BLOCK_SIZE, u);
      assert base[..u] == BaseHashes(tiger, head) && base[u..] == BaseHashes(tiger, rest);
      RootIsTreeOfBase(tiger, head);
      GroupsAreBlocks(tiger, rest, u);
    }
  }

  // ----- which block sizes work -----

  /** The data fits one block, or merging base blocks hits the block size. */
  predicate GoodBlockSize(size: nat, n: nat) {
    size > 0 && (n <= size || (size >= BASE_BLOCK_SIZE && Unit(size) > 0))
  }

  /** Finalize leaves one leaf per block, each the tree hash of its block, and the tree over the
      leaves is the tree hash of the data. */
  lemma FinalTree(tiger: Hasher, data: seq<byte>, size: nat)
    requires GoodBlockSize(size, |data|)
    ensures var leaves := FinalLeaves(tiger, BaseHashes(tiger, data), Unit(size));
            && leaves == BlockRoots(tiger, data, size)
            && |leaves| == Blocks(|data|, size)
            && TreeOf(tiger, leaves) == Root(tiger, data)
  {
    var base, u := BaseHashes(tiger, data), Unit(size);
    BlockRootsCount(tiger, data, size);
    RootIsTreeOfBase(tiger, data);
    if u == 0 {
      assert FinalLeaves(tiger, base, 0) == [TreeOf(tiger, base)];
    } else {
      FinalLeavesAreBlocks(tiger, base, u);
      TreeOfBlockHashes(tiger, base, u);
      if size >= BASE_BLOCK_SIZE {
        GroupsAreBlocks(tiger, data, u);
      } else {
        assert |base| == 1;
      }
    }
  }

  /** Below the base block size there is one leaf per base block. */
  lemma SmallSizeLeaves(tiger: Hasher, data: seq<byte>, size: nat)
    requires 0 < size < BASE_BLOCK_SIZE
    ensures |FinalLeaves(tiger, BaseHashes(tiger, data), Unit(size))| == Blocks(|data|, BASE_BLOCK_SIZE)
  {
    var base := BaseHashes(tiger, data);
    FinalLeavesAreBlocks(tiger, base, 1);
    BlockHashesCount(tiger, base, 1);
    BlocksUnique(|base|, 1, |base|);
  }

  lemma LargeSizeLeaves(tiger: Hasher, data: seq<byte>, size: nat)
    requires size >= BASE_BLOCK_SIZE
    ensures |FinalLeaves(tiger, BaseHashes(tiger, data), Unit(size))| == Blocks(|data|, size)
            <==> GoodBlockSize(size, |data|)
  {
    if GoodBlockSize(size, |data|) {
      FinalTree(tiger, data, size);
    } else {
      BlocksBounds(|data|, size);
      assert FinalLeaves(tiger, BaseHashes(tiger, data), 0) == [TreeOf(tiger, BaseHashes(tiger, data))];
    }
  }

  /** Exactly the block sizes for which finalize yields one leaf per block. From the base block size up these are the
      good ones: without a merge that hits the size, everything ends up in a single leaf. Below it there is one leaf
      per base block, which is right only where both sizes cut the data into as many blocks. */
  lemma LeafCountExact(tiger: Hasher, data: seq<byte>, size: nat)
    requires size > 0
    ensures |FinalLeaves(tiger, BaseHashes(tiger, data), Unit(size))| == Blocks(|data|, size)
       <==> if size >= BASE_BLOCK_SIZE then GoodBlockSize(size, |data|)
            else Blocks(|data|, size) == Blocks(|data|, BASE_BLOCK_SIZE)
  {
    if size < BASE_BLOCK_SIZE {
      SmallSizeLeaves(tiger, data, size);
    } else {
      LargeSizeLeaves(tiger, data, size);
    }
  }

  // ----- which cuts work -----

  lemma AlignedSum(m: nat, n: nat)
    requires m % BASE_BLOCK_SIZE == 0 && n % BASE_BLOCK_SIZE == 0
    ensures (m + n) % BASE_BLOCK_SIZE == 0
  {
  }

  lemma {:induction false} ConcatAligned(chunks: seq<seq<byte>>)
    requires forall i :: 0 <= i < |chunks| ==> |chunks[i]| % BASE_BLOCK_SIZE == 0
    ensures |Concat(chunks)| % BASE_BLOCK_SIZE == 0
  {
    if chunks != [] {
      var front, last := chunks[..|chunks| - 1], chunks[|chunks| - 1];
      ConcatAligned(front);
      AlignedSum(|Concat(front)|, |last|);
    }
  }

  lemma {:induction false} FirstChunkCounts(chunks: seq<seq<byte>>)
    requires chunks != [] && chunks[0] != []
    ensures Concat(chunks) != []
  {
    if |chunks| > 1 {
      FirstChunkCounts(chunks[..|chunks| - 1]);
    }
  }

  /** One more chunk of a run of aligned data. */
  lemma JoinBase(tiger: Hasher, data: seq<byte>, last: seq<byte>)
    requires |data| % BASE_BLOCK_SIZE == 0
    ensures last == [] ==> data + last == data
    ensures data == [] ==> data + last == last
    ensures data != [] && last != []
            ==> BaseHashes(tiger, data + last) == BaseHashes(tiger, data) + BaseHashes(tiger, last)
  {
    if data != [] && last != [] {
      BaseHashesConcat(tiger, data, last);
    }
  }

  /** A run of updates adds up to the base hashes of all its data. */
  lemma {:induction false} AbsorbAllIsBase(tiger: Hasher, chunks: seq<seq<byte>>)
    requires chunks != [] && WellCut(chunks) && chunks[0] != []
    ensures AbsorbAll(tiger, chunks) == BaseHashes(tiger, Concat(chunks))
    decreases |chunks|
  {
    var front, last := chunks[..|chunks| - 1], chunks[|chunks| - 1];
    ConcatAligned(front);
    JoinBase(tiger, Concat(front), last);
    if front != [] {
      AbsorbAllIsBase(tiger, front);
      FirstChunkCounts(front);
    }
  }

  lemma AfterFirst(first: seq<Digest>, a: seq<Digest>, b: seq<Digest>)
    ensures first + (a + b) == (first + a) + b
  {
  }

  /** One more chunk behind an empty first one. */
  lemma EmptyFirstMore(tiger: Hasher, absorbed: seq<Digest>, first: seq<Digest>, data: seq<byte>, last: seq<byte>)
    requires first != [] && absorbed == first + (if data == [] then [] else BaseHashes(tiger, data))
    requires |data| % BASE_BLOCK_SIZE == 0
    ensures Absorb(tiger, [], absorbed, last) == first + if data + last == [] then []
            else BaseHashes(tiger, data + last)
  {
    JoinBase(tiger, data, last);
    if data != [] && last != [] {
      AfterFirst(first, BaseHashes(tiger, data), BaseHashes(tiger, last));
    } else if data == [] {
      assert first + [] == first;
    }
  }

  lemma OneEmptyChunk(tiger: Hasher, chunks: seq<seq<byte>>)
    requires |chunks| == 1 && chunks[0] == []
    ensures Concat(chunks) == [] && AbsorbAll(tiger, chunks) == [LeafHash(tiger, [])]
  {
    assert chunks[..0] == [] && Concat([]) == [] && AbsorbAll(tiger, []) == [];
    assert AbsorbAll(tiger, chunks) == BaseHashes(tiger, []);
  }

  /** Unless an empty update came first: it was hashed as a block of its own. */
  lemma {:induction false} EmptyFirstChunkStays(tiger: Hasher, chunks: seq<seq<byte>>)
    requires chunks != [] && WellCut(chunks) && chunks[0] == []
    ensures var data := Concat(chunks);
            AbsorbAll(tiger, chunks) == [LeafHash(tiger, [])] + if data == [] then [] else BaseHashes(tiger, data)
    decreases |chunks|
  {
    var front, last := chunks[..|chunks| - 1], chunks[|chunks| - 1];
    if front == [] {
      OneEmptyChunk(tiger, chunks);
    } else {
      ConcatAligned(front);
      EmptyFirstChunkStays(tiger, front);
      EmptyFirstMore(tiger, AbsorbAll(tiger, front), [LeafHash(tiger, [])], Concat(front), last);
    }
  }

  /** Exactly the cuts for which streaming hashes the data and nothing else. */
  lemma CutExact(tiger: Hasher, chunks: seq<seq<byte>>)
    requires chunks != [] && WellCut(chunks)
    ensures AbsorbAll(tiger, chunks) == BaseHashes(tiger, Concat(chunks))
       <==> chunks[0] != [] || Concat(chunks) == []
  {
    if chunks[0] == [] {
      EmptyFirstChunkStays(tiger, chunks);
    } else {
      AbsorbAllIsBase(tiger, chunks);
    }
  }

  /** What a caller of update and finalize has to keep to. */
  predicate GoodRun(chunks: seq<seq<byte>>, size: nat) {
    && WellCut(chunks) && (chunks != [] && chunks[0] == [] ==> Concat(chunks) == [])
    && GoodBlockSize(size, |Concat(chunks)|)
  }

  /** Neither the cut nor the block size shows in the root. */
  lemma StreamedTree(tiger: Hasher, chunks: seq<seq<byte>>, size: nat)
    requires GoodRun(chunks, size)
    ensures var data := Concat(chunks);
            var leaves := FinalLeaves(tiger, Closed(tiger, [], AbsorbAll(tiger, chunks)), Unit(size));
            && leaves == BlockRoots(tiger, data, size) && |leaves| == Blocks(|data|, size)
            && TreeOf(tiger, leaves) == Root(tiger, data)
  {
    var base := BaseHashes(tiger, Concat(chunks));
    if chunks == [] {
      assert AbsorbAll(tiger, chunks) + base == base;
    } else {
      CutExact(tiger, chunks);
    }
    FinalTree(tiger, Concat(chunks), size);
  }

  /** A whole run: a new tree, one update per chunk, finalize. */
  method HashChunks(tiger: Hasher, chunks: seq<seq<byte>>, size: nat) returns (tree: MerkleTree)
    requires GoodRun(chunks, size) && Blocks(|Concat(chunks)|, size) <= INDEX_RANGE
    ensures fresh(tree) && tree.fileSize == |Concat(chunks)|
    ensures tree.leaves == BlockRoots(tiger, Concat(chunks), size)
    ensures tree.root == Root(tiger, Concat(chunks))
  {
    tree := new MerkleTree(tiger, size, [], 0);
    for i := 0 to |chunks|
      invariant fresh(tree) && tree.Valid() && tree.tiger == tiger && tree.prefix == [] && tree.blockSize == size
      invariant tree.base == AbsorbAll(tiger, chunks[..i]) && tree.fileSize == |Concat(chunks[..i])|
    {
      assert chunks[..i + 1][..i] == chunks[..i];
      tree.Update(chunks[i]);
    }
    assert chunks[..|chunks|] == chunks;
    StreamedTree(tiger, chunks, size);
    ghost var expected := BlockRoots(tiger, Concat(chunks), size);
    assert [] + expected == expected;
    tree.Finalize();
    WholeRead(tree.leaves);
  }

  lemma WholeRead(leaves: seq<Digest>)
    requires |leaves| <= INDEX_RANGE
    ensures Read(leaves, 0, |leaves|) == leaves
  {
    ReadIsSlice(leaves, 0, |leaves|);
    assert leaves[0..|leaves|] == leaves;
  }
}
