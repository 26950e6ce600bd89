/** The stream that checks downloaded data against a tree while it is written: whole base blocks
    go to a tree of its own, the rest waits in a buffer, and every finished leaf is compared. */
module MerkleCheck {
  import opened TreeHash
  import opened MerkleTree
  import opened TreeStreaming
  import opened TreeBinding

  datatype TreeValue = TreeValue(leaves: seq<Digest>, root: Digest, fileSize: nat, blockSize: nat)

  /** The block a position falls in. */
  function BlockOf(start: nat, size: nat): nat
    requires size > 0
  {
    start / size
  }

  /** The leaves taken over from the expected tree for data before the start position. */
  function TakenLeaves(expected: TreeValue, start: nat): (p: seq<Digest>)
    requires expected.blockSize > 0
  {
    var n := BlockOf(start, expected.blockSize);
    if n > |expected.leaves| then [] else expected.leaves[..n]
  }

  /** The base hashes of what the tree was fed. */
  function FedBase(tiger: Hasher, fed: seq<byte>): seq<Digest> {
    if fed == [] then [] else BaseHashes(tiger, fed)
  }

  lemma FedGrows(tiger: Hasher, prefix: seq<Digest>, fed: seq<byte>, data: seq<byte>)
    requires |fed| % BASE_BLOCK_SIZE == 0 && data != []
    ensures Absorb(tiger, prefix, FedBase(tiger, fed), data) == FedBase(tiger, fed + data)
    ensures |data| % BASE_BLOCK_SIZE == 0 ==> |fed + data| % BASE_BLOCK_SIZE == 0
  {
    WholeSum(|fed|, |data|);
    if fed == [] {
      assert fed + data == data;
    } else {
      BaseHashesConcat(tiger, fed, data);
    }
  }

  lemma WholeSum(m: nat, n: nat)
    requires m % BASE_BLOCK_SIZE == 0
    ensures n % BASE_BLOCK_SIZE == 0 ==> (m + n) % BASE_BLOCK_SIZE == 0
  {
  }

  /** As many bytes as fill base blocks. */
  function WholeBlocks(n: nat): (part: nat)
    ensures part <= n < part + BASE_BLOCK_SIZE && part % BASE_BLOCK_SIZE == 0
  {
    n - n % BASE_BLOCK_SIZE
  }

  lemma Rejoined(before: seq<byte>, b: seq<byte>, pos: nat)
    requires pos <= |b|
    ensures (before + b[..pos]) + b[pos..] == before + b
    ensures pos == 0 ==> before + b[..pos] == before
    ensures pos == |b| ==> before + b[..pos] == before + b
  {
  }

  class MerkleCheckOutputStream {
    const expected: TreeValue
    const start: nat
    const cur: MerkleTree
    const buf: array<byte>
    var bufPos: nat
    var verified: nat
    /** What the tree got so far: whole base blocks. */
    ghost var fed: seq<byte>

    /** Everything written so far: the tail that does not fill a base block waits in the buffer. */
    ghost function Written(): seq<byte>
      requires bufPos <= buf.Length
      reads this`bufPos, this`fed, buf
    {
      fed + buf[..bufPos]
    }

    ghost predicate Valid()
      reads this, cur, buf
    {
      && buf.Length == BASE_BLOCK_SIZE && bufPos < BASE_BLOCK_SIZE
      && TreeFed()
    }

    ghost predicate TreeFed()
      reads this`fed, this`verified, cur
    {
      && cur.Valid() && cur.blockSize == expected.blockSize && cur.prefix == TakenLeaves(expected, start)
      && |fed| % BASE_BLOCK_SIZE == 0
      && cur.base == FedBase(cur.tiger, fed)
      && cur.fileSize == start + |fed|
      && Verified()
    }

    ghost predicate Verified()
      reads this`verified, cur
    {
      && verified <= |cur.leaves| && verified <= |expected.leaves|
      && cur.leaves[..verified] == expected.leaves[..verified]
    }

    constructor (tiger: Hasher, expected: TreeValue, start: nat)
      requires expected.blockSize > 0
      ensures Valid() && fresh(cur) && fresh(buf) && Written() == []
      ensures this.expected == expected && this.start == start && cur.tiger == tiger
    {
      this.expected, this.start := expected, start;
      cur := new MerkleTree(tiger, expected.blockSize, TakenLeaves(expected, start), start);
      buf := new byte[BASE_BLOCK_SIZE];
      bufPos, verified, fed := 0, 0, [];
    }

    method CommitBytes(b: seq<byte>)
      requires Valid()
      modifies this`bufPos, this`fed, buf, cur
      ensures Valid() && Written() == old(Written()) + b
    {
      ghost var before := Written();
      var pos := 0;
      if bufPos != 0 {
        pos := FillBuffer(b);
      }
      Rejoined(before, b, pos);
      if pos < |b| {
        CommitRest(b[pos..]);
      }
    }

    /** The second half of commitBytes: whole base blocks at once, the rest into the buffer. */
    method CommitRest(b: seq<byte>)
      requires Valid() && bufPos == 0
      modifies this`bufPos, this`fed, buf, cur
      ensures Valid() && Written() == old(Written()) + b
    {
      ghost var before := Written();
      var part := WholeBlocks(|b|);
      if part > 0 {
        Feed(b[..part]);
      }
      Store(b[part..]);
      Rejoined(before, b, part);
    }

    method Store(rest: seq<byte>)
      requires Valid() && bufPos == 0 && |rest| < BASE_BLOCK_SIZE
      modifies this`bufPos, buf
      ensures Valid() && Written() == fed + rest
    {
      CopyIn(rest);
    }

    /** Tops up the buffer; a full one goes to the tree. */
    method FillBuffer(b: seq<byte>) returns (pos: nat)
      requires Valid() && bufPos != 0
      modifies this`bufPos, this`fed, buf, cur
      ensures Valid() && pos <= |b| && Written() == old(Written()) + b[..pos]
      ensures pos < |b| ==> bufPos == 0
    {
      pos := if BASE_BLOCK_SIZE - bufPos < |b| then BASE_BLOCK_SIZE - bufPos else |b|;
      CopyIn(b[..pos]);
      if bufPos == BASE_BLOCK_SIZE {
        Feed(buf[..BASE_BLOCK_SIZE]);
        bufPos := 0;
      }
    }

    method CopyIn(b: seq<byte>)
      requires bufPos + |b| <= buf.Length
      modifies this`bufPos, buf
      ensures bufPos == old(bufPos) + |b| && Written() == old(Written()) + b
    {
      ghost var tail := buf[..bufPos];
      forall k | 0 <= k < |b| {
        buf[bufPos + k] := b[k];
      }
      assert buf[..bufPos + |b|] == tail + b;
      bufPos := bufPos + |b|;
    }

    /** Gives the tree the next whole base blocks of the data. */
    method Feed(data: seq<byte>)
      requires TreeFed() && data != [] && |data| % BASE_BLOCK_SIZE == 0
      modifies this`fed, cur
      ensures TreeFed() && fed == old(fed) + data
    {
      FedGrows(cur.tiger, cur.prefix, fed, data);
      label before:
      cur.Update(data);
      fed := fed + data;
      assert cur.leaves[..verified] == old@before(cur.leaves)[..verified];
    }

    /** Compares the leaves finished since the last time. */
    method CheckTrees() returns (ok: bool)
      requires Verified()
      modifies this`verified
      ensures ok <==> cur.leaves <= expected.leaves
      ensures Verified()
    {
      while |cur.leaves| > verified
        invariant Verified()
        decreases |cur.leaves| - verified
      {
        if |cur.leaves| > |expected.leaves| || cur.leaves[verified] != expected.leaves[verified] {
          return false;
        }
        verified := verified + 1;
      }
      assert cur.leaves == cur.leaves[..verified];
      return true;
    }

    /** The data is accepted exactly when every leaf finished so far is the expected one. */
    method Write(b: seq<byte>) returns (ok: bool)
      requires Valid()
      modifies this`bufPos, this`fed, this`verified, buf, cur
      ensures Valid() && Written() == old(Written()) + b
      ensures ok <==> cur.leaves <= expected.leaves
    {
      CommitBytes(b);
      ok := CheckTrees();
    }

    /** The first half of flush: the buffered tail, then finalize. */
    method FinishTree()
      requires Valid() && GoodStart(expected, start, |Written()|)
      modifies this`bufPos, this`fed, cur
      ensures fed == old(Written()) && bufPos == 0
      ensures cur.leaves == CheckedLeaves(cur.tiger, expected, start, fed)
      ensures cur.root == TreeOf(cur.tiger, Read(cur.leaves, 0, |cur.leaves|))
      ensures old(Verified()) ==> Verified()
    {
      FeedTail();
      FinalLeavesChecked(cur.tiger, expected, start, fed);
      cur.Finalize();
    }

    method FeedTail()
      requires Valid()
      modifies this`bufPos, this`fed, cur
      ensures fed == old(Written()) && bufPos == 0
      ensures cur.Valid() && cur.blockSize == expected.blockSize && cur.prefix == TakenLeaves(expected, start)
      ensures cur.base == FedBase(cur.tiger, fed) && cur.fileSize == start + |fed| && Verified()
    {
      if bufPos != 0 {
        FedGrows(cur.tiger, cur.prefix, fed, buf[..bufPos]);
        label before:
        cur.Update(buf[..bufPos]);
        assert cur.leaves[..verified] == old@before(cur.leaves)[..verified];
        fed := fed + buf[..bufPos];
      } else {
        assert Written() == fed;
      }
      bufPos := 0;
    }

    /** Hashes what is left and compares: the root when the tree is complete, else the leaves. */
    method Flush() returns (ok: bool)
      requires Valid() && GoodStart(expected, start, |Written()|)
      modifies this`bufPos, this`fed, this`verified, cur
      ensures fed == old(Written()) && bufPos == 0
      ensures cur.leaves == CheckedLeaves(cur.tiger, expected, start, fed)
      ensures ok <==> Accepted(cur.tiger, expected, start, fed)
    {
      FinishTree();
      if |cur.leaves| == |expected.leaves| {
        ok := cur.root == expected.root;
      } else {
        ok := CheckTrees();
      }
    }
  }

  /** A block-aligned position within the leaves, and a block size that fits the data. */
  predicate GoodStart(expected: TreeValue, start: nat, n: nat) {
    && expected.blockSize > 0 && start % expected.blockSize == 0
    && BlockOf(start, expected.blockSize) <= |expected.leaves|
    && GoodBlockSize(expected.blockSize, start + n)
  }

  /** The leaves after flush: those taken over, and one per block written. */
  function CheckedLeaves(tiger: Hasher, expected: TreeValue, start: nat, data: seq<byte>): seq<Digest>
    requires expected.blockSize > 0
  {
    var taken := TakenLeaves(expected, start);
    taken + if data == [] && taken != [] then [] else BlockRoots(tiger, data, expected.blockSize)
  }

  /** What flush lets through. */
  predicate Accepted(tiger: Hasher, expected: TreeValue, start: nat, data: seq<byte>)
    requires GoodStart(expected, start, |data|)
  {
    var leaves := CheckedLeaves(tiger, expected, start, data);
    if |leaves| == |expected.leaves| then
      CheckedCount(tiger, expected, start, data);
      TreeOf(tiger, Read(leaves, 0, |leaves|)) == expected.root
    else leaves <= expected.leaves
  }

  lemma CheckedCount(tiger: Hasher, expected: TreeValue, start: nat, data: seq<byte>)
    requires GoodStart(expected, start, |data|)
    ensures |CheckedLeaves(tiger, expected, start, data)| == Blocks(start + |data|, expected.blockSize)
  {
    BlockRootsCount(tiger, data, expected.blockSize);
    BlocksAfter(expected.blockSize, BlockOf(start, expected.blockSize), start, |data|);
  }

  lemma Products(size: nat, q: nat, m: nat)
    ensures size * (q + m) == size * q + size * m && size * (q + m - 1) == size * q + size * (m - 1)
  {
  }

  lemma BlocksAfter(size: nat, q: nat, start: nat, n: nat)
    requires size > 0 && start % size == 0 && q == BlockOf(start, size)
    ensures Blocks(start + n, size) == q + if n == 0 && q > 0 then 0 else Blocks(n, size)
  {
    AlignedProduct(size, start);
    if q > 0 {
      var m := if n == 0 then 0 else Blocks(n, size);
      if n > 0 { BlocksBounds(n, size); }
      Products(size, q, m);
      BlocksUnique(start + n, size, q + m);
    }
  }

  /** The final leaves of the stream's own tree. */
  lemma FinalLeavesChecked(tiger: Hasher, expected: TreeValue, start: nat, data: seq<byte>)
    requires GoodStart(expected, start, |data|)
    ensures var taken := TakenLeaves(expected, start);
            var base := Closed(tiger, taken, FedBase(tiger, data));
            var leaves := taken + FinalLeaves(tiger, base, Unit(expected.blockSize));
            && leaves == CheckedLeaves(tiger, expected, start, data)
            && |leaves| == Blocks(start + |data|, expected.blockSize)
  {
    CheckedCount(tiger, expected, start, data);
    var taken := TakenLeaves(expected, start);
    var base := Closed(tiger, taken, FedBase(tiger, data));
    if data == [] && taken != [] {
      assert base == [];
    } else {
      assert base == BaseHashes(tiger, data) by {
        if data == [] { assert [] + BaseHashes(tiger, data) == BaseHashes(tiger, data); }
      }
      FinalTree(tiger, data, expected.blockSize);
    }
  }

  // ----- what acceptance is worth -----

  predicate IsTreeOf(tiger: Hasher, expected: TreeValue, file: seq<byte>) {
    && GoodBlockSize(expected.blockSize, |file|)
    && expected.leaves == BlockRoots(tiger, file, expected.blockSize)
    && expected.root == Root(tiger, file)
  }

  lemma {:induction false} BlockRootsDrop(tiger: Hasher, file: seq<byte>, size: nat, q: nat, start: nat)
    requires size > 0 && start == size * q && (q == 0 || start < |file|)
    ensures q <= |BlockRoots(tiger, file, size)| && start <= |file|
    ensures BlockRoots(tiger, file, size)[q..] == BlockRoots(tiger, file[start..], size)
    decreases q
  {
    if q == 0 {
      assert file[0..] == file;
    } else {
      assert start - size == size * (q - 1);
      BlockRootsDrop(tiger, file[size..], size, q - 1, start - size);
      assert file[size..][start - size..] == file[start..];
      assert BlockRoots(tiger, file, size)[q..] == BlockRoots(tiger, file[size..], size)[q - 1..];
    }
  }

  /** Accepted leaves are a prefix of the expected ones, whichever of the two tests let them
      through. */
  lemma AcceptedPrefix(tiger: Hasher, expected: TreeValue, file: seq<byte>, start: nat, data: seq<byte>)
    requires IsTreeOf(tiger, expected, file) && |expected.leaves| <= INDEX_RANGE
    requires GoodStart(expected, start, |data|) && Accepted(tiger, expected, start, data)
    ensures var leaves := CheckedLeaves(tiger, expected, start, data);
            leaves != [] && (leaves <= expected.leaves
                             || Collision(tiger, TreeInputs(tiger, leaves), TreeInputs(tiger, expected.leaves)))
  {
    var leaves := CheckedLeaves(tiger, expected, start, data);
    CheckedCount(tiger, expected, start, data);
    if |leaves| == |expected.leaves| {
      WholeRead(leaves);
      FinalTree(tiger, file, expected.blockSize);
      TreeBinds(tiger, leaves, expected.leaves);
    }
  }

  /** A position whose leaf is expected lies inside the file. */
  lemma StartInside(tiger: Hasher, expected: TreeValue, file: seq<byte>, start: nat, data: seq<byte>)
    requires IsTreeOf(tiger, expected, file) && GoodStart(expected, start, |data|)
    requires start <= |file| && data != [] && start > 0
    requires |CheckedLeaves(tiger, expected, start, data)| <= |expected.leaves|
    ensures start < |file|
  {
    CheckedCount(tiger, expected, start, data);
    BlockRootsCount(tiger, file, expected.blockSize);
    BlocksAfter(expected.blockSize, BlockOf(start, expected.blockSize), start, 0);
    BlocksAfter(expected.blockSize, BlockOf(start, expected.blockSize), start, |data|);
  }

  lemma SuffixLeaves(tiger: Hasher, expected: TreeValue, file: seq<byte>, start: nat, data: seq<byte>)
    requires IsTreeOf(tiger, expected, file) && GoodStart(expected, start, |data|)
    requires start <= |file| && data != []
    requires CheckedLeaves(tiger, expected, start, data) <= expected.leaves
    ensures BlockRoots(tiger, data, expected.blockSize) <= BlockRoots(tiger, file[start..], expected.blockSize)
  {
    var size, leaves := expected.blockSize, CheckedLeaves(tiger, expected, start, data);
    var q := BlockOf(start, size);
    if start > 0 { StartInside(tiger, expected, file, start, data); }
    AlignedProduct(size, start);
    BlockRootsDrop(tiger, file, size, q, start);
    PrefixDrop(leaves, expected.leaves, q);
    assert leaves[q..] == BlockRoots(tiger, data, size);
  }

  lemma AlignedProduct(size: nat, start: nat)
    requires size > 0 && start % size == 0
    ensures start == size * BlockOf(start, size) && (BlockOf(start, size) == 0 ==> start == 0)
  {
  }

  lemma PrefixSlice(data: seq<byte>, file: seq<byte>, start: nat)
    requires start <= |file| && data <= file[start..]
    ensures start + |data| <= |file| && data == file[start..start + |data|]
  {
  }

  lemma PrefixDrop(a: seq<Digest>, b: seq<Digest>, q: nat)
    requires a <= b && q <= |a|
    ensures a[q..] <= b[q..]
  {
  }

  /** Data that passed flush is the part of the file it claims to be and ends with a block of it, or two of the inputs
      hashed on the two sides collide. */
  lemma AcceptedIsFile(tiger: Hasher, expected: TreeValue, file: seq<byte>, start: nat, data: seq<byte>)
    requires IsTreeOf(tiger, expected, file) && |expected.leaves| <= INDEX_RANGE
    requires GoodStart(expected, start, |data|) && Accepted(tiger, expected, start, data)
    requires start <= |file| && data != []
    ensures var leaves := CheckedLeaves(tiger, expected, start, data);
            || Genuine(file, start, data, expected.blockSize)
            || Collision(tiger, TreeInputs(tiger, leaves), TreeInputs(tiger, expected.leaves))
            || Collision(tiger, BlockInputs(tiger, data, expected.blockSize),
                         BlockInputs(tiger, file[start..], expected.blockSize))
  {
    AcceptedPrefix(tiger, expected, file, start, data);
    if CheckedLeaves(tiger, expected, start, data) <= expected.leaves {
      SuffixLeaves(tiger, expected, file, start, data);
      BlocksBind(tiger, data, file[start..], expected.blockSize);
      if data <= file[start..] { PrefixSlice(data, file, start); }
    }
  }

  // ----- good data is let through -----

  /** The part of the file from the start position on, up to the end of a block or of the file. */
  predicate Genuine(file: seq<byte>, start: nat, data: seq<byte>, size: nat)
    requires size > 0
  {
    && start + |data| <= |file| && data == file[start..start + |data|]
    && (|data| % size == 0 || start + |data| == |file|)
  }

  /** Something was written, or there was nothing to write. */
  predicate NotSkipped(file: seq<byte>, start: nat, data: seq<byte>) {
    data != [] || start > 0 || file == []
  }

  /** Any place at the beginning of a block of the file will do. */
  lemma GoodStartInside(tiger: Hasher, expected: TreeValue, file: seq<byte>, start: nat, n: nat)
    requires IsTreeOf(tiger, expected, file) && start % expected.blockSize == 0 && start + n <= |file|
    ensures GoodStart(expected, start, n)
  {
    var size := expected.blockSize;
    var q := BlockOf(start, size);
    BlockRootsCount(tiger, file, size);
    AlignedProduct(size, start);
    if q > Blocks(|file|, size) {
      NextMultiple(size, Blocks(|file|, size), q);
      BlocksBounds(|file|, size);
    }
  }

  /** The leaves of whole blocks at the beginning are the first leaves. */
  lemma {:induction false} BlockRootsPrefix(tiger: Hasher, a: seq<byte>, b: seq<byte>, size: nat)
    requires size > 0 && a != [] && WholeBlocksOf(a, b, size)
    ensures BlockRoots(tiger, a, size) <= BlockRoots(tiger, b, size)
    decreases |a|
  {
    if a == b {
    } else if |a| <= size {
      ShortMultiple(|a|, size);
      assert a == b[..size];
    } else {
      PlusOne(|a| - size, size);
      assert a[..size] == b[..size] && a[size..] <= b[size..];
      BlockRootsPrefix(tiger, a[size..], b[size..], size);
    }
  }

  lemma ShortMultiple(n: nat, size: nat)
    requires 0 < n <= size && n % size == 0
    ensures n == size
  {
  }

  /** The leaves of the file from a block on are the last leaves. */
  lemma ExpectedFrom(tiger: Hasher, expected: TreeValue, file: seq<byte>, start: nat)
    requires IsTreeOf(tiger, expected, file) && start % expected.blockSize == 0 && (start == 0 || start < |file|)
    ensures var q := BlockOf(start, expected.blockSize);
            && q <= |expected.leaves| && TakenLeaves(expected, start) == expected.leaves[..q]
            && expected.leaves[q..] == BlockRoots(tiger, file[start..], expected.blockSize)
  {
    AlignedProduct(expected.blockSize, start);
    BlockRootsDrop(tiger, file, expected.blockSize, BlockOf(start, expected.blockSize), start);
  }

  lemma PrefixJoin(all: seq<Digest>, q: nat, more: seq<Digest>)
    requires q <= |all| && more <= all[q..]
    ensures all[..q] + more <= all
  {
  }

  /** The leaves of genuine data are among the expected ones. */
  lemma GenuineLeaves(tiger: Hasher, expected: TreeValue, file: seq<byte>, start: nat, data: seq<byte>)
    requires IsTreeOf(tiger, expected, file) && start % expected.blockSize == 0
    requires Genuine(file, start, data, expected.blockSize) && NotSkipped(file, start, data)
    ensures CheckedLeaves(tiger, expected, start, data) <= expected.leaves
  {
    var q := BlockOf(start, expected.blockSize);
    GoodStartInside(tiger, expected, file, start, |data|);
    if data == [] && start > 0 {
      AlignedProduct(expected.blockSize, start);
      assert TakenLeaves(expected, start) != [];
    } else if data == [] {
      assert expected.leaves == BlockRoots(tiger, [], expected.blockSize);
    } else {
      ExpectedFrom(tiger, expected, file, start);
      assert data <= file[start..];
      BlockRootsPrefix(tiger, data, file[start..], expected.blockSize);
      PrefixJoin(expected.leaves, q, BlockRoots(tiger, data, expected.blockSize));
    }
  }

  /** Flush lets through every part of the file from the beginning of a block to the end of one, or to the end. */
  lemma GenuineAccepted(tiger: Hasher, expected: TreeValue, file: seq<byte>, start: nat, data: seq<byte>)
    requires IsTreeOf(tiger, expected, file) && |expected.leaves| <= INDEX_RANGE && start % expected.blockSize == 0
    requires Genuine(file, start, data, expected.blockSize) && NotSkipped(file, start, data)
    ensures GoodStart(expected, start, |data|) && Accepted(tiger, expected, start, data)
  {
    GoodStartInside(tiger, expected, file, start, |data|);
    GenuineLeaves(tiger, expected, file, start, data);
    var leaves := CheckedLeaves(tiger, expected, start, data);
    if |leaves| == |expected.leaves| {
      assert leaves == expected.leaves;
      WholeRead(leaves);
      FinalTree(tiger, file, expected.blockSize);
    }
  }

  /** The leaves finished so far of the beginning of some data are its first leaves. */
  lemma {:induction false} FinishedPrefix(tiger: Hasher, fed: seq<byte>, data: seq<byte>, size: nat)
    requires size >= BASE_BLOCK_SIZE && |fed| % BASE_BLOCK_SIZE == 0 && fed <= data
    ensures FullBlocks(tiger, FedBase(tiger, fed), Unit(size)) <= BlockRoots(tiger, data, size)
    decreases |fed|
  {
    var u, base := Unit(size), FedBase(tiger, fed);
    if u > 0 && |base| >= u {
      WholeBase(fed, u);
      var head, rest := fed[..size], fed[size..];
      assert fed == head + rest && head == data[..size];
      FirstLeaf(tiger, head, rest, size, u, base);
      FinishedPrefix(tiger, rest, data[size..], size);
      LeavesFollow(tiger, data, size, FullBlocks(tiger, FedBase(tiger, rest), u));
    }
  }

  /** As many base hashes as make a leaf come from as many bytes. */
  lemma WholeBase(fed: seq<byte>, u: nat)
    requires |fed| % BASE_BLOCK_SIZE == 0 && fed != [] && Blocks(|fed|, BASE_BLOCK_SIZE) >= u
    ensures |fed| >= BASE_BLOCK_SIZE * u
  {
    BlocksUnique(|fed|, BASE_BLOCK_SIZE, |fed| / BASE_BLOCK_SIZE);
  }

  lemma CutAt(all: seq<Digest>, front: seq<Digest>, rest: seq<Digest>, u: nat)
    requires all == front + rest && |front| == u
    ensures |all| >= u && all[..u] == front && all[u..] == rest
  {
  }

  lemma FirstLeaf(tiger: Hasher, head: seq<byte>, rest: seq<byte>, size: nat, u: nat, base: seq<Digest>)
    requires size >= BASE_BLOCK_SIZE && u == Unit(size) && u > 0 && |head| == size
    requires base == FedBase(tiger, head + rest)
    ensures |base| >= u && TreeOf(tiger, base[..u]) == Root(tiger, head) && base[u..] == FedBase(tiger, rest)
  {
    assert size == BASE_BLOCK_SIZE * u;
    BlocksUnique(size, BASE_BLOCK_SIZE, u);
    RootIsTreeOfBase(tiger, head);
    if rest == [] {
      assert head + rest == head;
      CutAt(base, BaseHashes(tiger, head), [], u);
    } else {
      BaseHashesConcat(tiger, head, rest);
      CutAt(base, BaseHashes(tiger, head), BaseHashes(tiger, rest), u);
    }
  }

  lemma LeavesFollow(tiger: Hasher, data: seq<byte>, size: nat, more: seq<Digest>)
    requires 0 < size <= |data| && more <= BlockRoots(tiger, data[size..], size)
    requires |data| == size ==> more == []
    ensures [Root(tiger, data[..size])] + more <= BlockRoots(tiger, data, size)
  {
    assert |data| == size ==> data[..size] == data;
  }

  /** No write rejects data that goes on as the file does. */
  lemma WrittenFits(tiger: Hasher, expected: TreeValue, file: seq<byte>, start: nat, fed: seq<byte>)
    requires IsTreeOf(tiger, expected, file) && start % expected.blockSize == 0
    requires |fed| % BASE_BLOCK_SIZE == 0 && start + |fed| <= |file| && fed == file[start..start + |fed|]
    ensures TakenLeaves(expected, start) + FullBlocks(tiger, FedBase(tiger, fed), Unit(expected.blockSize))
            <= expected.leaves
  {
    var size, u := expected.blockSize, Unit(expected.blockSize);
    if fed == [] {
      assert FullBlocks(tiger, [], u) == [];
      assert TakenLeaves(expected, start) + [] == TakenLeaves(expected, start);
    } else {
      ExpectedFrom(tiger, expected, file, start);
      assert fed <= file[start..];
      FinishedPrefix(tiger, fed, file[start..], size);
      PrefixJoin(expected.leaves, BlockOf(start, size), FullBlocks(tiger, FedBase(tiger, fed), u));
    }
  }

  /** What has been fed is the beginning of what is still to come. */
  lemma FedOfFile(file: seq<byte>, start: nat, data: seq<byte>, written: seq<byte>, fed: seq<byte>, size: nat)
    requires size > 0 && Genuine(file, start, data, size) && fed <= written <= data
    ensures start + |fed| <= |file| && fed == file[start..start + |fed|]
  {
  }

  /** What the checks are worth, when the expected tree is that of a file. */
  ghost predicate TreeOfFile(tiger: Hasher, expected: TreeValue, file: seq<byte>) {
    IsTreeOf(tiger, expected, file) && |expected.leaves| <= INDEX_RANGE
  }

  /** A download written in any pieces: every genuine part of the file gets through, and whatever does is genuine, or
      two of the inputs hashed collide. */
  method CheckDownload(tiger: Hasher, expected: TreeValue, start: nat, writes: seq<seq<byte>>, ghost file: seq<byte>)
    returns (ok: bool)
    requires GoodStart(expected, start, |Concat(writes)|)
    ensures var data := Concat(writes);
            && TreeOfFile(tiger, expected, file)
            && Genuine(file, start, data, expected.blockSize) && NotSkipped(file, start, data)
            ==> ok
    ensures var data := Concat(writes);
            ok && TreeOfFile(tiger, expected, file) && start <= |file| && data != [] ==>
              || Genuine(file, start, data, expected.blockSize)
              || Collision(tiger, TreeInputs(tiger, CheckedLeaves(tiger, expected, start, data)),
                           TreeInputs(tiger, expected.leaves))
              || Collision(tiger, BlockInputs(tiger, data, expected.blockSize),
                           BlockInputs(tiger, file[start..], expected.blockSize))
  {
    var stream := new MerkleCheckOutputStream(tiger, expected, start);
    for k := 0 to |writes|
      invariant fresh(stream) && fresh(stream.cur) && fresh(stream.buf) && stream.Valid()
      invariant stream.expected == expected && stream.start == start && stream.cur.tiger == tiger
      invariant stream.Written() == Concat(writes[..k])
    {
      ConcatMore(writes, k);
      ok := stream.Write(writes[k]);
      if !ok {
        NotGenuine(tiger, expected, start, writes, k + 1, file, stream.fed, stream.Written(), stream.cur.leaves);
        return;
      }
    }
    assert writes[..|writes|] == writes;
    ok := stream.Flush();
    CheckWorth(tiger, expected, start, Concat(writes), file);
  }

  lemma ConcatMore(writes: seq<seq<byte>>, k: nat)
    requires k < |writes|
    ensures Concat(writes[..k + 1]) == Concat(writes[..k]) + writes[k]
  {
    assert writes[..k + 1][..k] == writes[..k];
  }

  lemma {:induction false} ConcatPrefix(writes: seq<seq<byte>>, k: nat)
    requires k <= |writes|
    ensures Concat(writes[..k]) <= Concat(writes)
    decreases |writes| - k
  {
    if k < |writes| {
      ConcatMore(writes, k);
      ConcatPrefix(writes, k + 1);
    } else {
      assert writes[..k] == writes;
    }
  }

  lemma NotGenuine(tiger: Hasher, expected: TreeValue, start: nat, writes: seq<seq<byte>>, k: nat, file: seq<byte>,
                   fed: seq<byte>, written: seq<byte>, leaves: seq<Digest>)
    requires GoodStart(expected, start, |Concat(writes)|) && k <= |writes| && written == Concat(writes[..k])
    requires fed <= written && |fed| % BASE_BLOCK_SIZE == 0 && !(leaves <= expected.leaves)
    requires leaves == TakenLeaves(expected, start) + FullBlocks(tiger, FedBase(tiger, fed), Unit(expected.blockSize))
    ensures !(TreeOfFile(tiger, expected, file) && Genuine(file, start, Concat(writes), expected.blockSize))
  {
    if TreeOfFile(tiger, expected, file) && Genuine(file, start, Concat(writes), expected.blockSize) {
      ConcatPrefix(writes, k);
      FedOfFile(file, start, Concat(writes), written, fed, expected.blockSize);
      WrittenFits(tiger, expected, file, start, fed);
    }
  }

  /** Both directions for flush. */
  lemma CheckWorth(tiger: Hasher, expected: TreeValue, start: nat, data: seq<byte>, file: seq<byte>)
    requires GoodStart(expected, start, |data|)
    ensures && TreeOfFile(tiger, expected, file)
            && Genuine(file, start, data, expected.blockSize) && NotSkipped(file, start, data)
            ==> Accepted(tiger, expected, start, data)
    ensures Accepted(tiger, expected, start, data) && TreeOfFile(tiger, expected, file) && start <= |file| && data != []
            ==>
              || Genuine(file, start, data, expected.blockSize)
              || Collision(tiger, TreeInputs(tiger, CheckedLeaves(tiger, expected, start, data)),
                           TreeInputs(tiger, expected.leaves))
              || Collision(tiger, BlockInputs(tiger, data, expected.blockSize),
                           BlockInputs(tiger, file[start..], expected.blockSize))
  {
    if TreeOfFile(tiger, expected, file) {
      if Genuine(file, start, data, expected.blockSize) && NotSkipped(file, start, data) {
        GenuineAccepted(tiger, expected, file, start, data);
      }
      if Accepted(tiger, expected, start, data) && start <= |file| && data != [] {
        AcceptedIsFile(tiger, expected, file, start, data);
      }
    }
  }
}
