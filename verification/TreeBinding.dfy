/** What a tree hash binds: two pieces of data with the same root are the same data, or hashing
    them fed two different inputs with the same digest to the hash function. The 0x00 and 0x01
    prefixes make this hold for data of any two lengths. */
module TreeBinding {
  import opened TreeHash
  import opened TreeStreaming

  /** Every input given to the hash function on the way to Root. */
  function Inputs(tiger: Hasher, data: seq<byte>): set<seq<byte>>
    decreases |data|
  {
    if |data| <= BASE_BLOCK_SIZE then {[0] + data}
    else
      var k := SplitBytes(|data|);
      {[1] + Root(tiger, data[..k]) + Root(tiger, data[k..])} + Inputs(tiger, data[..k]) + Inputs(tiger, data[k..])
  }

  ghost predicate Collision(tiger: Hasher, xs: set<seq<byte>>, ys: set<seq<byte>>) {
    exists x, y :: x in xs && y in ys && x != y && tiger(x) == tiger(y)
  }

  lemma CollisionIn(tiger: Hasher, xs: set<seq<byte>>, ys: set<seq<byte>>, x: seq<byte>, y: seq<byte>)
    requires x in xs && y in ys && x != y && tiger(x) == tiger(y)
    ensures Collision(tiger, xs, ys)
  {
  }

  lemma CollisionGrows(tiger: Hasher, xs: set<seq<byte>>, ys: set<seq<byte>>, xs': set<seq<byte>>, ys': set<seq<byte>>)
    requires Collision(tiger, xs, ys) && xs <= xs' && ys <= ys'
    ensures Collision(tiger, xs', ys')
  {
    var x, y :| x in xs && y in ys && x != y && tiger(x) == tiger(y);
    CollisionIn(tiger, xs', ys', x, y);
  }

  /** The last input hashed for a root. */
  function TopInput(tiger: Hasher, data: seq<byte>): (x: seq<byte>)
    ensures x in Inputs(tiger, data) && tiger(x) == Root(tiger, data)
  {
    if |data| <= BASE_BLOCK_SIZE then [0] + data
    else
      var k := SplitBytes(|data|);
      [1] + Root(tiger, data[..k]) + Root(tiger, data[k..])
  }

  lemma NodeInputsEqual(a: Digest, b: Digest, c: Digest, d: Digest)
    requires [1] + a + b == [1] + c + d
    ensures a == c && b == d
  {
    var x, y := [1] + a + b, [1] + c + d;
    assert x[1..][..BYTES] == a && y[1..][..BYTES] == c;
    assert x[1..][BYTES..] == b && y[1..][BYTES..] == d;
  }

  lemma {:induction false} RootBinds(tiger: Hasher, a: seq<byte>, b: seq<byte>)
    requires Root(tiger, a) == Root(tiger, b)
    ensures a == b || Collision(tiger, Inputs(tiger, a), Inputs(tiger, b))
    decreases |a|
  {
    var x, y := TopInput(tiger, a), TopInput(tiger, b);
    if x != y {
      CollisionIn(tiger, Inputs(tiger, a), Inputs(tiger, b), x, y);
    } else if |a| <= BASE_BLOCK_SIZE {
      assert x[0] == 0 && y[0] == 0;
      assert x[1..] == a && y[1..] == b;
    } else {
      assert x[0] == 1 && y[0] == 1;
      assert |b| > BASE_BLOCK_SIZE;
      var k, l := SplitBytes(|a|), SplitBytes(|b|);
      NodeInputsEqual(Root(tiger, a[..k]), Root(tiger, a[k..]), Root(tiger, b[..l]), Root(tiger, b[l..]));
      RootBinds(tiger, a[..k], b[..l]);
      RootBinds(tiger, a[k..], b[l..]);
      if a[..k] == b[..l] && a[k..] == b[l..] {
        assert a == a[..k] + a[k..] && b == b[..l] + b[l..];
      } else if a[..k] != b[..l] {
        CollisionGrows(tiger, Inputs(tiger, a[..k]), Inputs(tiger, b[..l]), Inputs(tiger, a), Inputs(tiger, b));
      } else {
        CollisionGrows(tiger, Inputs(tiger, a[k..]), Inputs(tiger, b[l..]), Inputs(tiger, a), Inputs(tiger, b));
      }
    }
  }

  // ----- the same for lists of leaves -----

  function TreeInputs(tiger: Hasher, hs: seq<Digest>): set<seq<byte>>
    requires hs != []
    decreases |hs|
  {
    if |hs| == 1 then {}
    else
      var k := Split(|hs|);
      {[1] + TreeOf(tiger, hs[..k]) + TreeOf(tiger, hs[k..])} + TreeInputs(tiger, hs[..k]) + TreeInputs(tiger, hs[k..])
  }

  lemma {:induction false} TreeBinds(tiger: Hasher, a: seq<Digest>, b: seq<Digest>)
    requires |a| == |b| > 0 && TreeOf(tiger, a) == TreeOf(tiger, b)
    ensures a == b || Collision(tiger, TreeInputs(tiger, a), TreeInputs(tiger, b))
    decreases |a|
  {
    if |a| > 1 {
      var k := Split(|a|);
      var x, y := [1] + TreeOf(tiger, a[..k]) + TreeOf(tiger, a[k..]),
          [1] + TreeOf(tiger, b[..k]) + TreeOf(tiger, b[k..]);
      if x != y {
        CollisionIn(tiger, TreeInputs(tiger, a), TreeInputs(tiger, b), x, y);
      } else {
        NodeInputsEqual(TreeOf(tiger, a[..k]), TreeOf(tiger, a[k..]), TreeOf(tiger, b[..k]), TreeOf(tiger, b[k..]));
        TreeBinds(tiger, a[..k], b[..k]);
        TreeBinds(tiger, a[k..], b[k..]);
        if a[..k] == b[..k] && a[k..] == b[k..] {
          assert a == a[..k] + a[k..] && b == b[..k] + b[k..];
        } else if a[..k] != b[..k] {
          CollisionGrows(tiger, TreeInputs(tiger, a[..k]), TreeInputs(tiger, b[..k]), TreeInputs(tiger, a),
              TreeInputs(tiger, b));
        } else {
          CollisionGrows(tiger, TreeInputs(tiger, a[k..]), TreeInputs(tiger, b[k..]), TreeInputs(tiger, a),
              TreeInputs(tiger, b));
        }
      }
    }
  }

  // ----- blocks of a file -----

  /** Every input hashed for the leaves of some data. */
  function BlockInputs(tiger: Hasher, data: seq<byte>, size: nat): set<seq<byte>>
    requires size > 0
    decreases |data|
  {
    if |data| <= size then Inputs(tiger, data)
    else Inputs(tiger, data[..size]) + BlockInputs(tiger, data[size..], size)
  }

  /** The beginning of some data up to the end of one of its blocks. */
  predicate WholeBlocksOf(a: seq<byte>, b: seq<byte>, size: nat)
    requires size > 0
  {
    a <= b && (|a| % size == 0 || |a| == |b|)
  }

  lemma OneBlockMore(a: seq<byte>, b: seq<byte>, size: nat)
    requires 0 < size < |a| && size < |b| && a[..size] == b[..size] && WholeBlocksOf(a[size..], b[size..], size)
    ensures WholeBlocksOf(a, b, size)
  {
    assert a == a[..size] + a[size..] && b == b[..size] + b[size..];
    PlusOne(|a| - size, size);
  }

  lemma PlusOne(n: nat, size: nat)
    requires size > 0
    ensures (n + size) % size == n % size
  {
    var q, r := n / size, n % size;
    assert n + size == size * (q + 1) + r by {
      assert size * (q + 1) == size * q + size;
    }
    ModOf(n + size, size, q + 1, r);
  }

  lemma ModOf(n: nat, size: nat, q: nat, r: nat)
    requires r < size && n == size * q + r
    ensures n % size == r
  {
    var p := n / size;
    assert n == size * p + n % size;
    if p < q {
      NextMultiple(size, p, q);
    } else if p > q {
      NextMultiple(size, q, p);
    }
  }

  lemma NextMultiple(size: nat, p: nat, q: nat)
    requires p < q
    ensures size * p + size <= size * q
  {
    MulLe(size, p + 1, q);
  }

  /** Leaves that agree, from the first block on, belong to data that agrees and ends with a block. */
  lemma {:induction false} BlocksBind(tiger: Hasher, a: seq<byte>, b: seq<byte>, size: nat)
    requires size > 0 && BlockRoots(tiger, a, size) <= BlockRoots(tiger, b, size)
    ensures WholeBlocksOf(a, b, size) || Collision(tiger, BlockInputs(tiger, a, size), BlockInputs(tiger, b, size))
    decreases |a|
  {
    var a0, b0 := if |a| <= size then a else a[..size], if |b| <= size then b else b[..size];
    var la, lb := BlockRoots(tiger, a, size), BlockRoots(tiger, b, size);
    assert la[0] == lb[0];
    RootBinds(tiger, a0, b0);
    if a0 != b0 {
      CollisionGrows(tiger, Inputs(tiger, a0), Inputs(tiger, b0), BlockInputs(tiger, a, size),
          BlockInputs(tiger, b, size));
    } else if |a| > size {
      assert |b| > size by {
        assert |la| >= 2;
      }
      assert la[1..] == BlockRoots(tiger, a[size..], size) && lb[1..] == BlockRoots(tiger, b[size..], size);
      assert la[1..] <= lb[1..];
      BlocksBind(tiger, a[size..], b[size..], size);
      if WholeBlocksOf(a[size..], b[size..], size) {
        OneBlockMore(a, b, size);
      } else {
        CollisionGrows(tiger, BlockInputs(tiger, a[size..], size), BlockInputs(tiger, b[size..], size),
                       BlockInputs(tiger, a, size), BlockInputs(tiger, b, size));
      }
    } else {
      assert |b| <= size ==> a == b;
      assert |b| > size ==> a == b[..size] && |a| % size == 0;
    }
  }
}
