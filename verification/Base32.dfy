/** Base32 as in section 6 of RFC 4648, without padding: five bits a character, most significant
    bit first. Decoding skips what it does not recognise. */
module Base32 {
  import opened Collections

  type byte = bv8

  // ----- bits -----

  function Shr(b: byte, n: nat): byte
    requires n <= 8
  {
    if n == 0 then b else if n == 1 then b >> 1 else if n == 2 then b >> 2 else if n == 3 then b >> 3
    else if n == 4 then b >> 4 else if n == 5 then b >> 5 else if n == 6 then b >> 6 else if n == 7 then b >> 7 else 0
  }

  /** A left shift with what leaves the byte cut off. */
  function Shl(b: byte, n: nat): byte
    requires n <= 8
  {
    if n == 0 then b else if n == 1 then b << 1 else if n == 2 then b << 2 else if n == 3 then b << 3
    else if n == 4 then b << 4 else if n == 5 then b << 5 else if n == 6 then b << 6 else if n == 7 then b << 7 else 0
  }

  /** Bit k of a byte, counted from the most significant one. */
  /** The two shifts of the source on bytes. */
  lemma Shifts(b: byte, n: nat)
    requires n < 8
    ensures Shr(b, n) == (b >> n) && Shl(b, n) == (b << n)
  {
  }

  predicate Bit(b: byte, k: nat)
    requires k < 8
  {
    Shr(b, 7 - k) & 1 == 1
  }

  lemma BitsDetermine(a: byte, b: byte)
    requires forall k :: 0 <= k < 8 ==> Bit(a, k) == Bit(b, k)
    ensures a == b
  {
    assert Bit(a, 0) == Bit(b, 0) && Bit(a, 1) == Bit(b, 1) && Bit(a, 2) == Bit(b, 2) && Bit(a, 3) == Bit(b, 3);
    assert Bit(a, 4) == Bit(b, 4) && Bit(a, 5) == Bit(b, 5) && Bit(a, 6) == Bit(b, 6) && Bit(a, 7) == Bit(b, 7);
  }

  /** Bit p of some bytes, and no bit past their end. */
  predicate BitAt(data: seq<byte>, p: nat) {
    p / 8 < |data| && Bit(data[p / 8], p % 8)
  }

  /** Bit p of a stream of five-bit values, and no bit past its end. */
  predicate StreamBit(values: seq<byte>, p: nat) {
    p / 5 < |values| && Bit(values[p / 5], 3 + p % 5)
  }

  // ----- the alphabet -----

  const ALPHABET := "ABCDEFGHIJKLMNOPQRSTUVWXYZ234567"

  /** The decoding table: both cases of the letters, and 2 to 7. */
  function Value(c: char): (v: Option<byte>)
    ensures v.Some? ==> v.value < 32
  {
    if 'A' <= c <= 'Z' then Some((c as int - 'A' as int) as byte)
    else if 'a' <= c <= 'z' then Some((c as int - 'a' as int) as byte)
    else if '2' <= c <= '7' then Some((c as int - '2' as int + 26) as byte)
    else None
  }

  /** The alphabet of section 6 of RFC 4648: A to Z are 0 to 25, and 2 to 7 are 26 to 31. */
  lemma Alphabet(word: byte)
    requires word < 32
    ensures Letter(word) as int == if word < 26 then 'A' as int + word as int else '2' as int + (word as int - 26)
  {
  }

  function Letter(word: byte): (c: char)
    requires word < 32
    ensures Value(c) == Some(word) && c != '\0'
  {
    LetterValue(word as int);
    ALPHABET[word as int]
  }

  lemma LetterValue(w: nat)
    requires w < 32
    ensures Value(ALPHABET[w]) == Some(w as byte) && ALPHABET[w] != '\0'
  {
    AlphabetAt(w);
    CodeValue(ALPHABET[w], w);
  }

  lemma AlphabetAt(w: nat)
    requires w < 32
    ensures ALPHABET[w] as int == if w < 26 then 'A' as int + w else '2' as int + w - 26
  {
  }

  lemma CodeValue(c: char, w: nat)
    requires w < 32 && c as int == if w < 26 then 'A' as int + w else '2' as int + w - 26
    ensures Value(c) == Some(w as byte) && c != '\0'
  {
  }

  /** The recognised values of a string, up to a terminating NUL. */
  function Values(s: string): (vs: seq<byte>)
    ensures forall i :: 0 <= i < |vs| ==> vs[i] < 32
  {
    if s == "" || s[0] == '\0' then []
    else if Value(s[0]).Some? then [Value(s[0]).value] + Values(s[1..])
    else Values(s[1..])
  }

  // ----- encoding -----

  /** The next five bits, from bit index of b on, the missing ones from next. */
  function Word(b: byte, next: byte, index: nat): (word: byte)
    requires index < 8
    ensures word < 32
  {
    if index > 3 then
      var rest := (index + 5) % 8;
      WordFits(b, next, index);
      Shl(b & Shr(0xFF, index), rest) | Shr(next, 8 - rest)
    else Shr(b, 3 - index) & 0x1F
  }

  lemma WordFits(b: byte, next: byte, index: nat)
    requires 3 < index < 8
    ensures Shl(b & Shr(0xFF, index), (index + 5) % 8) | Shr(next, 8 - (index + 5) % 8) < 32
  {
    if index == 4 {} else if index == 5 {} else if index == 6 {} else {}
  }

  lemma WordBits(b: byte, next: byte, index: nat, j: nat)
    requires index < 8 && j < 5
    ensures Bit(Word(b, next, index), 3 + j) == if index + j < 8 then Bit(b, index + j) else Bit(next, index + j - 8)
  {
    if index == 0 {} else if index == 1 {} else if index == 2 {} else if index == 3 {}
    else if index == 4 {} else if index == 5 {} else if index == 6 {} else {}
  }

  lemma NextWord(src: seq<byte>, i: nat, index: nat, start: nat)
    requires i < |src| && index < 8 && start == 8 * i + index
    ensures var next := if i + 1 < |src| then src[i + 1] else 0;
            forall p :: start <= p < start + 5 ==> BitAt(src, p) == Bit(Word(src[i], next, index), 3 + (p - start))
  {
    var next := if i + 1 < |src| then src[i + 1] else 0;
    forall p | start <= p < start + 5 ensures BitAt(src, p) == Bit(Word(src[i], next, index), 3 + (p - start)) {
      var j := p - start;
      WordBits(src[i], next, index, j);
      if index + j < 8 {
        BitPosition(i, index + j);
      } else {
        BitPosition(i + 1, index + j - 8);
        ZeroBits(index + j - 8);
      }
    }
  }

  lemma BitPosition(i: nat, k: nat)
    requires k < 8
    ensures (8 * i + k) / 8 == i && (8 * i + k) % 8 == k
  {
  }

  lemma ZeroBits(k: nat)
    requires k < 8
    ensures !Bit(0, k)
  {
  }

  lemma {:induction false} ValuesAppend(s: string, word: byte)
    requires '\0' !in s && word < 32
    ensures Values(s + [Letter(word)]) == Values(s) + [word]
  {
    if s == "" {
      assert s + [Letter(word)] == [Letter(word)];
      assert [Letter(word)][1..] == "";
    } else {
      assert (s + [Letter(word)])[1..] == s[1..] + [Letter(word)];
      ValuesAppend(s[1..], word);
    }
  }

  /** The values carry the first n bits of the data. */
  ghost predicate Carries(data: seq<byte>, values: seq<byte>, n: nat) {
    forall p :: 0 <= p < n ==> StreamBit(values, p) == BitAt(data, p)
  }

  lemma MoreBits(src: seq<byte>, values: seq<byte>, word: byte, start: nat)
    requires start == 5 * |values| && Carries(src, values, start)
    requires forall p :: start <= p < start + 5 ==> BitAt(src, p) == Bit(word, 3 + (p - start))
    ensures Carries(src, values + [word], start + 5)
  {
    forall p | 0 <= p < start + 5 ensures StreamBit(values + [word], p) == BitAt(src, p) {
      if p < start {
        assert StreamBit(values, p) == BitAt(src, p);
        assert p / 5 < |values|;
      } else {
        WordPosition(|values|, p - start);
      }
    }
  }

  lemma WordPosition(i: nat, k: nat)
    requires k < 5
    ensures (5 * i + k) / 5 == i && (5 * i + k) % 5 == k
  {
  }

  /** Where the bit after a word is. */
  lemma BitAfter(index: nat)
    requires index < 8
    ensures (index + 5) % 8 == if index < 3 then index + 5 else index - 3
  {
  }

  /** One round of the encoder: the word that starts at bit index of src[i], and where the next one starts. */
  method TakeWord(src: seq<byte>, i: nat, index: nat) returns (word: byte, j: nat, next: nat)
    requires i < |src| && index < 8
    ensures next < 8 && 8 * j + next == 8 * i + index + 5
    ensures word == Word(src[i], if i + 1 < |src| then src[i + 1] else 0, index)
  {
    BitAfter(index);
    j := i;
    if index > 3 {
      word := src[i] & Shr(0xFF, index);
      next := (index + 5) % 8;
      word := Shl(word, next);
      if i + 1 < |src| {
        word := word | Shr(src[i + 1], 8 - next);
      }
      j := j + 1;
    } else {
      word := Shr(src[i], 8 - (index + 5)) & 0x1F;
      next := (index + 5) % 8;
      if next == 0 {
        j := j + 1;
      }
    }
  }

  /** Letters of the alphabet that carry the bits of the data in order, filled up with zeros to whole letters. */
  ghost predicate Encodes(code: string, src: seq<byte>) {
    && (forall c :: c in code ==> c in ALPHABET)
    && |code| == |Values(code)| == (8 * |src| + 4) / 5
    && Carries(src, Values(code), 5 * |code|)
  }

  lemma CarriedBits(values: seq<byte>, b: byte, i: nat, k: nat)
    requires |values| == 2 && Carries([b], values, 10) && i < 2 && k < 5
    ensures Bit(values[i], 3 + k) == (5 * i + k < 8 && Bit(b, 5 * i + k))
  {
    var p := 5 * i + k;
    WordPosition(i, k);
    assert StreamBit(values, p) == BitAt([b], p);
  }

  /** A byte becomes two values: its upper five bits, and the lower three with zeros behind them. */
  lemma OneByte(values: seq<byte>, b: byte)
    requires |values| == 2 && Carries([b], values, 10) && values[0] < 32 && values[1] < 32
    ensures values[0] == b >> 3 && values[1] == (b & 7) << 2
  {
    forall k | 0 <= k < 8
      ensures Bit(values[0], k) == Bit(b >> 3, k) && Bit(values[1], k) == Bit((b & 7) << 2, k) {
      if k >= 3 {
        CarriedBits(values, b, 0, k - 3);
        CarriedBits(values, b, 1, k - 3);
      }
      BitsOfParts(b, k);
      SmallBits(values[0], k);
      SmallBits(values[1], k);
    }
    BitsDetermine(values[0], b >> 3);
    BitsDetermine(values[1], (b & 7) << 2);
  }

  lemma SmallBits(w: byte, k: nat)
    requires w < 32 && k < 8
    ensures k < 3 ==> !Bit(w, k)
  {
    if k == 0 {} else if k == 1 {} else if k == 2 {}
  }

  lemma BitsOfParts(b: byte, k: nat)
    requires k < 8
    ensures Bit(b >> 3, k) == (k >= 3 && Bit(b, k - 3))
    ensures Bit((b & 7) << 2, k) == (3 <= k < 6 && Bit(b, k + 2))
  {
    if k == 0 {} else if k == 1 {} else if k == 2 {} else if k == 3 {}
    else if k == 4 {} else if k == 5 {} else if k == 6 {} else {}
  }

  /** The first test vector of section 10 of RFC 4648: "f" becomes the values of "MY". */
  lemma FirstVector(code: string)
    requires Encodes(code, [0x66])
    ensures Values(code) == [12, 24] && Letter(12) == 'M' && Letter(24) == 'Y'
  {
    OneByte(Values(code), 0x66);
    assert ALPHABET[12] == 'M' && ALPHABET[24] == 'Y';
  }

  /** Appends the encoding of the data. */
  method ToBase32(src: seq<byte>, into: string) returns (dst: string)
    ensures into <= dst && Encodes(dst[|into|..], src)
  {
    dst := into;
    var i, index := 0, 0;
    ghost var code := "";
    while i < |src|
      invariant index < 8 && dst == into + code && '\0' !in code
      invariant 5 * |code| == 8 * i + index && (i >= |src| ==> 8 * i + index < 8 * |src| + 5)
      invariant forall c :: c in code ==> c in ALPHABET
      invariant |Values(code)| == |code| && Carries(src, Values(code), 5 * |code|)
      decreases |src| - i, 8 - index
    {
      var word, j, next := TakeWord(src, i, index);
      NextWord(src, i, index, 5 * |code|);
      MoreBits(src, Values(code), word, 5 * |code|);
      ValuesAppend(code, word);
      i, index := j, next;
      dst := dst + [Letter(word)];
      code := code + [Letter(word)];
    }
    assert dst[|into|..] == code;
  }

  // ----- decoding -----

  /** Adds a five-bit value to a byte whose bits from index on are still zero; what does not fit is cut off. */
  lemma HighPart(d: byte, w: byte, index: nat, k: nat)
    requires index < 8 && k < 8 && w < 32
    requires forall q :: index <= q < 8 ==> !Bit(d, q)
    ensures Bit(d | Placed(w, index), k) == if k < index then Bit(d, k) else k < index + 5 && Bit(w, 3 + k - index)
  {
    PlacedBits(w, index, k);
    OrBits(d, Placed(w, index), k);
    if k >= index {
      assert !Bit(d, k);
    }
  }

  /** A five-bit value moved to start at bit index. */
  function Placed(w: byte, index: nat): byte
    requires index < 8
  {
    if index <= 3 then Shl(w, 3 - index) else Shr(w, index - 3)
  }

  lemma PlacedBits(w: byte, index: nat, k: nat)
    requires index < 8 && k < 8 && w < 32
    ensures Bit(Placed(w, index), k) == (index <= k < index + 5 && Bit(w, 3 + k - index))
  {
    if index == 0 {} else if index == 1 {} else if index == 2 {} else if index == 3 {}
    else if index == 4 {} else if index == 5 {} else if index == 6 {} else {}
  }

  lemma OrBits(a: byte, b: byte, k: nat)
    requires k < 8
    ensures Bit(a | b, k) == (Bit(a, k) || Bit(b, k))
  {
    if k == 0 {} else if k == 1 {} else if k == 2 {} else if k == 3 {}
    else if k == 4 {} else if k == 5 {} else if k == 6 {} else {}
  }

  /** What a byte boundary cuts off opens the next byte. */
  lemma LowPart(w: byte, index: nat, k: nat)
    requires 3 < index < 8 && k < 8
    ensures Bit(Shl(w, 11 - index), k) == (k + 8 < index + 5 && Bit(w, 11 + k - index))
  {
    if index == 4 {} else if index == 5 {} else if index == 6 {} else {}
  }

  /** Stores the value w at bit 8 * offset + index, unless that runs past the end. */
  method PutWord(dst: array<byte>, offset: nat, index: nat, w: byte) returns (o: nat, next: nat)
    requires offset < dst.Length && index < 8 && w < 32
    modifies dst
    ensures offset <= o <= dst.Length && next < 8 && 8 * o + next == 8 * offset + index + 5
    ensures dst[offset] == old(dst[offset]) | Placed(w, index)
    ensures index > 3 && offset + 1 < dst.Length ==> dst[offset + 1] == old(dst[offset + 1]) | Shl(w, 11 - index)
    ensures forall k :: 0 <= k < dst.Length && k != offset && (index <= 3 || k != offset + 1) ==> dst[k] == old(dst[k])
  {
    o := offset;
    if index <= 3 {
      next := (index + 5) % 8;
      if next == 0 {
        dst[o] := dst[o] | w;
        o := o + 1;
      } else {
        dst[o] := dst[o] | Shl(w, 8 - next);
      }
    } else {
      next := (index + 5) % 8;
      dst[o] := dst[o] | Shr(w, next);
      o := o + 1;
      if o < dst.Length {
        dst[o] := dst[o] | Shl(w, 8 - next);
      }
    }
  }

  lemma StreamAppend(values: seq<byte>, w: byte, p: nat)
    ensures StreamBit(values + [w], p) ==
            if p < 5 * |values| then StreamBit(values, p) else p < 5 * |values| + 5 && Bit(w, 3 + (p - 5 * |values|))
  {
    if 5 * |values| <= p < 5 * |values| + 5 {
      WordPosition(|values|, p - 5 * |values|);
    }
  }

  /** One bit of a byte that carries bits 8 * q and up. */
  lemma BitOf(data: seq<byte>, values: seq<byte>, q: nat, k: nat)
    requires q < |data| && k < 8 && Carries(data, values, 8 * |data|)
    ensures Bit(data[q], k) == StreamBit(values, 8 * q + k)
  {
    BitPosition(q, k);
    assert StreamBit(values, 8 * q + k) == BitAt(data, 8 * q + k);
  }

  lemma NothingBeyond(values: seq<byte>, p: nat)
    requires p >= 5 * |values|
    ensures !StreamBit(values, p)
  {
  }

  lemma PutHere(d: seq<byte>, values: seq<byte>, w: byte, offset: nat, index: nat, k: nat)
    requires offset < |d| && index < 8 && k < 8 && w < 32 && 5 * |values| == 8 * offset + index
    requires Carries(d, values, 8 * |d|)
    ensures Bit(d[offset] | Placed(w, index), k) == StreamBit(values + [w], 8 * offset + k)
  {
    forall j | 0 <= j < 8 ensures Bit(d[offset], j) == StreamBit(values, 8 * offset + j) {
      BitOf(d, values, offset, j);
    }
    forall j | index <= j < 8 ensures !Bit(d[offset], j) {
      NothingBeyond(values, 8 * offset + j);
    }
    HighPart(d[offset], w, index, k);
    StreamAppend(values, w, 8 * offset + k);
  }

  lemma PutNext(d: seq<byte>, values: seq<byte>, w: byte, q: nat, index: nat, k: nat)
    requires q < |d| && 3 < index < 8 && k < 8 && w < 32 && 5 * |values| + 8 == 8 * q + index
    requires Carries(d, values, 8 * |d|)
    ensures Bit(d[q] | Shl(w, 11 - index), k) == StreamBit(values + [w], 8 * q + k)
  {
    BitOf(d, values, q, k);
    NothingBeyond(values, 8 * q + k);
    NextBits(values, w, q, index, k);
    LowPart(w, index, k);
    OrBits(d[q], Shl(w, 11 - index), k);
  }

  lemma NextBits(values: seq<byte>, w: byte, q: nat, index: nat, k: nat)
    requires 3 < index < 8 && k < 8 && 5 * |values| + 8 == 8 * q + index
    ensures StreamBit(values + [w], 8 * q + k) == (k + 8 < index + 5 && Bit(w, 11 + k - index))
  {
    StreamAppend(values, w, 8 * q + k);
  }

  lemma PutElsewhere(d: seq<byte>, values: seq<byte>, w: byte, offset: nat, index: nat, q: nat, k: nat)
    requires q < |d| && index < 8 && k < 8 && 5 * |values| == 8 * offset + index
    requires q != offset && (index <= 3 || q != offset + 1) && Carries(d, values, 8 * |d|)
    ensures Bit(d[q], k) == StreamBit(values + [w], 8 * q + k)
  {
    BitOf(d, values, q, k);
    StreamAppend(values, w, 8 * q + k);
    if 8 * q + k >= 5 * |values| {
      NothingBeyond(values, 8 * q + k);
    }
  }

  lemma PutBits(d0: seq<byte>, d1: seq<byte>, values: seq<byte>, w: byte, offset: nat, index: nat)
    requires |d0| == |d1| && offset < |d0| && index < 8 && w < 32 && 5 * |values| == 8 * offset + index
    requires Carries(d0, values, 8 * |d0|)
    requires d1[offset] == d0[offset] | Placed(w, index)
    requires index > 3 && offset + 1 < |d0| ==> d1[offset + 1] == d0[offset + 1] | Shl(w, 11 - index)
    requires forall j :: 0 <= j < |d0| && j != offset && (index <= 3 || j != offset + 1) ==> d1[j] == d0[j]
    ensures Carries(d1, values + [w], 8 * |d1|)
  {
    forall p | 0 <= p < 8 * |d1| ensures StreamBit(values + [w], p) == BitAt(d1, p) {
      var q, k := p / 8, p % 8;
      if q == offset {
        PutHere(d0, values, w, offset, index, k);
      } else if index > 3 && q == offset + 1 {
        PutNext(d0, values, w, q, index, k);
      } else {
        PutElsewhere(d0, values, w, offset, index, q, k);
      }
    }
  }

  lemma ZeroesCarryNothing(data: seq<byte>)
    requires forall k :: 0 <= k < |data| ==> data[k] == 0
    ensures Carries(data, [], 8 * |data|)
  {
    forall p | 0 <= p < 8 * |data| ensures StreamBit([], p) == BitAt(data, p) {
      ZeroBits(p % 8);
    }
  }

  /** What is past the last bit of the buffer does not matter. */
  lemma MoreDoesNotMatter(data: seq<byte>, values: seq<byte>, more: seq<byte>)
    requires Carries(data, values, 8 * |data|) && 5 * |values| >= 8 * |data|
    ensures Carries(data, values + more, 8 * |data|)
  {
    forall p | 0 <= p < 8 * |data| ensures StreamBit(values + more, p) == BitAt(data, p) {
      assert StreamBit(values, p) == BitAt(data, p);
      assert (values + more)[p / 5] == values[p / 5];
    }
  }

  /** Storing the next value where the stream ends makes the buffer carry it too. */
  method Append(dst: array<byte>, offset: nat, index: nat, w: byte, ghost values: seq<byte>) returns (o: nat, next: nat)
    requires offset < dst.Length && index < 8 && w < 32 && 5 * |values| == 8 * offset + index
    requires Carries(dst[..], values, 8 * dst.Length)
    modifies dst
    ensures o <= dst.Length && next < 8 && 8 * o + next == 5 * |values| + 5
    ensures Carries(dst[..], values + [w], 8 * dst.Length)
  {
    ghost var before := dst[..];
    o, next := PutWord(dst, offset, index, w);
    PutBits(before, dst[..], values, w, offset, index);
  }

  lemma ValuesStep(src: string, i: nat, values: seq<byte>)
    requires i < |src| && src[i] != '\0'
    ensures var rest, v := Values(src[i + 1..]), Value(src[i]);
            values + Values(src[i..]) == (if v.Some? then values + [v.value] else values) + rest
  {
    assert src[i..][1..] == src[i + 1..];
  }

  /** Fills the whole buffer: with the bits of the recognised characters, then with zeros. Without room for a byte
      there must be nothing to store. */
  method FromBase32(src: string, dst: array<byte>)
    requires dst.Length > 0 || Values(src) == []
    modifies dst
    ensures Carries(dst[..], Values(src), 8 * dst.Length)
  {
    forall k | 0 <= k < dst.Length {
      dst[k] := 0;
    }
    ZeroesCarryNothing(dst[..]);
    var i, index: nat, offset: nat := 0, 0, 0;
    ghost var values: seq<byte> := [];
    while i < |src| && src[i] != '\0'
      invariant i <= |src| && values + Values(src[i..]) == Values(src)
      invariant index < 8 && 5 * |values| == 8 * offset + index
      invariant offset < dst.Length || Values(src) == []
      invariant Carries(dst[..], values, 8 * dst.Length)
    {
      var tmp := Value(src[i]);
      ghost var rest := Values(src[i + 1..]);
      ValuesStep(src, i, values);
      i := i + 1;
      if tmp == None {
        continue;
      }
      offset, index := Append(dst, offset, index, tmp.value, values);
      values := values + [tmp.value];
      if offset == dst.Length {
        MoreDoesNotMatter(dst[..], values, rest);
        return;
      }
    }
    assert values + [] == values;
  }

  lemma {:induction false} SameBits(a: seq<byte>, b: seq<byte>, values: seq<byte>)
    requires |a| == |b| && Carries(a, values, 8 * |a|) && Carries(b, values, 8 * |b|)
    ensures a == b
  {
    forall q | 0 <= q < |a| ensures a[q] == b[q] {
      forall k | 0 <= k < 8 ensures Bit(a[q], k) == Bit(b[q], k) {
        BitOf(a, values, q, k);
        BitOf(b, values, q, k);
      }
      BitsDetermine(a[q], b[q]);
    }
  }

  /** Decoding any encoding of some data into a buffer of its size gives the data back. */
  lemma RoundTrip(data: seq<byte>, code: string, decoded: seq<byte>)
    requires Encodes(code, data)
    requires |decoded| == |data| && Carries(decoded, Values(code), 8 * |data|)
    ensures decoded == data
  {
    assert 8 * |data| <= 5 * |code|;
    SameBits(data, decoded, Values(code));
  }

  /** The round trip over the two methods, for data of any length but nothing. */
  method ThereAndBack(data: seq<byte>) returns (code: string, back: array<byte>)
    requires data != []
    ensures Encodes(code, data) && back[..] == data
  {
    code := ToBase32(data, "");
    assert code[0..] == code;
    back := new byte[|data|];
    FromBase32(code, back);
    RoundTrip(data, code, back[..]);
  }

  // ----- what decoding ignores -----

  function Upper(c: char): char {
    if 'a' <= c <= 'z' then (c as int - 'a' as int + 'A' as int) as char else c
  }

  /** The string up to its NUL in upper case, without the characters that are not in the alphabet. */
  function Cleaned(s: string): string {
    if s == "" || s[0] == '\0' then ""
    else if Upper(s[0]) in ALPHABET then [Upper(s[0])] + Cleaned(s[1..])
    else Cleaned(s[1..])
  }

  lemma Recognised(c: char)
    ensures Upper(c) in ALPHABET <==> Value(c).Some?
    ensures Value(c).Some? ==> Value(Upper(c)) == Value(c) && Upper(c) != '\0'
  {
    if Value(c).Some? {
      CapitalInAlphabet(Upper(c));
    } else if Upper(c) in ALPHABET {
      var w :| 0 <= w < 32 && ALPHABET[w] == Upper(c);
      LetterValue(w);
    }
  }

  lemma CapitalInAlphabet(c: char)
    requires 'A' <= c <= 'Z' || '2' <= c <= '7'
    ensures c in ALPHABET
  {
    var w := if c <= '7' then c as int - '2' as int + 26 else c as int - 'A' as int;
    assert ALPHABET[w] == c;
  }

  /** Letter case and unrecognised characters make no difference to what is decoded. */
  lemma {:induction false} CleanedDecodesAlike(s: string)
    ensures Values(Cleaned(s)) == Values(s) && |Cleaned(s)| == |Values(s)|
    ensures forall c :: c in Cleaned(s) ==> c in ALPHABET
  {
    if s == "" || s[0] == '\0' {
    } else {
      Recognised(s[0]);
      CleanedDecodesAlike(s[1..]);
      if Upper(s[0]) in ALPHABET {
        assert Cleaned(s)[1..] == Cleaned(s[1..]);
      }
    }
  }
}
