/** The SHA-256 compression function: the message schedule and the rounds of FIPS 180-4,
    section 6.2.2. */
module Compression {
  import opened Base

  type Byte = b: nat | b < 256
  datatype Word = Word(bits: bv32)

  const BLOCK: nat := 64

  // ----- the standard ---------------------------------------------------------------------

  const INITIAL: seq<Word> := [
    Word(0x6a09e667), Word(0xbb67ae85), Word(0x3c6ef372), Word(0xa54ff53a),
    Word(0x510e527f), Word(0x9b05688c), Word(0x1f83d9ab), Word(0x5be0cd19)]

  const ROUND_CONSTANTS: seq<bv32> := [
    0x428a2f98, 0x71374491, 0xb5c0fbcf, 0xe9b5dba5, 0x3956c25b, 0x59f111f1, 0x923f82a4, 0xab1c5ed5,
    0xd807aa98, 0x12835b01, 0x243185be, 0x550c7dc3, 0x72be5d74, 0x80deb1fe, 0x9bdc06a7, 0xc19bf174,
    0xe49b69c1, 0xefbe4786, 0x0fc19dc6, 0x240ca1cc, 0x2de92c6f, 0x4a7484aa, 0x5cb0a9dc, 0x76f988da,
    0x983e5152, 0xa831c66d, 0xb00327c8, 0xbf597fc7, 0xc6e00bf3, 0xd5a79147, 0x06ca6351, 0x14292967,
    0x27b70a85, 0x2e1b2138, 0x4d2c6dfc, 0x53380d13, 0x650a7354, 0x766a0abb, 0x81c2c92e, 0x92722c85,
    0xa2bfe8a1, 0xa81a664b, 0xc24b8b70, 0xc76c51a3, 0xd192e819, 0xd6990624, 0xf40e3585, 0x106aa070,
    0x19a4c116, 0x1e376c08, 0x2748774c, 0x34b0bcb5, 0x391c0cb3, 0x4ed8aa4a, 0x5b9cca4f, 0x682e6ff3,
    0x748f82ee, 0x78a5636f, 0x84c87814, 0x8cc70208, 0x90befffa, 0xa4506ceb, 0xbef9a3f7, 0xc67178f2]

  /** Addition modulo 2^32. */
  function Plus(x: Word, y: Word): Word { Word(x.bits + y.bits) }

  function Choose(x: Word, y: Word, z: Word): Word {
    Word((x.bits & y.bits) ^ ((!x.bits) & z.bits))
  }

  function Majority(x: Word, y: Word, z: Word): Word {
    Word((x.bits & y.bits) ^ (x.bits & z.bits) ^ (y.bits & z.bits))
  }

  function BigSigma0(x: Word): Word {
    Word(((x.bits >> 2) | (x.bits << 30)) ^ ((x.bits >> 13) | (x.bits << 19)) ^ ((x.bits >> 22) | (x.bits << 10)))
  }

  function BigSigma1(x: Word): Word {
    Word(((x.bits >> 6) | (x.bits << 26)) ^ ((x.bits >> 11) | (x.bits << 21)) ^ ((x.bits >> 25) | (x.bits << 7)))
  }

  function SmallSigma0(x: Word): Word {
    Word(((x.bits >> 7) | (x.bits << 25)) ^ ((x.bits >> 18) | (x.bits << 14)) ^ (x.bits >> 3))
  }

  function SmallSigma1(x: Word): Word {
    Word(((x.bits >> 17) | (x.bits << 15)) ^ ((x.bits >> 19) | (x.bits << 13)) ^ (x.bits >> 10))
  }

  /** Four bytes as one word, most significant first. */
  function BigEndian(a: Byte, b: Byte, c: Byte, d: Byte): Word {
    Word((a * 0x100_0000 + b * 0x1_0000 + c * 0x100 + d) as bv32)
  }

  /** The next word of a schedule, from the sixteen before it. */
  function NextWord(w: seq<Word>): Word
    requires |w| >= 16
  {
    var t := |w|;
    Plus(Plus(Plus(w[t - 16], SmallSigma0(w[t - 15])), w[t - 7]), SmallSigma1(w[t - 2]))
  }

  function BlockWord(block: seq<Byte>, t: nat): Word
    requires |block| == BLOCK && t < 16
  {
    BigEndian(block[4 * t], block[4 * t + 1], block[4 * t + 2], block[4 * t + 3])
  }

  /** The first `t` words of the message schedule of a block. */
  function Scheduled(block: seq<Byte>, t: nat): (w: seq<Word>)
    requires |block| == BLOCK
    ensures |w| == t
  {
    if t == 0 then []
    else
      var before := Scheduled(block, t - 1);
      before + [if t <= 16 then BlockWord(block, t - 1) else NextWord(before)]
  }

  /** The eight working variables. */
  datatype Working = Working(a: Word, b: Word, c: Word, d: Word, e: Word, f: Word, g: Word, h: Word)

  function Round(v: Working, k: Word, w: Word): Working {
    var t1 := Plus(Plus(Plus(Plus(v.h, BigSigma1(v.e)), Choose(v.e, v.f, v.g)), k), w);
    var t2 := Plus(BigSigma0(v.a), Majority(v.a, v.b, v.c));
    Working(Plus(t1, t2), v.a, v.b, v.c, Plus(v.d, t1), v.e, v.f, v.g)
  }

  function Loaded(hash: seq<Word>): Working
    requires |hash| == 8
  {
    Working(hash[0], hash[1], hash[2], hash[3], hash[4], hash[5], hash[6], hash[7])
  }

  /** The message schedule of a block. */
  function ScheduleOf(block: seq<Byte>): (w: seq<Word>)
    requires |block| == BLOCK
    ensures |w| == 64
  {
    Scheduled(block, 64)
  }

  /** The working variables after `t` rounds. */
  function Rounds(hash: seq<Word>, w: seq<Word>, t: nat): Working
    requires |hash| == 8 && t <= |w| <= 64
  {
    if t == 0 then Loaded(hash) else Round(Rounds(hash, w, t - 1), Word(ROUND_CONSTANTS[t - 1]), w[t - 1])
  }

  /** One step of the hash computation: the intermediate hash value after one more block.  Only a
      proof that mentions `Unfold` looks into it. */
  ghost function Compressed(hash: seq<Word>, block: seq<Byte>): (r: seq<Word>)
    requires |hash| == 8 && |block| == BLOCK
    ensures |r| == 8
  {
    var r: seq<Word> :|
      |r| == 8 && forall go {:trigger Unfold(go)} ::
                    Unfold(go) ==> r == Added(hash, Rounds(hash, ScheduleOf(block), 64));
    r
  }

  lemma {:induction false} CompressedIs(hash: seq<Word>, block: seq<Byte>)
    requires |hash| == 8 && |block| == BLOCK
    ensures Compressed(hash, block) == Added(hash, Rounds(hash, ScheduleOf(block), 64))
  {
    assert Unfold(true);
  }

  function Added(hash: seq<Word>, v: Working): (r: seq<Word>)
    requires |hash| == 8
    ensures |r| == 8
  {
    [Plus(hash[0], v.a), Plus(hash[1], v.b), Plus(hash[2], v.c), Plus(hash[3], v.d),
     Plus(hash[4], v.e), Plus(hash[5], v.f), Plus(hash[6], v.g), Plus(hash[7], v.h)]
  }

  /** Fills in the message schedule of a block. */
  method Schedule(block: seq<Byte>) returns (w: seq<Word>)
    requires |block| == BLOCK
    ensures w == ScheduleOf(block)
  {
    w := [];
    for i := 0 to 16
      invariant w == Scheduled(block, i)
    {
      w := w + [BlockWord(block, i)];
    }
    for i := 16 to 64
      invariant w == Scheduled(block, i)
    {
      w := w + [NextWord(w)];
    }
  }

  /** Runs the rounds. */
  method Shuffle(hash: seq<Word>, w: seq<Word>) returns (v: Working)
    requires |hash| == 8 && |w| == 64
    ensures v == Rounds(hash, w, 64)
  {
    var a, b, c, d, e, f, g, h := hash[0], hash[1], hash[2], hash[3], hash[4], hash[5], hash[6], hash[7];
    for i := 0 to 64
      invariant Working(a, b, c, d, e, f, g, h) == Rounds(hash, w, i)
    {
      var temp1 := Plus(Plus(Plus(Plus(h, BigSigma1(e)), Choose(e, f, g)), Word(ROUND_CONSTANTS[i])), w[i]);
      var temp2 := Plus(BigSigma0(a), Majority(a, b, c));
      h := g;
      g := f;
      f := e;
      e := Plus(d, temp1);
      d := c;
      c := b;
      b := a;
      a := Plus(temp1, temp2);
    }
    v := Working(a, b, c, d, e, f, g, h);
  }

  /** Absorbs one block into the state. */
  method CompressInto(state: array<Word>, block: seq<Byte>)
    requires state.Length == 8 && |block| == BLOCK
    modifies state
    ensures state[..] == Compressed(old(state[..]), block)
  {
    var w := Schedule(block);
    var v := Shuffle(state[..], w);
    CompressedIs(state[..], block);
    AddInto(state, v);
  }

  method AddInto(state: array<Word>, v: Working)
    requires state.Length == 8
    modifies state
    ensures state[..] == Added(old(state[..]), v)
  {
    var sums := Added(state[..], v);
    forall i | 0 <= i < 8 {
      state[i] := sums[i];
    }
  }
}

/** Streaming SHA-256, specified by FIPS 180-4: padding (section 5.1.1) and the hash
    computation (section 6.2.2), as one fold over the blocks of the padded message. */
module Sha256 {
  import opened Compression
  import opened Arithmetic

  const WRAP: nat := 0x1_0000_0000_0000_0000

  /** What is left of a number in unsigned 64-bit arithmetic. */
  function Wrap(n: nat): nat { n % 0x1_0000_0000_0000_0000 }

  /** The intermediate hash value after every whole block of `m`; a partial block is ignored. */
  ghost function Fold(hash: seq<Word>, m: seq<Byte>): (r: seq<Word>)
    requires |hash| == 8
    ensures |r| == 8
    decreases |m|
  {
    if |m| < BLOCK then hash else Fold(Compressed(hash, m[..BLOCK]), m[BLOCK..])
  }

  function Zeros(n: nat): seq<Byte> { seq(n, _ => 0) }

  /** With `k` zero bytes the length field ends a block. */
  predicate LeavesRoom(length: nat, k: nat) { (length + 1 + k) % BLOCK == 56 }

  /** How many zero bytes padding needs: the least number that leaves room for the length. */
  function ZeroCount(length: nat): (k: nat)
    ensures LeavesRoom(length, k) && forall j: nat | LeavesRoom(length, j) :: k <= j
  {
    (119 - length % BLOCK) % BLOCK
  }

  function LowByte(n: nat): Byte { n % 256 }

  /** The `count` low bytes of `n`, most significant first. */
  function LengthBytes(n: nat, count: nat): (r: seq<Byte>)
    ensures |r| == count
  {
    if count == 0 then [] else LengthBytes(n / 256, count - 1) + [LowByte(n)]
  }

  /** The message with its marker byte and `zeros` zero bytes. */
  function Marked(m: seq<Byte>, zeros: nat): (r: seq<Byte>)
    ensures |r| == |m| + 1 + zeros
  {
    m + [0x80] + Zeros(zeros)
  }

  lemma {:induction false} MarkedGrows(m: seq<Byte>, zeros: nat)
    ensures Marked(m, zeros + 1) == Marked(m, zeros) + [0] && Marked(m, 0) == m + [0x80]
  {
    assert Zeros(zeros + 1) == Zeros(zeros) + [0];
  }

  /** The padded message.  The standard defines it below 2^64 bits; beyond that the length field
      wraps. */
  function Padded(m: seq<Byte>): seq<Byte> {
    Marked(m, ZeroCount(|m|)) + LengthBytes(Wrap(|m| * 8), 8)
  }

  /** The low byte of some bits. */
  function Low(bits: bv32): Byte { (bits & 0xff) as bv8 as nat }

  function WordBytes(w: Word): seq<Byte> {
    [Low(w.bits >> 24), Low(w.bits >> 16), Low(w.bits >> 8), Low(w.bits)]
  }

  function Bytes(words: seq<Word>): (r: seq<Byte>)
    ensures |r| == 4 * |words|
  {
    if words == [] then [] else Bytes(words[..|words| - 1]) + WordBytes(words[|words| - 1])
  }

  /** The digest of a message. */
  ghost function Digest(m: seq<Byte>): seq<Byte> { Bytes(Fold(INITIAL, Padded(m))) }

  // ----- blocks ---------------------------------------------------------------------------

  /** Folding one block after another is folding their concatenation. */
  lemma {:induction false} FoldAppend(hash: seq<Word>, a: seq<Byte>, b: seq<Byte>)
    requires |hash| == 8 && |a| % BLOCK == 0
    ensures Fold(hash, a + b) == Fold(Fold(hash, a), b)
    decreases |a|
  {
    if a == [] {
      assert a + b == b;
    } else {
      assert (a + b)[..BLOCK] == a[..BLOCK] && (a + b)[BLOCK..] == a[BLOCK..] + b;
      FoldAppend(Compressed(hash, a[..BLOCK]), a[BLOCK..], b);
    }
  }

  lemma {:induction false} FoldBlock(hash: seq<Word>, a: seq<Byte>, block: seq<Byte>)
    requires |hash| == 8 && |a| % BLOCK == 0 && |block| == BLOCK
    ensures Fold(hash, a + block) == Compressed(Fold(hash, a), block)
  {
    FoldAppend(hash, a, block);
    var h := Fold(hash, a);
    assert block[..BLOCK] == block && block[BLOCK..] == [];
    assert Fold(h, block) == Fold(Compressed(h, block), []);
  }

  /** The whole blocks of a message, and what is left over. */
  function Whole(m: seq<Byte>): seq<Byte> { m[..|m| - |m| % BLOCK] }
  function Tail(m: seq<Byte>): (r: seq<Byte>)
    ensures |r| == |m| % BLOCK
  {
    m[|m| - |m| % BLOCK..]
  }

  lemma {:induction false} WholeFolds(hash: seq<Word>, m: seq<Byte>)
    requires |hash| == 8
    ensures Fold(hash, Whole(m)) == Fold(hash, m)
  {
    assert m == Whole(m) + Tail(m);
    FoldAppend(hash, Whole(m), Tail(m));
  }

  // ----- padding loses nothing ------------------------------------------------------------

  /** 256 to the power `n`. */
  function Power(n: nat): (r: nat)
    ensures r > 0
  {
    if n == 0 then 1 else 256 * Power(n - 1)
  }

  /** The number some length bytes spell. */
  function Spelled(s: seq<Byte>): nat {
    if s == [] then 0 else 256 * Spelled(s[..|s| - 1]) + s[|s| - 1]
  }

  /** The length bytes spell the number they were made from, as far as it fits. */
  lemma {:induction false} LengthRoundTrip(n: nat, count: nat)
    requires n < Power(count)
    ensures Spelled(LengthBytes(n, count)) == n
  {
    if count > 0 {
      LengthRoundTrip(n / 256, count - 1);
      assert LengthBytes(n, count)[..count - 1] == LengthBytes(n / 256, count - 1);
    }
  }

  lemma {:induction false} EightBytes()
    ensures Power(8) == 0x1_0000_0000_0000_0000
  {
    assert Power(4) == 0x1_0000_0000;
  }

  /** The length field ends the padded message. */
  lemma {:induction false} LengthField(m: seq<Byte>)
    ensures var p := Padded(m);
            |p| >= 8 && p[|p| - 8..] == LengthBytes(Wrap(|m| * 8), 8) && |m| <= |p| && p[..|m|] == m
  {}

  /** Below the standard's limit, different messages have different padded forms. */
  lemma {:induction false} PaddedInjective(m: seq<Byte>, n: seq<Byte>)
    requires |m| * 8 < 0x1_0000_0000_0000_0000 && |n| * 8 < 0x1_0000_0000_0000_0000 && Padded(m) == Padded(n)
    ensures m == n
  {
    LengthField(m);
    LengthField(n);
    EightBytes();
    WrapSmall(|m| * 8);
    WrapSmall(|n| * 8);
    LengthRoundTrip(|m| * 8, 8);
    LengthRoundTrip(|n| * 8, 8);
  }

  lemma {:induction false} WrapSmall(n: nat)
    requires n < 0x1_0000_0000_0000_0000
    ensures Wrap(n) == n
  {}

  /** The bytes of `n` cut out one by one, by shifting and masking. */
  method BytesOf(n: nat) returns (bytes: seq<Byte>)
    requires n < 0x1_0000_0000_0000_0000
    ensures bytes == LengthBytes(n, 8)
  {
    bytes := [];
    EightBytes();
    for i := 0 to 8
      invariant bytes == LengthBytes(n / Power(8 - i), i)
    {
      DivideAgain(n, Power(7 - i), 256);
      bytes := bytes + [LowByte(n / Power(7 - i))];
    }
    assert Power(0) == 1;
  }

  /** The concatenation of some pieces. */
  function Joined(pieces: seq<seq<Byte>>): seq<Byte> {
    if pieces == [] then [] else Joined(pieces[..|pieces| - 1]) + pieces[|pieces| - 1]
  }

  // ----- the streaming hasher -------------------------------------------------------------

  class Hasher {
    const state: array<Word>
    const buffer: array<Byte>
    var buffered: nat
    var total: nat
    ghost var message: seq<Byte>

    /** The fields hold the hash of the whole blocks of `m` and its unfinished block. */
    ghost predicate Absorbed(m: seq<Byte>)
      reads this, state, buffer
    {
      && state.Length == 8 && buffer.Length == BLOCK && buffered == |m| % BLOCK
      && state[..] == Fold(INITIAL, m) && buffer[..buffered] == Tail(m)
    }

    ghost predicate Valid()
      reads this, state, buffer
    {
      Absorbed(message) && total == Wrap(|message|)
    }

    constructor ()
      ensures Valid() && fresh(state) && fresh(buffer) && message == []
    {
      state := new Word[8](i requires 0 <= i < 8 => INITIAL[i]);
      buffer := new Byte[BLOCK](_ => 0);
      buffered, total, message := 0, 0, [];
      new;
      assert state[..] == INITIAL;
    }

    /** Starts over. */
    method Reset()
      requires state.Length == 8 && buffer.Length == BLOCK
      modifies this, state, buffer
      ensures Valid() && message == []
    {
      for i := 0 to 8
        invariant forall k | 0 <= k < i :: state[k] == INITIAL[k]
      {
        state[i] := INITIAL[i];
      }
      forall i | 0 <= i < BLOCK {
        buffer[i] := 0;
      }
      buffered, total, message := 0, 0, [];
      assert state[..] == INITIAL;
    }

    /** An independent hasher in the same state. */
    constructor Copy(from: Hasher)
      requires from.Valid()
      ensures Valid() && fresh(state) && fresh(buffer) && message == from.message && total == from.total
    {
      state := new Word[8](i requires 0 <= i < 8 reads from, from.state, from.buffer
                           requires from.state.Length == 8 => from.state[i]);
      buffer := new Byte[BLOCK](i requires 0 <= i < BLOCK reads from, from.state, from.buffer
                                requires from.buffer.Length == BLOCK => from.buffer[i]);
      buffered, total, message := from.buffered, from.total, from.message;
      new;
      assert state[..] == from.state[..];
      assert buffer[..buffered] == from.buffer[..buffered];
    }

    /** Absorbs one block into the state. */
    method Compress(block: seq<Byte>)
      requires state.Length == 8 && |block| == BLOCK
      modifies state
      ensures state[..] == Compressed(old(state[..]), block)
    {
      CompressInto(state, block);
    }

    /** Absorbs more of the message: however it is cut into calls, the state, the unfinished
        block and the count are those of the bytes so far. */
    method Update(data: seq<Byte>)
      requires Valid()
      modifies this, state, buffer
      ensures Valid() && message == old(message) + data
    {
      if |data| == 0 {
        assert message + data == message;
        return;
      }
      total := Wrap(total + |data|);
      Absorb(message, data);
      message := message + data;
      WrapSum(|old(message)|, |data|);
    }

    /** Moves the state and the buffer on: top up, whole blocks, remainder. */
    method Absorb(ghost m: seq<Byte>, data: seq<Byte>)
      requires Absorbed(m)
      modifies this`buffered, state, buffer
      ensures Absorbed(m + data)
    {
      var offset := 0;
      assert m + data[..0] == m;
      if buffered > 0 {
        offset := Refill(m, data);
      }
      offset := AbsorbBlocks(m, data, offset);
      Store(m, data, offset);
    }

    /** Tops up the unfinished block, and compresses it once it is full. */
    method Refill(ghost m: seq<Byte>, data: seq<Byte>) returns (offset: nat)
      requires Absorbed(m) && buffered > 0
      modifies this`buffered, state, buffer
      ensures offset <= |data| && Absorbed(m + data[..offset]) && (buffered == 0 || offset == |data|)
    {
      offset := 0;
      while buffered < BLOCK && offset < |data|
        invariant offset <= |data| && buffered == |m| % BLOCK + offset <= BLOCK
        invariant state[..] == old(state[..]) && buffer[..buffered] == Tail(m) + data[..offset]
      {
        buffer[buffered] := data[offset];
        buffered, offset := buffered + 1, offset + 1;
      }
      WholeFolds(INITIAL, m);
      if buffered == BLOCK {
        assert buffer[..] == Tail(m) + data[..offset];
        assert m + data[..offset] == Whole(m) + buffer[..];
        FoldBlock(INITIAL, Whole(m), buffer[..]);
        Compress(buffer[..]);
        buffered := 0;
      } else {
        GrownTail(m, data[..offset]);
      }
    }

    /** Compresses whole blocks straight from the data. */
    method AbsorbBlocks(ghost m: seq<Byte>, data: seq<Byte>, start: nat) returns (offset: nat)
      requires start <= |data| && Absorbed(m + data[..start]) && (buffered == 0 || start == |data|)
      modifies state
      ensures offset <= |data| && |data| - offset < BLOCK && Absorbed(m + data[..offset])
      ensures buffered == 0 || offset == |data|
    {
      offset := start;
      while |data| - offset >= BLOCK
        invariant offset <= |data| && Absorbed(m + data[..offset]) && (buffered == 0 || offset == |data|)
      {
        ghost var done := m + data[..offset];
        assert m + data[..offset + BLOCK] == done + data[offset..offset + BLOCK];
        FoldBlock(INITIAL, done, data[offset..offset + BLOCK]);
        Compress(data[offset..offset + BLOCK]);
        offset := offset + BLOCK;
      }
    }

    /** Buffers the rest. */
    method Store(ghost m: seq<Byte>, data: seq<Byte>, start: nat)
      requires start <= |data| && |data| - start < BLOCK && Absorbed(m + data[..start])
      requires buffered == 0 || start == |data|
      modifies this`buffered, buffer
      ensures Absorbed(m + data)
    {
      var offset := start;
      ghost var done := m + data[..start];
      while offset < |data|
        invariant start <= offset <= |data| && buffered == |done| % BLOCK + (offset - start)
        invariant buffer[..buffered] == Tail(done) + data[start..offset]
        invariant state[..] == old(state[..])
      {
        buffer[buffered] := data[offset];
        buffered, offset := buffered + 1, offset + 1;
      }
      assert m + data == done + data[start..];
      WholeFolds(INITIAL, done);
      GrownTail(done, data[start..]);
    }

    /** Pads what was absorbed: the marker byte, then zero bytes until the length field fits. */
    method PadZeros()
      requires Valid()
      modifies this, state, buffer
      ensures Valid() && message == Marked(old(message), ZeroCount(|old(message)|))
    {
      ghost var m := message;
      Update([0x80]);
      ghost var zeros := 0;
      MarkedGrows(m, 0);
      while buffered != 56
        invariant Valid() && zeros <= ZeroCount(|m|) && message == Marked(m, zeros)
        decreases ZeroCount(|m|) - zeros
      {
        MarkedGrows(m, zeros);
        Update([0]);
        zeros := zeros + 1;
      }
      assert LeavesRoom(|m|, zeros);
    }

    /** The state as bytes. */
    method Emit() returns (digest: seq<Byte>)
      requires state.Length == 8
      ensures digest == Bytes(state[..])
    {
      digest := [];
      for i := 0 to 8
        invariant digest == Bytes(state[..i])
      {
        digest := digest + WordBytes(state[i]);
        assert state[..i + 1][..i] == state[..i];
      }
      assert state[..8] == state[..];
    }

    /** The digest of everything absorbed so far.  The hasher itself is not changed. */
    method Finalize() returns (digest: seq<Byte>)
      requires Valid()
      ensures digest == Digest(message)
    {
      var copy := new Hasher.Copy(this);
      var bitLength := Wrap(copy.total * 8);
      WrapAgain(|message|, 8);
      copy.PadZeros();
      var lengthBytes := BytesOf(bitLength);
      copy.Update(lengthBytes);
      digest := copy.Emit();
    }

    /** The digest of a message that arrives in pieces, however it is cut. */
    static method OfPieces(pieces: seq<seq<Byte>>) returns (digest: seq<Byte>)
      ensures digest == Digest(Joined(pieces))
    {
      var hasher := new Hasher();
      for i := 0 to |pieces|
        invariant hasher.Valid() && fresh(hasher) && fresh(hasher.state) && fresh(hasher.buffer)
        invariant hasher.message == Joined(pieces[..i])
      {
        hasher.Update(pieces[i]);
        assert pieces[..i + 1][..i] == pieces[..i];
      }
      assert pieces[..|pieces|] == pieces;
      digest := hasher.Finalize();
    }

    /** The digest of one message. */
    static method Of(data: seq<Byte>) returns (digest: seq<Byte>)
      ensures digest == Digest(data)
    {
      var hasher := new Hasher();
      hasher.Update(data);
      assert hasher.message == data;
      digest := hasher.Finalize();
    }
  }

  /** Bytes that do not complete a block only extend the tail. */
  lemma {:induction false} GrownTail(m: seq<Byte>, more: seq<Byte>)
    requires |Tail(m)| + |more| < BLOCK
    ensures Tail(m + more) == Tail(m) + more && Whole(m + more) == Whole(m)
    ensures Fold(INITIAL, m + more) == Fold(INITIAL, Whole(m))
  {
    assert |m + more| % BLOCK == |m| % BLOCK + |more|;
    assert Whole(m + more) == Whole(m);
    WholeFolds(INITIAL, m + more);
  }

  /** A wrapped number may be replaced by what it wraps. */
  lemma {:induction false} WrapAgain(n: nat, k: nat)
    requires k <= 8
    ensures Wrap(Wrap(n) * k) == Wrap(n * k)
  {
    var q, r := n / WRAP, Wrap(n);
    var p := r * k / WRAP;
    Split(r * k, WRAP);
    assert n * k == (WRAP * q + r) * k == WRAP * (q * k) + r * k;
    assert n * k == WRAP * (q * k + p) + Wrap(r * k);
    QuotientIs(n * k, WRAP, q * k + p, Wrap(r * k));
  }

  lemma {:induction false} WrapSum(a: nat, b: nat)
    ensures Wrap(Wrap(a) + b) == Wrap(a + b)
  {
    var q, r := a / WRAP, Wrap(a);
    var p := (r + b) / WRAP;
    assert a + b == WRAP * (q + p) + Wrap(r + b);
    QuotientIs(a + b, WRAP, q + p, Wrap(r + b));
  }
}
