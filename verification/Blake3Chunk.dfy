/** One-chunk BLAKE3 (section 2.4 of the BLAKE3 paper): the block loop of
    `blake3_single_chunk` against chunk chaining by recursion on the input. */
module Blake3Chunk {
  import opened Collections
  import opened Bits
  import opened Blake3Words
  import opened Blake3Compress
  import opened LittleEndian

  const CHUNK_START: nat := 1
  const CHUNK_END: nat := 2
  const ROOT: nat := 8
  const SINGLE_CHUNK_BYTES: nat := 1024

  // ----- Blocks -----

  /** The slices of 64 bytes, or one empty block for the empty input. */
  function Blocks(value: seq<Byte>): (blocks: seq<seq<Byte>>)
    ensures |blocks| >= 1
  {
    if |value| <= 64 then [value] else [value[..64]] + Blocks(value[64..])
  }

  function Joined(blocks: seq<seq<Byte>>): seq<Byte> {
    if blocks == [] then [] else blocks[0] + Joined(blocks[1..])
  }

  /** The blocks concatenate to the input; all but the last have 64 bytes and the
      last has at most 64, and at least one unless the input is empty. */
  lemma {:induction false} BlocksPartition(value: seq<Byte>, i: nat)
    requires i < |Blocks(value)|
    ensures Joined(Blocks(value)) == value
    ensures i < |Blocks(value)| - 1 ==> |Blocks(value)[i]| == 64
    ensures |Blocks(value)[i]| <= 64
    ensures value != [] ==> |Blocks(value)[i]| >= 1
    ensures 64 * (|Blocks(value)| - 1) <= |value| <= 64 * |Blocks(value)|
    decreases |value|
  {
    var blocks := Blocks(value);
    if |value| <= 64 {
      assert blocks[1..] == [];
    } else {
      var rest := Blocks(value[64..]);
      BlocksPartition(value[64..], if i == 0 then 0 else i - 1);
      assert blocks[1..] == rest;
      assert value == value[..64] + value[64..];
    }
  }

  function Padded(block: seq<Byte>): (padded: seq<Byte>)
    requires |block| <= 64
    ensures |padded| == 64
  {
    block + seq(64 - |block|, _ => 0)
  }

  function WordAt(padded: seq<Byte>, i: nat): Word
    requires |padded| == 64 && i < 16
  {
    WordBound(padded[4 * i..4 * i + 4]);
    FromBytes(padded[4 * i..4 * i + 4])
  }

  lemma WordBound(bytes: seq<Byte>)
    requires |bytes| == 4
    ensures FromBytes(bytes) < 0x1_0000_0000
  {
    IntegerToBytes(bytes);
    assert Pow256(4) == 0x1_0000_0000;
  }

  function Words(block: seq<Byte>): State
    requires |block| <= 64
  {
    seq(16, i requires 0 <= i < 16 => WordAt(Padded(block), i))
  }

  /** The message words and the block length together determine the block. */
  lemma WordsInjective(b1: seq<Byte>, b2: seq<Byte>)
    requires |b1| == |b2| <= 64 && Words(b1) == Words(b2)
    ensures b1 == b2
  {
    forall j | 0 <= j < |b1| ensures b1[j] == b2[j] {
      var i := j / 4;
      var p1, p2 := Padded(b1)[4 * i..4 * i + 4], Padded(b2)[4 * i..4 * i + 4];
      assert FromBytes(p1) == Words(b1)[i] == Words(b2)[i] == FromBytes(p2);
      IntegerToBytes(p1);
      IntegerToBytes(p2);
      assert p1[j - 4 * i] == b1[j] && p2[j - 4 * i] == b2[j];
    }
  }

  // ----- Flags -----

  /** The flags of block `index` of `count`, as the loop computes them. */
  function FlagsAt(index: nat, count: nat): nat {
    var start := if index == 0 then CHUNK_START else 0;
    if index == count - 1 then Or(start, Or(CHUNK_END, ROOT)) else start
  }

  /** Exactly the first block carries CHUNK_START, exactly the last carries
      CHUNK_END and ROOT, and nothing else is ever set. */
  lemma FlagsMeaning(index: nat, count: nat)
    requires index < count
    ensures FlagsAt(index, count) == (if index == 0 then CHUNK_START else 0)
                                   + (if index == count - 1 then CHUNK_END + ROOT else 0)
    ensures Bit(FlagsAt(index, count), 0) <==> index == 0
    ensures Bit(FlagsAt(index, count), 1) <==> index == count - 1
    ensures Bit(FlagsAt(index, count), 3) <==> index == count - 1
    ensures !Bit(FlagsAt(index, count), 2)
    ensures FlagsAt(index, count) < 16
  {
    assert Or(CHUNK_END, ROOT) == 10;
    assert Or(1, 10) == 11;
    assert Or(0, 10) == 10;
  }

  // ----- Chunk chaining by recursion -----

  /** A compression function as a value, so that chaining can be stated for any. */
  type Compression = (ChainingValue, State, Word, Word) -> State

  function CompressWith(ops: WordOps): Compression {
    (cv: ChainingValue, block: State, length: Word, flags: Word) => Compress(ops, cv, block, length, flags)
  }

  ghost predicate Computes(compress: Compression, ops: WordOps) {
    forall cv: ChainingValue, block: State, length: Word, flags: Word
      {:trigger Compress(ops, cv, block, length, flags)} ::
      compress(cv, block, length, flags) == Compress(ops, cv, block, length, flags)
  }

  method CompressBlock(ops: WordOps, ghost compress: Compression, cv: ChainingValue, block: State, length: Word,
                       flags: Word)
    returns (output: State)
    requires Lawful(ops) && Computes(compress, ops)
    ensures output == compress(cv, block, length, flags)
  {
    output := CompressInPlace(ops, cv, block, length, flags);
  }

  /** The output words of a chunk whose remaining input is `value`. */
  function ChunkOutput(compress: Compression, cv: ChainingValue, value: seq<Byte>, first: bool): State
    decreases |value|
  {
    var start := if first then CHUNK_START else 0;
    if |value| <= 64 then
      compress(cv, Words(value), |value|, start + CHUNK_END + ROOT)
    else
      ChunkOutput(compress, compress(cv, Words(value[..64]), 64, start)[..8], value[64..], false)
  }

  function OutputBytes(words: seq<Word>): seq<Byte> {
    if words == [] then [] else ToBytes(words[0], 4) + OutputBytes(words[1..])
  }

  datatype Digest = Refused | Digest(bytes: seq<Byte>)

  /** The first 32 output bytes, whose rendering in hexadecimal is the digest. */
  function Hash(value: seq<Byte>): (digest: Digest) {
    if |value| > SINGLE_CHUNK_BYTES then Refused
    else
      OutputLength(ChunkOutput(CompressWith(PYTHON), IV, value, true));
      Digest.Digest(OutputBytes(ChunkOutput(CompressWith(PYTHON), IV, value, true))[..32])
  }

  lemma {:induction false} OutputLength(words: seq<Word>)
    ensures |OutputBytes(words)| == 4 * |words|
  {
    if words != [] {
      OutputLength(words[1..]);
    }
  }

  lemma {:induction false} PieceAt<T>(parts: seq<T>, bytes: T -> seq<Byte>, i: nat, j: nat)
    requires i < |parts| && j < 4 && forall k :: 0 <= k < |parts| ==> |bytes(parts[k])| == 4
    ensures 4 * i + j < |Image(parts, bytes)| && Image(parts, bytes)[4 * i + j] == bytes(parts[i])[j]
  {
    if i > 0 {
      PieceAt(parts[1..], bytes, i - 1, j);
    }
  }

  lemma {:induction false} OutputIsImage(words: seq<Word>)
    ensures OutputBytes(words) == Image(words, (w: Word) => ToBytes(w, 4))
  {
    if words != [] {
      OutputIsImage(words[1..]);
    }
  }

  lemma OutputWordAt(words: seq<Word>, i: nat, j: nat)
    requires i < |words| && j < 4
    ensures 4 * i + j < |OutputBytes(words)|
    ensures OutputBytes(words)[4 * i + j] == ToBytes(words[i], 4)[j]
  {
    OutputIsImage(words);
    PieceAt(words, (w: Word) => ToBytes(w, 4), i, j);
  }

  /** Byte 4i + j of the output is byte j, counted from the lowest, of word i. */
  lemma OutputByteAt(words: seq<Word>, i: nat, j: nat)
    requires i < |words| && j < 4
    ensures 4 * i + j < |OutputBytes(words)|
    ensures OutputBytes(words)[4 * i + j] == words[i] / Pow256(j) % 256
  {
    OutputWordAt(words, i, j);
    ByteAt(words[i], 4, j);
  }

  predicate ByteOf(bytes: seq<Byte>, words: State, i: nat, j: nat)
    requires |bytes| == 32 && i < 8 && j < 4
  {
    bytes[4 * i + j] == words[i] / Pow256(j) % 256
  }

  /** A digest is the bytes of the first eight output words, each from its lowest byte up. */
  ghost predicate Renders(bytes: seq<Byte>, words: State) {
    |bytes| == 32 && forall i: nat, j: nat :: i < 8 && j < 4 ==> ByteOf(bytes, words, i, j)
  }

  lemma OutputRenders(words: State)
    ensures |OutputBytes(words)| == 64 && Renders(OutputBytes(words)[..32], words)
  {
    OutputLength(words);
    forall i: nat, j: nat | i < 8 && j < 4 ensures ByteOf(OutputBytes(words)[..32], words, i, j) {
      OutputByteAt(words, i, j);
    }
  }

  lemma {:induction false} BlocksTail(value: seq<Byte>, blocks: seq<seq<Byte>>, index: nat)
    requires blocks == Blocks(value) && index < |blocks|
    ensures 64 * index <= |value|
    ensures Blocks(value[64 * index..]) == blocks[index..]
    decreases index
  {
    if index == 0 {
      assert value[0..] == value && blocks[0..] == blocks;
    } else {
      BlocksTail(value[64..], Blocks(value[64..]), index - 1);
      assert value[64..][64 * (index - 1)..] == value[64 * index..];
      assert blocks[1..] == Blocks(value[64..]);
      assert blocks[1..][index - 1..] == blocks[index..];
    }
  }

  /** Where block `index` lies in the input. */
  lemma BlockAt(value: seq<Byte>, index: nat)
    requires index < |Blocks(value)|
    ensures 64 * index <= |value| && |Blocks(value)[index]| <= 64
    ensures var block, rest := Blocks(value)[index], value[64 * index..];
            if index == |Blocks(value)| - 1 then rest == block
            else |rest| > 64 && block == rest[..64] && rest[64..] == value[64 * (index + 1)..]
  {
    var blocks := Blocks(value);
    BlocksPartition(value, index);
    BlocksTail(value, blocks, index);
    assert blocks[index..][0] == blocks[index];
    if index == |blocks| - 1 {
      assert |blocks[index..]| == 1;
    } else {
      assert |blocks[index..]| > 1;
    }
  }

  lemma ChunkStep(compress: Compression, cv: ChainingValue, value: seq<Byte>, index: nat)
    requires index < |Blocks(value)| && 64 * index <= |value|
    ensures |Blocks(value)[index]| <= 64 && FlagsAt(index, |Blocks(value)|) < 16
    ensures index < |Blocks(value)| - 1 ==> 64 * (index + 1) <= |value|
    ensures var block := Blocks(value)[index];
            var output := compress(cv, Words(block), |block|, FlagsAt(index, |Blocks(value)|));
            ChunkOutput(compress, cv, value[64 * index..], index == 0) ==
            if index == |Blocks(value)| - 1 then output
            else ChunkOutput(compress, output[..8], value[64 * (index + 1)..], false)
  {
    BlockAt(value, index);
    FlagsMeaning(index, |Blocks(value)|);
  }

  /** `blake3_single_chunk`: the block loop computes recursive chunk chaining and
      refuses exactly the inputs longer than one chunk. */
  method Blake3SingleChunk(value: seq<Byte>) returns (digest: Digest)
    ensures digest == Hash(value)
    ensures digest.Refused? <==> |value| > SINGLE_CHUNK_BYTES
    ensures digest.Digest? ==> Renders(digest.bytes, ChunkOutput(CompressWith(PYTHON), IV, value, true))
  {
    if |value| > SINGLE_CHUNK_BYTES {
      return Refused;
    }
    PythonLawful();
    var output := ChunkLoop(PYTHON, CompressWith(PYTHON), value);
    OutputLength(output);
    OutputRenders(output);
    return Digest.Digest(OutputBytes(output)[..32]);
  }

  method ChunkLoop(ops: WordOps, ghost compress: Compression, value: seq<Byte>) returns (output: State)
    requires Lawful(ops) && Computes(compress, ops)
    ensures output == ChunkOutput(compress, IV, value, true)
  {
    var blocks := Blocks(value);
    var cv: ChainingValue := IV;
    var index := 0;
    assert value[0..] == value;
    while true
      invariant 0 <= index < |blocks| && 64 * index <= |value|
      invariant ChunkOutput(compress, cv, value[64 * index..], index == 0) == ChunkOutput(compress, IV, value, true)
      decreases |blocks| - index
    {
      var block := blocks[index];
      ChunkStep(compress, cv, value, index);
      output := CompressBlock(ops, compress, cv, Words(block), |block|, FlagsAt(index, |blocks|));
      if index == |blocks| - 1 {
        return;
      }
      cv := output[..8];
      index := index + 1;
    }
  }
}
