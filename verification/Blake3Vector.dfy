/** The published digest of "abc", computed round by round on machine words. */
module Blake3Vector {
  import opened Collections
  import opened Blake3Words
  import opened Blake3Compress
  import opened Blake3Chunk
  import opened LittleEndian
  import opened BitVectors
  import opened MachineWords
  import opened Blake3Machine

  const MACHINE: Arithmetic<bv32> := Arithmetic(WordOf, Plus, Differing, By16, By12, By8, By7)

  /** Bit vectors compute what the masked integers of the source do. */
  lemma MachineExact()
    ensures Exact(MACHINE, PYTHON)
  {
    forall x: bv32, y: bv32
      ensures MACHINE.word(MACHINE.plus(x, y)) == AddWord(MACHINE.word(x), MACHINE.word(y))
    {
      AddIsMachine(x, y);
    }
    forall x: bv32, y: bv32
      ensures MACHINE.word(MACHINE.differ(x, y)) == PYTHON.xor(MACHINE.word(x), MACHINE.word(y))
    {
      XorIsMachine(x, y);
    }
    forall x: bv32
      ensures MACHINE.word(MACHINE.by16(x)) == PYTHON.rotate(MACHINE.word(x), 16)
      ensures MACHINE.word(MACHINE.by12(x)) == PYTHON.rotate(MACHINE.word(x), 12)
      ensures MACHINE.word(MACHINE.by8(x)) == PYTHON.rotate(MACHINE.word(x), 8)
      ensures MACHINE.word(MACHINE.by7(x)) == PYTHON.rotate(MACHINE.word(x), 7)
    {
      RotateIsMachine(x);
    }
  }

  // ----- The rounds -----

  function Sixteen(w0: bv32, w1: bv32, w2: bv32, w3: bv32, w4: bv32, w5: bv32, w6: bv32, w7: bv32,
                   w8: bv32, w9: bv32, w10: bv32, w11: bv32, w12: bv32, w13: bv32, w14: bv32, w15: bv32): Rows<bv32> {
    Rows(Four(w0, w1, w2, w3), Four(w4, w5, w6, w7), Four(w8, w9, w10, w11), Four(w12, w13, w14, w15))
  }

  // The states before round 0, 1, ... and after round 6.

  const ABC0: Rows<bv32> := Sixteen(
    0x6A09_E667, 0xBB67_AE85, 0x3C6E_F372, 0xA54F_F53A, 0x510E_527F, 0x9B05_688C, 0x1F83_D9AB, 0x5BE0_CD19,
    0x6A09_E667, 0xBB67_AE85, 0x3C6E_F372, 0xA54F_F53A, 0, 0, 0x3, 0xB)

  const ABC1: Rows<bv32> := Sixteen(
    0xDB14_3866, 0x950E_AEA4, 0xB01B_B383, 0x8A76_B87B, 0xE26_C52C, 0xA0C_CDEF, 0x1928_3993, 0xA4E2_12BE,
    0x906C_3EC2, 0x5879_CDBB, 0x8B4A_7EF9, 0x8186_F2F7, 0xBEF1_7DEC, 0x3CA1_10C7, 0x252C_BC73, 0xFB49_7983)

  const ABC2: Rows<bv32> := Sixteen(
    0xF7CD_6139, 0xD1D5_0A38, 0xCCFA_64DD, 0xB71D_C538, 0xDE76_70AD, 0x7963_493E, 0x9749_662C, 0xC4A2_C4F0,
    0x3B74_ED33, 0x3614_E198, 0x4FD9_E822, 0xB2FF_CF61, 0x13D2_662D, 0x3A9F_BD02, 0x61BC_98FF, 0x4E66_D7FF)

  const ABC3: Rows<bv32> := Sixteen(
    0xA522_3098, 0xD9BB_0805, 0x7FFD_8A09, 0x5320_643A, 0x15E_3D1B, 0x4248_AA77, 0x7582_B320, 0x8A1A_270A,
    0x219F_3002, 0x89DC_ED30, 0x4537_6F01, 0xEFFD_5845, 0xFC19_FE61, 0x7C91_7C69, 0xD2B1_BCC6, 0xE194_3E51)

  const ABC4: Rows<bv32> := Sixteen(
    0x64DB_165C, 0x991_63D5, 0x383E_FFF0, 0xBCC4_500E, 0x1A1_1531, 0x89FA_E62F, 0xD454_66D2, 0xFB53_45AF,
    0x2683_ECB7, 0x7246_7073, 0xF466_DA66, 0x3B69_AEA1, 0x6ECC_71AC, 0xB4BC_F6EE, 0x3E9F_9F13, 0x945A_C52C)

  const ABC5: Rows<bv32> := Sixteen(
    0x68FD_D188, 0x218B_E329, 0x847D_2E60, 0xBE16_E462, 0x36DF_229D, 0xA711_52EE, 0x8492_715C, 0x847B_4CEA,
    0x3B7C_8814, 0xE7BB_882C, 0x5DDD_087F, 0xCCBC_8CD4, 0x1F24_2B24, 0xD209_E6C8, 0xC1E5_8255, 0xFD85_2D59)

  const ABC6: Rows<bv32> := Sixteen(
    0xB6EB_611E, 0x968D_411F, 0x769B_D7FB, 0x25D0_90D5, 0x1DE1_9596, 0x3A9E_4EC8, 0xCD0E_FB46, 0x4B18_E5E0,
    0x66D1_E34B, 0x324B_AD71, 0x892D_976E, 0x369C_03C5, 0x33D8_CF6A, 0x1812_221E, 0x8B89_DB1F, 0x5066_045A)

  const ABC7: Rows<bv32> := Sixteen(
    0x68EA_631C, 0x58C3_7BCE, 0x14E3_56A5, 0x59CF_D54F, 0x8BF6_0C1A, 0xD4A1_DF26, 0x811F_35A9, 0xD5C2_04FF,
    0xC459_5478, 0x6B92_3DF6, 0x61D8_E05A, 0xEC42_EF68, 0xCDAE_C952, 0xD77A_A67B, 0xED83_0054, 0x505F_B92A)

  // The messages of the rounds.

  const MESSAGE0: Rows<bv32> := Sixteen(0x63_6261, 0, 0, 0, 0, 0, 0, 0, 0, 0, 0, 0, 0, 0, 0, 0)
  const MESSAGE1: Rows<bv32> := Sixteen(0, 0, 0, 0, 0, 0x63_6261, 0, 0, 0, 0, 0, 0, 0, 0, 0, 0)
  const MESSAGE2: Rows<bv32> := Sixteen(0, 0, 0, 0, 0, 0, 0, 0, 0, 0, 0, 0x63_6261, 0, 0, 0, 0)
  const MESSAGE3: Rows<bv32> := Sixteen(0, 0, 0, 0, 0, 0, 0, 0, 0, 0x63_6261, 0, 0, 0, 0, 0, 0)
  const MESSAGE4: Rows<bv32> := Sixteen(0, 0, 0, 0, 0, 0, 0, 0, 0, 0, 0, 0, 0x63_6261, 0, 0, 0)
  const MESSAGE5: Rows<bv32> := Sixteen(0, 0, 0, 0, 0, 0, 0, 0, 0, 0, 0x63_6261, 0, 0, 0, 0, 0)
  const MESSAGE6: Rows<bv32> := Sixteen(0, 0, 0, 0x63_6261, 0, 0, 0, 0, 0, 0, 0, 0, 0, 0, 0, 0)

  predicate Goes(s: Rows<bv32>, k: Rows<bv32>, t: Rows<bv32>) { MachineRound(MACHINE, s, k) == t }

  lemma Round0()
    ensures Goes(ABC0, MESSAGE0, ABC1)
  {
  }

  lemma Round1()
    ensures Goes(ABC1, MESSAGE1, ABC2)
  {
  }

  lemma Round2()
    ensures Goes(ABC2, MESSAGE2, ABC3)
  {
  }

  lemma Round3()
    ensures Goes(ABC3, MESSAGE3, ABC4)
  {
  }

  lemma Round4()
    ensures Goes(ABC4, MESSAGE4, ABC5)
  {
  }

  lemma Round5()
    ensures Goes(ABC5, MESSAGE5, ABC6)
  {
  }

  lemma Round6()
    ensures Goes(ABC6, MESSAGE6, ABC7)
  {
  }

  function PermutedRows<T>(k: Rows<T>): Rows<T> {
    Rows(Four(k.a.y, k.b.y, k.a.z, k.c.y), Four(k.b.z, k.a.w, k.b.w, k.d.x),
         Four(k.a.x, k.c.z, k.d.w, k.b.x), Four(k.c.x, k.d.y, k.d.z, k.c.w))
  }

  lemma PermutedListed<T>(m: Arithmetic<T>, k: Rows<T>)
    ensures Permute(Listed(m, k)) == Listed(m, PermutedRows(k))
  {
  }

  lemma MessagesPermuted()
    ensures PermutedRows(MESSAGE0) == MESSAGE1 && PermutedRows(MESSAGE1) == MESSAGE2
    ensures PermutedRows(MESSAGE2) == MESSAGE3 && PermutedRows(MESSAGE3) == MESSAGE4
    ensures PermutedRows(MESSAGE4) == MESSAGE5 && PermutedRows(MESSAGE5) == MESSAGE6
  {
  }

  lemma OneRound<T(!new)>(m: Arithmetic<T>, ops: WordOps, s: Rows<T>, k: Rows<T>, t: Rows<T>, n: nat)
    requires Exact(m, ops) && MachineRound(m, s, k) == t
    ensures Rounds(ops, Listed(m, s), Listed(m, k), n + 1) == Rounds(ops, Listed(m, t), Listed(m, PermutedRows(k)), n)
  {
    RoundExact(m, ops, s, k);
    PermutedListed(m, k);
    assert RoundWith(ops)(Listed(m, s), Listed(m, k)) == Listed(m, t);
  }

  lemma Advance(s: Rows<bv32>, k: Rows<bv32>, t: Rows<bv32>, n: nat)
    requires Goes(s, k, t)
    ensures Rounds(PYTHON, Listed(MACHINE, s), Listed(MACHINE, k), n + 1) ==
            Rounds(PYTHON, Listed(MACHINE, t), Listed(MACHINE, PermutedRows(k)), n)
  {
    MachineExact();
    OneRound(MACHINE, PYTHON, s, k, t, n);
  }

  lemma From6()
    ensures Rounds(PYTHON, Listed(MACHINE, ABC6), Listed(MACHINE, MESSAGE6), 1) == Listed(MACHINE, ABC7)
  {
    Round6();
    Advance(ABC6, MESSAGE6, ABC7, 0);
  }

  lemma From5()
    ensures Rounds(PYTHON, Listed(MACHINE, ABC5), Listed(MACHINE, MESSAGE5), 2) == Listed(MACHINE, ABC7)
  {
    Round5();
    Advance(ABC5, MESSAGE5, ABC6, 1);
    MessagesPermuted();
    From6();
  }

  lemma From4()
    ensures Rounds(PYTHON, Listed(MACHINE, ABC4), Listed(MACHINE, MESSAGE4), 3) == Listed(MACHINE, ABC7)
  {
    Round4();
    Advance(ABC4, MESSAGE4, ABC5, 2);
    MessagesPermuted();
    From5();
  }

  lemma From3()
    ensures Rounds(PYTHON, Listed(MACHINE, ABC3), Listed(MACHINE, MESSAGE3), 4) == Listed(MACHINE, ABC7)
  {
    Round3();
    Advance(ABC3, MESSAGE3, ABC4, 3);
    MessagesPermuted();
    From4();
  }

  lemma From2()
    ensures Rounds(PYTHON, Listed(MACHINE, ABC2), Listed(MACHINE, MESSAGE2), 5) == Listed(MACHINE, ABC7)
  {
    Round2();
    Advance(ABC2, MESSAGE2, ABC3, 4);
    MessagesPermuted();
    From3();
  }

  lemma From1()
    ensures Rounds(PYTHON, Listed(MACHINE, ABC1), Listed(MACHINE, MESSAGE1), 6) == Listed(MACHINE, ABC7)
  {
    Round1();
    Advance(ABC1, MESSAGE1, ABC2, 5);
    MessagesPermuted();
    From2();
  }

  lemma From0()
    ensures Rounds(PYTHON, Listed(MACHINE, ABC0), Listed(MACHINE, MESSAGE0), 7) == Listed(MACHINE, ABC7)
  {
    Round0();
    Advance(ABC0, MESSAGE0, ABC1, 6);
    MessagesPermuted();
    From1();
  }

  // ----- The digest -----

  const ABC: seq<Byte> := [97, 98, 99]

  const OUTPUT: seq<Word> := [
    0xACB3_3764, 0x3351_4638, 0x753B_B6FF, 0xB58D_3A27,
    0x4658_C548, 0x3DB_795D, 0x6C9C_35FD, 0x859D_BDD5
  ]

  const DIGEST: seq<seq<Byte>> := [
    [0x64, 0x37, 0xB3, 0xAC], [0x38, 0x46, 0x51, 0x33], [0xFF, 0xB6, 0x3B, 0x75], [0x27, 0x3A, 0x8D, 0xB5],
    [0x48, 0xC5, 0x58, 0x46], [0x5D, 0x79, 0xDB, 0x03], [0xFD, 0x35, 0x9C, 0x6C], [0xD5, 0xBD, 0x9D, 0x85]
  ]

  lemma AbcWords()
    ensures Words(ABC) == Listed(MACHINE, MESSAGE0)
  {
    var padded := Padded(ABC);
    assert padded[0..4] == [97, 98, 99, 0];
    assert FromBytes([97, 98, 99, 0]) == 0x63_6261;
    forall i | 1 <= i < 16 ensures WordAt(padded, i) == 0 {
      assert padded[4 * i..4 * i + 4] == [0, 0, 0, 0];
      assert FromBytes([0, 0, 0, 0]) == 0;
    }
  }

  lemma AbcStart()
    ensures InitialState(IV, 3, 11) == Listed(MACHINE, ABC0)
  {
  }

  lemma FirstEight<T(!new)>(m: Arithmetic<T>, ops: WordOps, s: Rows<T>, cv: ChainingValue)
    requires Exact(m, ops)
    ensures FeedForward(ops, Listed(m, s), cv)[..8] ==
            [m.word(m.differ(s.a.w, s.c.w)), m.word(m.differ(s.a.x, s.c.x)),
             m.word(m.differ(s.a.y, s.c.y)), m.word(m.differ(s.a.z, s.c.z)),
             m.word(m.differ(s.b.w, s.d.w)), m.word(m.differ(s.b.x, s.d.x)),
             m.word(m.differ(s.b.y, s.d.y)), m.word(m.differ(s.b.z, s.d.z))]
  {
  }

  lemma AbcOutput()
    ensures FeedForward(PYTHON, Listed(MACHINE, ABC7), IV)[..8] == OUTPUT
  {
    MachineExact();
    FirstEight(MACHINE, PYTHON, ABC7, IV);
  }

  lemma AbcCompressed()
    ensures Compress(PYTHON, IV, Words(ABC), 3, 11)[..8] == OUTPUT
  {
    AbcWords();
    AbcStart();
    From0();
    AbcOutput();
  }

  function Number(a: int, b: int, c: int, d: int): int { a + 0x100 * b + 0x1_0000 * c + 0x100_0000 * d }

  /** A word of which `part` has the bytes, the lowest first. */
  predicate Reads(word: Word, part: seq<Byte>) {
    |part| == 4 && word == Number(part[0], part[1], part[2], part[3])
  }

  lemma FourBytes(word: Word, part: seq<Byte>)
    requires Reads(word, part)
    ensures ToBytes(word, 4) == part
  {
    assert FromBytes(part[3..]) == part[3];
    assert FromBytes(part[2..]) == Number(part[2], part[3], 0, 0);
    assert FromBytes(part[1..]) == Number(part[1], part[2], part[3], 0);
    IntegerToBytes(part);
  }

  predicate AllRead(words: seq<Word>, parts: seq<seq<Byte>>) {
    |parts| <= |words| && forall i :: 0 <= i < |parts| ==> Reads(words[i], parts[i])
  }

  lemma AbcRead()
    ensures AllRead(OUTPUT, DIGEST)
  {
  }

  /** Words read from bytes are put out as those bytes. */
  lemma {:induction false} PutOut(words: seq<Word>, parts: seq<seq<Byte>>)
    requires AllRead(words, parts)
    ensures |Joined(parts)| == 4 * |parts| && Joined(parts) <= OutputBytes(words)
  {
    if parts != [] {
      FourBytes(words[0], parts[0]);
      PutOut(words[1..], parts[1..]);
    }
  }

  lemma AbcSpelled(words: State)
    requires words[..8] == OUTPUT
    ensures |OutputBytes(words)| >= 32 && OutputBytes(words)[..32] == Joined(DIGEST)
  {
    AbcRead();
    assert AllRead(words, DIGEST) by {
      assert forall i :: 0 <= i < 8 ==> words[i] == words[..8][i];
    }
    PutOut(words, DIGEST);
  }

  lemma AbcChunk()
    ensures ChunkOutput(CompressWith(PYTHON), IV, ABC, true)[..8] == OUTPUT
  {
    AbcCompressed();
  }

  lemma HashIs(value: seq<Byte>, digest: seq<Byte>)
    requires |value| <= SINGLE_CHUNK_BYTES
    requires var bytes := OutputBytes(ChunkOutput(CompressWith(PYTHON), IV, value, true));
             |bytes| >= 32 && bytes[..32] == digest
    ensures Hash(value) == Digest.Digest(digest)
  {
  }

  /** The digest of "abc" is the published one. */
  lemma AbcDigest()
    ensures Hash(ABC) == Digest.Digest(Joined(DIGEST))
  {
    AbcChunk();
    AbcSpelled(ChunkOutput(CompressWith(PYTHON), IV, ABC, true));
    HashIs(ABC, Joined(DIGEST));
  }
}
