/** The ownership commitment: four length-prefixed fields behind a fixed domain
    string, hashed by one-chunk BLAKE3. */
module Commitment {
  import opened Collections
  import opened LittleEndian
  import Blake3Chunk

  /** "again.agent-gateway-setup.owner.v2" and a zero byte. */
  const DOMAIN: seq<Byte> := [
    97, 103, 97, 105, 110, 46, 97, 103, 101, 110, 116, 45, 103, 97, 116, 101, 119, 97, 121,
    45, 115, 101, 116, 117, 112, 46, 111, 119, 110, 101, 114, 46, 118, 50, 0
  ]

  /** A field's length must fit its eight length bytes. */
  predicate Fits(field: seq<Byte>) {
    |field| < 0x1_0000_0000_0000_0000
  }

  predicate AllFit(fields: seq<seq<Byte>>) {
    forall i :: 0 <= i < |fields| ==> Fits(fields[i])
  }

  lemma EightBytes()
    ensures Pow256(8) == 0x1_0000_0000_0000_0000
  {
    assert Pow256(4) == 0x1_0000_0000;
  }

  /** `_hash_field`. */
  function HashField(field: seq<Byte>): seq<Byte> {
    ToBytes(|field|, 8) + field
  }

  function Encode(fields: seq<seq<Byte>>): seq<Byte> {
    if fields == [] then [] else HashField(fields[0]) + Encode(fields[1..])
  }

  /** Reads `count` length-prefixed fields that must fill the input exactly. */
  function Decode(bytes: seq<Byte>, count: nat): Option<seq<seq<Byte>>>
    decreases count
  {
    if count == 0 then (if bytes == [] then Some([]) else None)
    else if |bytes| < 8 then None
    else
      var size := FromBytes(bytes[..8]);
      if |bytes| < 8 + size then None
      else
        match Decode(bytes[8 + size..], count - 1)
        case None => None
        case Some(rest) => Some([bytes[8..8 + size]] + rest)
  }

  lemma DecodeField(field: seq<Byte>, tail: seq<Byte>)
    requires Fits(field)
    ensures var bytes := HashField(field) + tail;
            && FromBytes(bytes[..8]) == |field|
            && bytes[8..8 + |field|] == field
            && bytes[8 + |field|..] == tail
  {
    var bytes := HashField(field) + tail;
    EightBytes();
    BytesToInteger(|field|, 8);
    assert bytes[..8] == ToBytes(|field|, 8);
  }

  lemma {:induction false} DecodeEncode(fields: seq<seq<Byte>>)
    requires AllFit(fields)
    ensures Decode(Encode(fields), |fields|) == Some(fields)
  {
    if fields != [] {
      DecodeEncode(fields[1..]);
      DecodeField(fields[0], Encode(fields[1..]));
      assert [fields[0]] + fields[1..] == fields;
    }
  }

  /** Two commitments to the same number of fields are equal only when every
      field is. */
  lemma CommitmentInjective(domain: seq<Byte>, f1: seq<seq<Byte>>, f2: seq<seq<Byte>>)
    requires |f1| == |f2|
    requires AllFit(f1) && AllFit(f2)
    requires domain + Encode(f1) == domain + Encode(f2)
    ensures f1 == f2
  {
    DecodeEncode(f1);
    DecodeEncode(f2);
    assert Encode(f1) == (domain + Encode(f1))[|domain|..];
    assert Encode(f2) == (domain + Encode(f2))[|domain|..];
  }

  lemma {:induction false} EncodeAppend(fields: seq<seq<Byte>>, field: seq<Byte>)
    ensures Encode(fields + [field]) == Encode(fields) + HashField(field)
  {
    if fields == [] {
      assert [field][1..] == [];
    } else {
      EncodeAppend(fields[1..], field);
      assert (fields + [field])[1..] == fields[1..] + [field];
      Regroup(HashField(fields[0]), Encode(fields[1..]), HashField(field),
              Encode(fields[1..] + [field]), HashField(fields[0]) + Encode(fields[1..] + [field]));
    }
  }

  lemma CommitStep(domain: seq<Byte>, done: seq<seq<Byte>>, field: seq<Byte>, bytes: seq<Byte>)
    requires bytes == domain + Encode(done)
    ensures bytes + HashField(field) == domain + Encode(done + [field])
  {
    EncodeAppend(done, field);
    Regroup(domain, Encode(done), HashField(field), Encode(done + [field]), domain + Encode(done + [field]));
  }

  /** The loop that extends the commitment; a field too long for its eight length
      bytes cannot be encoded. */
  method Commit(domain: seq<Byte>, fields: seq<seq<Byte>>) returns (commitment: Option<seq<Byte>>)
    ensures commitment == if AllFit(fields) then Some(domain + Encode(fields)) else None
  {
    var bytes := domain;
    ghost var done: seq<seq<Byte>> := [];
    for i := 0 to |fields|
      invariant done == fields[..i] && AllFit(done)
      invariant bytes == domain + Encode(done)
    {
      if !Fits(fields[i]) {
        return None;
      }
      CommitStep(domain, done, fields[i], bytes);
      PrefixGrows(fields, i);
      bytes := bytes + HashField(fields[i]);
      done := done + [fields[i]];
    }
    assert done == fields;
    return Some(bytes);
  }

  /** `expected_ownership_digest`: the digest of the commitment, refused when it is
      longer than one chunk. */
  method ExpectedOwnershipDigest(client: seq<Byte>, configPath: seq<Byte>, workspace: seq<Byte>, document: seq<Byte>)
    returns (digest: Option<Blake3Chunk.Digest>)
    ensures var fields := [client, configPath, workspace, document];
            digest == if AllFit(fields) then Some(Blake3Chunk.Hash(DOMAIN + Encode(fields))) else None
  {
    var commitment := Commit(DOMAIN, [client, configPath, workspace, document]);
    if commitment == None {
      return None;
    }
    var hash := Blake3Chunk.Blake3SingleChunk(commitment.value);
    return Some(hash);
  }
}
