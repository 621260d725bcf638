/** Strict UTF-8 (section 3 of RFC 3629) and the cutting of an encoded line to a
    byte limit without splitting a character. */
module Utf8 {
  import opened Collections

  function EncodeChar(c: char): (bytes: seq<Byte>)
    ensures 1 <= |bytes| <= 4
  {
    var n := c as int;
    if n < 0x80 then [n]
    else if n < 0x800 then [0xC0 + n / 0x40, 0x80 + n % 0x40]
    else if n < 0x1_0000 then [0xE0 + n / 0x40 / 0x40, 0x80 + n / 0x40 % 0x40, 0x80 + n % 0x40]
    else [0xF0 + n / 0x40 / 0x40 / 0x40, 0x80 + n / 0x40 / 0x40 % 0x40, 0x80 + n / 0x40 % 0x40, 0x80 + n % 0x40]
  }

  function Encode(s: string): seq<Byte> {
    if s == [] then [] else EncodeChar(s[0]) + Encode(s[1..])
  }

  predicate IsTail(b: int) { 0x80 <= b < 0xC0 }

  predicate IsScalar(n: int) { 0 <= n < 0xD800 || 0xE000 <= n < 0x11_0000 }

  /** A value extended by the six bits of a continuation byte. */
  function Extend(n: int, tail: int): int { n * 0x40 + (tail - 0x80) }

  lemma ExtendSplits(n: int, tail: int)
    requires IsTail(tail)
    ensures Extend(n, tail) / 0x40 == n && 0x80 + Extend(n, tail) % 0x40 == tail
  {
  }

  /** The length a lead byte announces, 0 when it cannot lead. */
  function LeadLength(b: int): nat {
    if 0 <= b < 0x80 then 1 else if 0xC0 <= b < 0xE0 then 2 else if 0xE0 <= b < 0xF0 then 3
    else if 0xF0 <= b < 0xF8 then 4 else 0
  }

  /** The value spelled by a lead byte and its continuation bytes. */
  function Spelled(bytes: seq<Byte>): int
    requires 1 <= |bytes| <= 4
  {
    match |bytes|
    case 1 => bytes[0]
    case 2 => Extend(bytes[0] as int - 0xC0, bytes[1])
    case 3 => Extend(Extend(bytes[0] as int - 0xE0, bytes[1]), bytes[2])
    case _ => Extend(Extend(Extend(bytes[0] as int - 0xF0, bytes[1]), bytes[2]), bytes[3])
  }

  function MinimumOf(length: nat): int {
    match length
    case 1 => 0
    case 2 => 0x80
    case 3 => 0x800
    case _ => 0x1_0000
  }

  /** One well-formed character: a lead byte, the continuation bytes it announces,
      no overlong form and no surrogate. */
  predicate WellFormed(bytes: seq<Byte>) {
    && 1 <= |bytes| <= 4
    && LeadLength(bytes[0]) == |bytes|
    && (forall i :: 1 <= i < |bytes| ==> IsTail(bytes[i]))
    && IsScalar(Spelled(bytes))
    && Spelled(bytes) >= MinimumOf(|bytes|)
  }

  lemma EncodeCharWellFormed(c: char)
    ensures WellFormed(EncodeChar(c)) && Spelled(EncodeChar(c)) == c as int
  {
  }

  lemma WellFormedEncodes(bytes: seq<Byte>)
    requires WellFormed(bytes)
    ensures EncodeChar(Spelled(bytes) as char) == bytes
  {
    var n := Spelled(bytes);
    if |bytes| == 2 {
      ExtendSplits(bytes[0] as int - 0xC0, bytes[1]);
    } else if |bytes| == 3 {
      var n1 := Extend(bytes[0] as int - 0xE0, bytes[1]);
      ExtendSplits(bytes[0] as int - 0xE0, bytes[1]);
      ExtendSplits(n1, bytes[2]);
    } else if |bytes| == 4 {
      var n1 := Extend(bytes[0] as int - 0xF0, bytes[1]);
      var n2 := Extend(n1, bytes[2]);
      ExtendSplits(bytes[0] as int - 0xF0, bytes[1]);
      ExtendSplits(n1, bytes[2]);
      ExtendSplits(n2, bytes[3]);
    }
  }

  /** `bytes.decode("utf-8", errors="strict")`. */
  function Decode(bytes: seq<Byte>): Option<string> {
    if bytes == [] then Some([])
    else
      var n := LeadLength(bytes[0]);
      if n == 0 || n > |bytes| || !WellFormed(bytes[..n]) then None
      else
        match Decode(bytes[n..])
        case None => None
        case Some(rest) => Some([Spelled(bytes[..n]) as char] + rest)
  }

  lemma {:induction false} DecodeEncode(s: string)
    ensures Decode(Encode(s)) == Some(s)
  {
    if s != [] {
      var first, bytes := EncodeChar(s[0]), Encode(s);
      DecodeEncode(s[1..]);
      EncodeCharWellFormed(s[0]);
      assert bytes[..|first|] == first && bytes[|first|..] == Encode(s[1..]);
      assert [s[0]] + s[1..] == s;
    }
  }

  /** What strict decoding takes off the front is the encoding of the first character. */
  lemma DecodeSplits(bytes: seq<Byte>) returns (c: char, n: nat, rest: string)
    requires bytes != [] && Decode(bytes).Some?
    ensures 1 <= n <= |bytes| && EncodeChar(c) == bytes[..n]
    ensures Decode(bytes[n..]) == Some(rest) && Decode(bytes) == Some([c] + rest)
  {
    n := LeadLength(bytes[0]);
    var head := bytes[..n];
    WellFormedEncodes(head);
    c := Spelled(head) as char;
    rest := Decode(bytes[n..]).value;
  }

  lemma EncodeJoins(c: char, rest: string, head: seq<Byte>, tail: seq<Byte>)
    requires EncodeChar(c) == head && Encode(rest) == tail
    ensures Encode([c] + rest) == head + tail
  {
    assert ([c] + rest)[1..] == rest;
  }

  /** Strict decoding accepts nothing but encodings. */
  lemma {:induction false} EncodeDecode(bytes: seq<Byte>)
    requires Decode(bytes).Some?
    ensures Encode(Decode(bytes).value) == bytes
  {
    if bytes != [] {
      var c, n, rest := DecodeSplits(bytes);
      EncodeDecode(bytes[n..]);
      EncodeJoins(c, rest, bytes[..n], bytes[n..]);
      assert bytes[..n] + bytes[n..] == bytes;
    }
  }

  lemma {:induction false} EncodeConcat(a: string, b: string)
    ensures Encode(a + b) == Encode(a) + Encode(b)
  {
    if a == [] {
      assert a + b == b;
    } else {
      EncodeConcat(a[1..], b);
      assert (a + b)[1..] == a[1..] + b;
      Regroup(EncodeChar(a[0]), Encode(a[1..]), Encode(b), Encode(a[1..] + b), EncodeChar(a[0]) + Encode(a[1..] + b));
    }
  }

  /** A character's encoding announces its own length, so encodings that begin
      alike encode strings that begin alike. */
  lemma {:induction false} PrefixFree(t: string, line: string)
    requires Encode(t) <= Encode(line)
    ensures t <= line
  {
    if t != [] {
      var bytes := Encode(line);
      EncodeCharWellFormed(t[0]);
      assert Encode(t)[0] == EncodeChar(t[0])[0] == bytes[0];
      assert line != [];
      EncodeCharWellFormed(line[0]);
      assert bytes[0] == EncodeChar(line[0])[0];
      var n := |EncodeChar(t[0])|;
      assert n == |EncodeChar(line[0])|;
      assert bytes[..n] == EncodeChar(line[0]) && Encode(t)[..n] == EncodeChar(t[0]);
      assert Encode(t)[..n] == bytes[..n];
      assert Encode(t)[n..] == Encode(t[1..]) && bytes[n..] == Encode(line[1..]);
      PrefixFree(t[1..], line[1..]);
    }
  }

  // ----- Cutting a line -----

  /** How many leading characters of `line` encode to at most `limit` bytes. */
  function FitCount(line: string, limit: nat): (k: nat)
    ensures k <= |line|
  {
    if line == [] || |EncodeChar(line[0])| > limit then 0
    else 1 + FitCount(line[1..], limit - |EncodeChar(line[0])|)
  }

  lemma {:induction false} EncodeGrows(line: string, j: nat, k: nat)
    requires j < k <= |line|
    ensures |Encode(line[..j])| < |Encode(line[..k])|
  {
    EncodeConcat(line[..j], line[j..k]);
    assert line[..j] + line[j..k] == line[..k];
    assert Encode(line[j..k]) == EncodeChar(line[j]) + Encode(line[j..k][1..]);
  }

  /** `FitCount` is the longest fit, and leaves fewer than four bytes unused when
      something had to be cut. */
  lemma {:induction false} FitCountIsLongest(line: string, limit: nat)
    ensures var k := FitCount(line, limit);
            && |Encode(line[..k])| <= limit
            && (k < |line| ==> |Encode(line[..k + 1])| > limit && |Encode(line[..k])| + 3 >= limit)
  {
    var k := FitCount(line, limit);
    if k == 0 {
      if line != [] {
        assert line[..1] == [line[0]] && line[..1][1..] == [];
        assert Encode(line[..1]) == EncodeChar(line[0]);
      }
    } else {
      var used := |EncodeChar(line[0])|;
      FitCountIsLongest(line[1..], limit - used);
      assert line[..k][1..] == line[1..][..k - 1];
      if k < |line| {
        assert line[..k + 1][1..] == line[1..][..k];
      }
    }
  }

  lemma EncodePrefix(line: string, k: nat)
    requires k <= |line|
    ensures |Encode(line[..k])| <= |Encode(line)|
    ensures Encode(line)[..|Encode(line[..k])|] == Encode(line[..k])
  {
    EncodeConcat(line[..k], line[k..]);
    assert line[..k] + line[k..] == line;
  }

  /** No cut strictly between the longest fit and the limit decodes. */
  lemma PartialCharacterRefused(line: string, limit: nat, cut: nat)
    requires |Encode(line[..FitCount(line, limit)])| < cut <= limit && cut <= |Encode(line)|
    ensures Decode(Encode(line)[..cut]) == None
  {
    var k := FitCount(line, limit);
    var bytes := Encode(line)[..cut];
    if Decode(bytes).Some? {
      var t := Decode(bytes).value;
      EncodeDecode(bytes);
      PrefixFree(t, line);
      assert t == line[..|t|];
      FitCountIsLongest(line, limit);
      if |t| > k + 1 {
        EncodeGrows(line, k + 1, |t|);
      } else if |t| < k {
        EncodeGrows(line, |t|, k);
      }
      assert false;
    }
  }

  /** The snippet of a line and whether it was cut: bytes are dropped from the end
      of the limited encoding until it decodes. The result is the longest prefix of
      whole characters that fits; at most three bytes are dropped after the cut. */
  method CutLine(line: string, limit: nat) returns (snippet: string)
    ensures snippet == line[..FitCount(line, limit)]
    ensures snippet != line <==> |Encode(line)| > limit
  {
    var encoded := Encode(line);
    var k := FitCount(line, limit);
    FitCountIsLongest(line, limit);
    EncodePrefix(line, k);
    if |encoded| <= limit {
      if k < |line| {
        EncodePrefix(line, k + 1);
      }
      assert line[..k] == line;
      return line;
    }
    encoded := encoded[..limit];
    while Decode(encoded) == None
      invariant |Encode(line[..k])| <= |encoded| <= limit
      invariant encoded == Encode(line)[..|encoded|]
      decreases |encoded|
    {
      if |encoded| == |Encode(line[..k])| {
        DecodeEncode(line[..k]);
        assert false;
      }
      encoded := encoded[..|encoded| - 1];
    }
    if |encoded| > |Encode(line[..k])| {
      PartialCharacterRefused(line, limit, |encoded|);
      assert false;
    }
    DecodeEncode(line[..k]);
    assert line[..|line|] == line;
    snippet := Decode(encoded).value;
  }
}
