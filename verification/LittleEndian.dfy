/** Little-endian integers: `int.to_bytes(k, "little")` and `int.from_bytes`. */
module LittleEndian {
  import opened Collections

  function Pow256(k: nat): (p: nat)
    ensures p >= 1
  {
    if k == 0 then 1 else 256 * Pow256(k - 1)
  }

  function ToBytes(n: nat, k: nat): (bytes: seq<Byte>)
    ensures |bytes| == k
    decreases k
  {
    if k == 0 then [] else [n % 256] + ToBytes(n / 256, k - 1)
  }

  function FromBytes(bytes: seq<Byte>): nat {
    if bytes == [] then 0 else bytes[0] + 256 * FromBytes(bytes[1..])
  }

  lemma {:induction false} ByteAt(n: nat, k: nat, j: nat)
    requires j < k
    ensures ToBytes(n, k)[j] == n / Pow256(j) % 256
    decreases j
  {
    if j > 0 {
      ByteAt(n / 256, k - 1, j - 1);
      DividedTwice(n, Pow256(j - 1));
    }
  }

  lemma DividedTwice(n: nat, b: nat)
    requires b > 0
    ensures n / 256 / b == n / (256 * b)
  {
    var m := n / 256;
    var q, s := m / b, m % b;
    assert (256 * b) * q == 256 * (b * q);
    QuotientIs(n, 256 * b, q, 256 * s + n % 256);
  }

  lemma QuotientIs(n: nat, d: nat, q: nat, r: nat)
    requires n == d * q + r && r < d
    ensures n / d == q
  {
    var k := n / d;
    assert d * (k - q) == r - n % d;
    if k != q {
      Apart(d, k - q);
    }
  }

  lemma Apart(d: nat, k: int)
    requires k != 0
    ensures d * k >= d || d * k + d <= 0
  {
  }

  lemma {:induction false} BytesToInteger(n: nat, k: nat)
    requires n < Pow256(k)
    ensures FromBytes(ToBytes(n, k)) == n
    decreases k
  {
    if k > 0 {
      BytesToInteger(n / 256, k - 1);
      assert ToBytes(n, k)[1..] == ToBytes(n / 256, k - 1);
    }
  }

  lemma {:induction false} IntegerToBytes(bytes: seq<Byte>)
    ensures FromBytes(bytes) < Pow256(|bytes|)
    ensures ToBytes(FromBytes(bytes), |bytes|) == bytes
  {
    if bytes != [] {
      IntegerToBytes(bytes[1..]);
      assert FromBytes(bytes) / 256 == FromBytes(bytes[1..]);
    }
  }
}
