/** That digests may be assumed not to collide: the assumption can be met, by a function that
    gives well-formed digests to all contents of 32 bytes. */
module Digests {
  import opened Basics
  import opened FileStream

  function Digit(n: int): char
    requires 0 <= n < 16
  {
    if n < 10 then '0' + n as char else 'a' + (n - 10) as char
  }

  /** Two lower-case digits for each byte. */
  function Hex(content: Bytes): (s: string)
    ensures |s| == 2 * |content|
  {
    if content == [] then "" else [Digit(content[0] / 16), Digit(content[0] % 16)] + Hex(content[1..])
  }

  lemma {:induction false} HexIsInjective(a: Bytes, b: Bytes)
    requires Hex(a) == Hex(b)
    ensures a == b
  {
    if a != [] {
      assert Hex(a)[0] == Hex(b)[0] && Hex(a)[1] == Hex(b)[1];
      assert a[0] == b[0];
      assert Hex(a)[2..] == Hex(a[1..]) && Hex(b)[2..] == Hex(b[1..]);
      HexIsInjective(a[1..], b[1..]);
    }
  }

  lemma {:induction false} HexIsLower(content: Bytes)
    ensures Lower(Hex(content)) == Hex(content)
    ensures forall i :: 0 <= i < |Hex(content)| ==> IsHexDigit(Hex(content)[i])
  {
    if content != [] {
      var s, rest := Hex(content), Hex(content[1..]);
      HexIsLower(content[1..]);
      assert s[1..][1..] == rest;
      assert Lower(s) == [s[0]] + ([s[1]] + Lower(rest));
    }
  }

  lemma DigestsExist(content: Bytes) returns (hash: Hash)
    requires |content| == 32
    ensures IsDigest(hash) && IsSha(hash(content))
  {
    hash := (c: Bytes) => Hex(c);
    forall a, b | hash(a) == hash(b) ensures a == b {
      HexIsInjective(a, b);
    }
    forall c ensures Lower(hash(c)) == hash(c) {
      HexIsLower(c);
    }
    HexIsLower(content);
  }
}
