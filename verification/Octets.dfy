/**
 Byte strings and their exclusive or.
 */
module Octets {
  import opened Words

  datatype Octet = Octet(bits: Byte)

  type Bytes = seq<Octet>

  function XorBytes(a: Bytes, b: Bytes): (c: Bytes)
    requires |a| == |b|
    ensures |c| == |a|
  {
    seq(|a|, i requires 0 <= i < |a| => Octet(Xor(a[i].bits, b[i].bits)))
  }

  lemma XorBytesTwice(a: Bytes, b: Bytes)
    requires |a| == |b|
    ensures XorBytes(XorBytes(a, b), b) == a && XorBytes(a, b) == XorBytes(b, a)
  {
    forall i | 0 <= i < |a|
      ensures XorBytes(XorBytes(a, b), b)[i] == a[i] && XorBytes(a, b)[i] == XorBytes(b, a)[i]
    {
      var x, y := a[i].bits, b[i].bits;
      XorAssoc(x, y, y);
      XorSelf(y);
      XorSelf(x);
      XorComm(x, y);
    }
  }
}
