/**
 Machine words as bit strings, most significant bit first.
 */
module Words {

  type Bits = seq<bool>
  type Byte = w: Bits | |w| == 8 witness Zeros(8)
  type U16 = w: Bits | |w| == 16 witness Zeros(16)
  type U32 = w: Bits | |w| == 32 witness Zeros(32)
  type U64 = w: Bits | |w| == 64 witness Zeros(64)

  function Zeros(n: nat): (w: Bits)
    ensures |w| == n && forall i :: 0 <= i < n ==> !w[i]
  {
    seq(n, _ => false)
  }

  function Xor(x: Bits, y: Bits): (w: Bits)
    requires |x| == |y|
    ensures |w| == |x| && forall i :: 0 <= i < |w| ==> w[i] == (x[i] != y[i])
  {
    seq(|x|, i requires 0 <= i < |x| => x[i] != y[i])
  }

  function Or(x: Bits, y: Bits): (w: Bits)
    requires |x| == |y|
    ensures |w| == |x| && forall i :: 0 <= i < |w| ==> w[i] == (x[i] || y[i])
  {
    seq(|x|, i requires 0 <= i < |x| => x[i] || y[i])
  }

  function Shr(x: Bits, n: nat): (w: Bits)
    requires n <= |x|
    ensures |w| == |x| && forall i :: 0 <= i < |w| ==> w[i] == (i >= n && x[i - n])
  {
    Zeros(n) + x[..|x| - n]
  }

  function Shl(x: Bits, n: nat): (w: Bits)
    requires n <= |x|
    ensures |w| == |x| && forall i :: 0 <= i < |w| ==> w[i] == (i + n < |x| && x[i + n])
  {
    x[n..] + Zeros(n)
  }

  function And(x: Bits, y: Bits): (w: Bits)
    requires |x| == |y|
    ensures |w| == |x| && forall i :: 0 <= i < |w| ==> w[i] == (x[i] && y[i])
  {
    seq(|x|, i requires 0 <= i < |x| => x[i] && y[i])
  }

  function Not(x: Bits): (w: Bits)
    ensures |w| == |x| && forall i :: 0 <= i < |w| ==> w[i] == !x[i]
  {
    seq(|x|, i requires 0 <= i < |x| => !x[i])
  }

  lemma XorAssoc(x: Bits, y: Bits, z: Bits)
    requires |x| == |y| == |z|
    ensures Xor(Xor(x, y), z) == Xor(x, Xor(y, z))
  {}

  lemma XorComm(x: Bits, y: Bits)
    requires |x| == |y|
    ensures Xor(x, y) == Xor(y, x)
  {}

  lemma XorSelf(x: Bits)
    ensures Xor(x, x) == Zeros(|x|) && Xor(x, Zeros(|x|)) == x
  {}
}
