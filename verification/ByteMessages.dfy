/** Messages as bits: the codes of their bytes one after another, in either bit order. */
module ByteMessages {
  import opened PolyDivision

  type byte = bv8

  /** How a byte is sent: eight bits. */
  type ByteCode = code: byte -> Bits | forall b :: |code(b)| == 8 witness _ => Zeros(8)

  function Serial(code: ByteCode, data: seq<byte>): (r: Bits)
    ensures |r| == 8 * |data|
  {
    if data == [] then [] else code(data[0]) + Serial(code, data[1..])
  }

  lemma {:induction false} SerialAppend(code: ByteCode, a: seq<byte>, b: seq<byte>)
    ensures Serial(code, a + b) == Serial(code, a) + Serial(code, b)
    decreases |a|
  {
    if a == [] {
      assert a + b == b;
    } else {
      assert (a + b)[1..] == a[1..] + b;
      SerialAppend(code, a[1..], b);
    }
  }

  lemma SerialAround(code: ByteCode, x: seq<byte>, at: nat, width: nat)
    requires at + width <= |x|
    ensures Serial(code, x)[..8 * at] == Serial(code, x[..at])
    ensures Serial(code, x)[8 * (at + width)..] == Serial(code, x[at + width..])
  {
    hide Serial;
    assert x == x[..at] + x[at..] && x == x[..at + width] + x[at + width..];
    SerialAppend(code, x[..at], x[at..]);
    SerialAppend(code, x[..at + width], x[at + width..]);
  }

  ghost predicate Decodable(code: ByteCode) { forall a, b | code(a) == code(b) :: a == b }

  lemma {:induction false} SerialInjective(code: ByteCode, x: seq<byte>, y: seq<byte>)
    requires Decodable(code) && |x| == |y| && Serial(code, x) == Serial(code, y)
    ensures x == y
    decreases |x|
  {
    if x != [] {
      assert Serial(code, x)[..8] == code(x[0]) && Serial(code, y)[..8] == code(y[0]);
      assert Serial(code, x)[8..] == Serial(code, x[1..]) && Serial(code, y)[8..] == Serial(code, y[1..]);
      SerialInjective(code, x[1..], y[1..]);
      assert x[0] == y[0];
      assert x == [x[0]] + x[1..] && y == [y[0]] + y[1..];
    }
  }

  /** Damage inside a window of bytes is damage inside the window of their bits. */
  lemma SerialBurst(code: ByteCode, x: seq<byte>, y: seq<byte>, at: nat, width: nat)
    requires Decodable(code) && IsBurst(x, y, at, width)
    ensures IsBurst(Serial(code, x), Serial(code, y), 8 * at, 8 * width)
  {
    hide Serial;
    SerialAround(code, x, at, width);
    SerialAround(code, y, at, width);
    if Serial(code, x) == Serial(code, y) { SerialInjective(code, x, y); }
  }
}
