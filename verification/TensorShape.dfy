/** Tensor shapes cross from the native library to Python as one 64-bit word: sixteen bits per
    dimension, packed by one side and unpacked by the other. Words are natural numbers; the bitwise
    operators are defined bit by bit. */
module TensorShape {

  /** A field is sixteen bits: 65536 values, masked by 0xFFFF. */
  const FIELD: nat := 65536
  const MASK: nat := 0xFFFF

  // --- bitwise operators ---

  function Or(a: nat, b: nat): nat {
    if a == 0 then b
    else if b == 0 then a
    else 2 * Or(a / 2, b / 2) + if a % 2 == 1 || b % 2 == 1 then 1 else 0
  }

  function And(a: nat, b: nat): nat {
    if a == 0 || b == 0 then 0
    else 2 * And(a / 2, b / 2) + if a % 2 == 1 && b % 2 == 1 then 1 else 0
  }

  function Shl(a: nat, bits: nat): (r: nat)
    ensures a > 0 ==> r > 0
  {
    if bits == 0 then a else 2 * Shl(a, bits - 1)
  }

  /** The lowest `bits` bits set. */
  function Ones(bits: nat): nat {
    if bits == 0 then 0 else 2 * Ones(bits - 1) + 1
  }

  /** Bits that do not meet add up. */
  lemma {:induction false} OrIsSum(a: nat, b: nat, bits: nat)
    requires a < Shl(1, bits)
    ensures Or(a, Shl(b, bits)) == a + Shl(b, bits)
  {
    if bits > 0 && a > 0 && Shl(b, bits) > 0 {
      OrIsSum(a / 2, b, bits - 1);
    }
  }

  /** Masking with ones is the remainder. */
  lemma {:induction false} MaskIsRemainder(a: nat, bits: nat)
    ensures And(a, Ones(bits)) == a % Shl(1, bits)
  {
    if bits > 0 {
      MaskIsRemainder(a / 2, bits - 1);
      MaskStep(a, Ones(bits - 1), Shl(1, bits - 1));
    }
  }

  lemma {:induction false} MaskStep(a: nat, ones: nat, half: nat)
    requires half > 0 && And(a / 2, ones) == a / 2 % half
    ensures And(a, 2 * ones + 1) == a % (2 * half)
  {
    HalfRemainder(a, half);
  }

  lemma {:induction false} HalfRemainder(a: nat, half: nat)
    requires half > 0
    ensures a % (2 * half) == 2 * (a / 2 % half) + a % 2
  {
    var q, r := a / 2 / half, a / 2 % half;
    assert a == 2 * (q * half + r) + a % 2;
    RemainderIs(a, 2 * half, q, 2 * r + a % 2);
  }

  lemma {:induction false} RemainderIs(a: nat, m: nat, q: nat, r: nat)
    requires m > 0 && r < m && a == q * m + r
    ensures a % m == r
  {
    var k := q - a / m;
    assert k * m == a % m - r;
  }

  lemma {:induction false} FieldIsSixteenBits()
    ensures Shl(1, 16) == FIELD && Ones(16) == MASK
  {
    ShlAdd(1, 4, 4);
    ShlAdd(1, 8, 8);
    ShlScales(Shl(1, 4), 4);
    ShlScales(Shl(1, 8), 8);
    OnesIsLess(16);
  }

  lemma {:induction false} OnesIsLess(bits: nat)
    ensures Ones(bits) == Shl(1, bits) - 1
  {
    if bits > 0 {
      OnesIsLess(bits - 1);
    }
  }

  // --- packing ---

  /** The number whose base-65536 digits are the dimensions, first dimension lowest. */
  function Packed(shape: seq<nat>): nat {
    if shape == [] then 0 else shape[0] + FIELD * Packed(shape[1..])
  }

  ghost predicate Packable(shape: seq<nat>) {
    forall i :: 0 <= i < |shape| ==> shape[i] < FIELD
  }

  lemma {:induction false} ShlField(v: nat, d: nat)
    ensures Shl(v, (d + 1) * 16) == FIELD * Shl(v, d * 16)
  {
    ShlAdd(v, d * 16, 16);
    FieldIsSixteenBits();
    ShlScales(Shl(v, d * 16), 16);
  }

  lemma {:induction false} ShlAdd(v: nat, m: nat, n: nat)
    ensures Shl(v, m + n) == Shl(Shl(v, m), n)
  {
    if n > 0 {
      ShlAdd(v, m, n - 1);
    }
  }

  lemma {:induction false} ShlScales(v: nat, n: nat)
    ensures Shl(v, n) == Shl(1, n) * v
  {
    if n > 0 {
      ShlScales(v, n - 1);
    }
  }

  lemma {:induction false} PackedLast(shape: seq<nat>, v: nat)
    ensures Packed(shape + [v]) == Packed(shape) + Shl(v, |shape| * 16)
  {
    if shape == [] {
      assert shape + [v] == [v];
    } else {
      assert (shape + [v])[1..] == shape[1..] + [v];
      PackedLast(shape[1..], v);
      ShlField(v, |shape| - 1);
    }
  }

  lemma {:induction false} PackedFits(shape: seq<nat>)
    requires Packable(shape)
    ensures Packed(shape) < Shl(1, |shape| * 16)
  {
    if shape != [] {
      PackedFits(shape[1..]);
      ShlField(1, |shape| - 1);
    }
  }

  /** `Ann::shape`: each dimension is ORed in at its own offset. Four dimensions fit the word, and the
      OR is their sum. */
  method Pack(shape: seq<nat>) returns (s: nat)
    requires Packable(shape) && |shape| <= 4
    ensures s == Packed(shape) && s < Shl(1, 64)
  {
    s := 0;
    for d := 0 to |shape|
      invariant s == Packed(shape[..d])
    {
      PackedFits(shape[..d]);
      OrIsSum(s, shape[d], d * 16);
      s := Or(s, Shl(shape[d], d * 16));
      PackedLast(shape[..d], shape[d]);
      assert shape[..d + 1] == shape[..d] + [shape[d]];
    }
    assert shape[..|shape|] == shape;
    PackedFits(shape);
    ShlGrows(|shape| * 16, 64);
  }

  lemma {:induction false} ShlGrows(m: nat, n: nat)
    requires m <= n
    ensures Shl(1, m) <= Shl(1, n)
    decreases n - m
  {
    if m < n {
      ShlGrows(m + 1, n);
    }
  }

  // --- unpacking ---

  function Unpacked(s: nat): seq<nat> {
    if s == 0 then [] else [s % FIELD] + Unpacked(s / FIELD)
  }

  /** `Ann.shape`: takes sixteen bits at a time until nothing is left. */
  method Unpack(word: nat) returns (a: seq<nat>)
    ensures a == Unpacked(word)
  {
    a := [];
    var s: nat := word;
    while s != 0
      invariant a + Unpacked(s) == Unpacked(word)
    {
      FieldIsSixteenBits();
      MaskIsRemainder(s, 16);
      a := a + [And(s, MASK)];
      s := s / FIELD;
    }
  }

  /** The shape without the zeros at its end. */
  function Trimmed(shape: seq<nat>): seq<nat> {
    if shape == [] then []
    else
      var rest := Trimmed(shape[1..]);
      if rest == [] && shape[0] == 0 then [] else [shape[0]] + rest
  }

  /** Unpacking what was packed gives the shape back, less any zero dimensions at its end. */
  lemma {:induction false} UnpackTrims(shape: seq<nat>)
    requires Packable(shape)
    ensures Unpacked(Packed(shape)) == Trimmed(shape)
  {
    if shape != [] {
      var p := Packed(shape[1..]);
      UnpackTrims(shape[1..]);
      assert (shape[0] + FIELD * p) % FIELD == shape[0] && (shape[0] + FIELD * p) / FIELD == p;
    }
  }

  lemma {:induction false} TrimmedWhole(shape: seq<nat>)
    ensures |Trimmed(shape)| <= |shape|
    ensures Trimmed(shape) == shape <==> shape == [] || shape[|shape| - 1] != 0
  {
    if shape != [] {
      TrimmedWhole(shape[1..]);
      assert shape == [shape[0]] + shape[1..];
      if |shape| > 1 {
        assert shape[1..][|shape| - 2] == shape[|shape| - 1];
      }
    }
  }

  /** The round trip holds exactly for shapes that do not end in a zero dimension. */
  lemma {:induction false} RoundTrip(shape: seq<nat>)
    requires Packable(shape)
    ensures Unpacked(Packed(shape)) == shape <==> shape == [] || shape[|shape| - 1] != 0
  {
    UnpackTrims(shape);
    TrimmedWhole(shape);
  }

  /** Both sides, one after the other. */
  method SendShape(shape: seq<nat>) returns (received: seq<nat>)
    requires Packable(shape) && |shape| <= 4
    ensures received == Trimmed(shape)
    ensures received == shape <==> shape == [] || shape[|shape| - 1] != 0
  {
    var s := Pack(shape);
    received := Unpack(s);
    UnpackTrims(shape);
    RoundTrip(shape);
  }
}
