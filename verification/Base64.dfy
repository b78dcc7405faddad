/** The base64 codec that carries output bytes inside JSON frames (`bytes_b64` in crates/rbs-proto/src/job.rs),
    after section 4 of RFC 4648. Text is the UTF-8 bytes of the string, as the decoder reads it. */
module Base64 {
  import opened Octets

  datatype Error = BadLength | BadPadding | MiddlePadding | BadByte(byte: Byte)

  datatype Result<T> = Ok(value: T) | Err(error: Error)

  const PAD: Byte := '=' as int

  predicate InAlphabet(c: Byte) {
    65 <= c <= 90 || 97 <= c <= 122 || 48 <= c <= 57 || c == 43 || c == 47
  }

  /** Value of an alphabet character: A-Z, a-z, 0-9, '+', '/'. */
  function Value(c: Byte): (v: nat)
    requires InAlphabet(c)
    ensures v < 64 && Digit(v) == c
  {
    if c >= 97 then c - 97 + 26
    else if c >= 65 then c - 65
    else if c >= 48 then c - 48 + 52
    else if c == 43 then 62 else 63
  }

  /** The alphabet in order. */
  function Digit(v: nat): Byte
    requires v < 64
  {
    if v < 26 then 65 + v else if v < 52 then 97 + v - 26 else if v < 62 then 48 + v - 52 else if v ==
        62 then 43 else 47
  }

  lemma DigitValue(v: nat)
    requires v < 64
    ensures InAlphabet(Digit(v)) && Value(Digit(v)) == v
  {
  }

  // ------------------------------------------------------------------------------------------
  // One quantum: 24 bits as three bytes and as four digits

  function FromBytes(b0: Byte, b1: Byte, b2: Byte): (n: nat)
    ensures n < 0x100_0000
  {
    (b0 * 256 + b1) * 256 + b2
  }

  /** Digit `k` (most significant first) of 24 bits. */
  function SixBits(n: nat, k: nat): (v: nat)
    requires k < 4
    ensures v < 64
  {
    if k == 0 then n / 64 / 64 / 64 % 64 else if k == 1 then n / 64 / 64 % 64 else if k ==
        2 then n / 64 % 64 else n % 64
  }

  function EncodeQuantum(chunk: seq<Byte>): (q: seq<Byte>)
    requires 1 <= |chunk| <= 3
    ensures |q| == 4
  {
    var n := FromBytes(chunk[0], if |chunk| > 1 then chunk[1] else 0, if |chunk| > 2 then chunk[2] else 0);
    [Digit(SixBits(n, 0)), Digit(SixBits(n, 1)),
     if |chunk| > 1 then Digit(SixBits(n, 2)) else PAD,
     if |chunk| > 2 then Digit(SixBits(n, 3)) else PAD]
  }

  function Encoded(input: seq<Byte>): seq<Byte> {
    if input == [] then []
    else
      var k := if |input| < 3 then |input| else 3;
      EncodeQuantum(input[..k]) + Encoded(input[k..])
  }

  /** Number of trailing '='. */
  function Padding(q: seq<Byte>): (pad: nat)
    ensures pad <= |q|
  {
    if q == [] || q[|q| - 1] != PAD then 0 else 1 + Padding(q[..|q| - 1])
  }

  /** The bits of the first `i` characters, or the first fault in them. */
  function Bits(q: seq<Byte>, i: nat, pad: nat): (r: Result<nat>)
    requires i <= |q| == 4 && pad <= 2
  {
    if i == 0 then Ok(0)
    else
      var before := Bits(q, i - 1, pad);
      var c := q[i - 1];
      if before.Err? then before
      else if c == PAD then (if i - 1 < 4 - pad then Err(MiddlePadding) else Ok(before.value * 64))
      else if InAlphabet(c) then Ok(before.value * 64 + Value(c))
      else Err(BadByte(c))
  }

  function ToBytes(n: nat, pad: nat): (out: seq<Byte>)
    requires pad <= 2
    ensures |out| == 3 - pad
  {
    [n / 256 / 256 % 256] + (if pad < 2 then [n / 256 % 256] else []) + (if pad < 1 then [n % 256] else [])
  }

  function DecodeQuantum(q: seq<Byte>): (r: Result<seq<Byte>>)
    requires |q| == 4
  {
    var pad := Padding(q);
    if pad > 2 then Err(BadPadding)
    else
      var bits := Bits(q, 4, pad);
      if bits.Err? then Err(bits.error) else Ok(ToBytes(bits.value, pad))
  }

  function DecodedQuanta(s: seq<Byte>): Result<seq<Byte>> {
    if |s| < 4 then Ok([])
    else
      var first := DecodeQuantum(s[..4]);
      if first.Err? then first
      else
        var rest := DecodedQuanta(s[4..]);
        if rest.Err? then rest else Ok(first.value + rest.value)
  }

  function Decoded(s: seq<Byte>): Result<seq<Byte>> {
    if |s| % 4 != 0 then Err(BadLength) else DecodedQuanta(s)
  }

  // ------------------------------------------------------------------------------------------
  // The loops

  method Encode(input: seq<Byte>) returns (out: seq<Byte>)
    ensures out == Encoded(input)
  {
    out := [];
    var i := 0;
    assert input[0..] == input;
    while i < |input|
      invariant i <= |input|
      invariant Encoded(input) == out + Encoded(input[i..])
    {
      var k := if |input| - i < 3 then |input| - i else 3;
      EncodedFrom(out, input[i..i + k], input[i + k..]);
      assert input[i..] == input[i..i + k] + input[i + k..];
      out := out + EncodeQuantum(input[i..i + k]);
      i := i + k;
    }
  }

  lemma EncodedStep(a: seq<Byte>, b: seq<Byte>)
    requires 1 <= |a| <= 3 && (b != [] ==> |a| == 3)
    ensures Encoded(a + b) == EncodeQuantum(a) + Encoded(b)
  {
    var x := a + b;
    var k := if |x| < 3 then |x| else 3;
    assert x[..k] == a && x[k..] == b;
  }

  lemma EncodedFrom(out: seq<Byte>, a: seq<Byte>, b: seq<Byte>)
    requires 1 <= |a| <= 3 && (b != [] ==> |a| == 3)
    ensures out + Encoded(a + b) == out + EncodeQuantum(a) + Encoded(b)
  {
    EncodedStep(a, b);
    Regroup(out, EncodeQuantum(a), Encoded(b));
  }

  lemma Regroup(a: seq<Byte>, b: seq<Byte>, c: seq<Byte>)
    ensures a + (b + c) == a + b + c
  {
  }

  /** The decoder's loop over one quantum: count the padding from the right, then accumulate. */
  method DecodeChunk(q: seq<Byte>) returns (r: Result<seq<Byte>>)
    requires |q| == 4
    ensures r == DecodeQuantum(q)
  {
    assert q[..4] == q;
    var pad := 0;
    while pad < 4 && q[3 - pad] == PAD
      invariant pad <= 4 && Padding(q) == pad + Padding(q[..4 - pad])
    {
      assert q[..4 - pad][..3 - pad] == q[..4 - (pad + 1)];
      pad := pad + 1;
    }
    if pad > 2 {
      return Err(BadPadding);
    }
    var n, i := 0, 0;
    while i < 4
      invariant i <= 4 && Bits(q, i, pad) == Ok(n)
    {
      var c := q[i];
      FaultStays(q, i + 1, 4, pad);
      if c == PAD {
        if i < 4 - pad {
          return Err(MiddlePadding);
        }
        n := n * 64;
      } else if InAlphabet(c) {
        n := n * 64 + Value(c);
      } else {
        return Err(BadByte(c));
      }
      i := i + 1;
    }
    return Ok(ToBytes(n, pad));
  }

  lemma {:induction false} FaultStays(q: seq<Byte>, i: nat, k: nat, pad: nat)
    requires i <= k <= |q| == 4 && pad <= 2
    ensures Bits(q, i, pad).Err? ==> Bits(q, k, pad) == Bits(q, i, pad)
  {
    if i < k {
      FaultStays(q, i, k - 1, pad);
    }
  }

  function Prepend(out: seq<Byte>, rest: Result<seq<Byte>>): (r: Result<seq<Byte>>)
    ensures out == [] ==> r == rest
  {
    assert rest.Ok? && out == [] ==> out + rest.value == rest.value;
    if rest.Err? then rest else Ok(out + rest.value)
  }

  lemma QuantaFrom(s: seq<Byte>, i: nat)
    requires i + 4 <= |s|
    ensures var first := DecodeQuantum(s[i..i + 4]);
      DecodedQuanta(s[i..]) == if first.Err? then first else Prepend(first.value, DecodedQuanta(s[i + 4..]))
  {
    assert s[i..][..4] == s[i..i + 4] && s[i..][4..] == s[i + 4..];
  }

  lemma PrependTwice(a: seq<Byte>, b: seq<Byte>, rest: Result<seq<Byte>>)
    ensures Prepend(a, Prepend(b, rest)) == Prepend(a + b, rest)
  {
    if rest.Ok? {
      Regroup(a, b, rest.value);
    }
  }

  /** `out` is what the quanta before `i` decode to. */
  ghost predicate Decoding(s: seq<Byte>, i: nat, out: seq<Byte>)
    requires i <= |s|
  {
    DecodedQuanta(s) == Prepend(out, DecodedQuanta(s[i..]))
  }

  lemma DecodeOne(s: seq<Byte>, i: nat, out: seq<Byte>, q: Result<seq<Byte>>)
    requires i + 4 <= |s| && Decoding(s, i, out) && q == DecodeQuantum(s[i..i + 4])
    ensures q.Err? ==> DecodedQuanta(s) == q
    ensures q.Ok? ==> Decoding(s, i + 4, out + q.value)
  {
    QuantaFrom(s, i);
    if q.Ok? {
      PrependTwice(out, q.value, DecodedQuanta(s[i + 4..]));
    }
  }

  method Decode(s: seq<Byte>) returns (r: Result<seq<Byte>>)
    ensures r == Decoded(s)
  {
    if |s| % 4 != 0 {
      return Err(BadLength);
    }
    var out: seq<Byte> := [];
    var i := 0;
    assert s[0..] == s;
    while i < |s|
      invariant i <= |s| && i % 4 == 0 && Decoding(s, i, out)
    {
      var q := DecodeChunk(s[i..i + 4]);
      DecodeOne(s, i, out, q);
      if q.Err? {
        return Err(q.error);
      }
      out := out + q.value;
      i := i + 4;
    }
    assert out + [] == out;
    return Ok(out);
  }

  // ------------------------------------------------------------------------------------------
  // Properties

  /** A quantum the decoder accepts: alphabet characters, then at most two '='. */
  predicate GoodQuantum(q: seq<Byte>)
    requires |q| == 4
  {
    && InAlphabet(q[0]) && InAlphabet(q[1])
    && (InAlphabet(q[2]) || (q[2] == PAD && q[3] == PAD))
    && (InAlphabet(q[3]) || q[3] == PAD)
  }

  /** The bits of an accepted quantum, '=' read as zero. */
  function Meaning(c: Byte): nat
    requires InAlphabet(c) || c == PAD
  {
    if c == PAD then 0 else Value(c)
  }

  lemma PaddingOf(q: seq<Byte>)
    requires |q| == 4
    ensures Padding(q) ==
      if q[3] != PAD then 0 else if q[2] != PAD then 1 else if q[1] != PAD then 2 else if q[0] != PAD then 3 else 4
  {
    assert q[..3][..2] == q[..2] && q[..2][..1] == q[..1] && q[..1][..0] == [];
    assert Padding(q[..0]) == 0;
    assert Padding(q[..1]) == if q[0] != PAD then 0 else 1;
    assert Padding(q[..2]) == if q[1] != PAD then 0 else 1 + Padding(q[..1]);
    assert Padding(q[..3]) == if q[2] != PAD then 0 else 1 + Padding(q[..2]);
  }

  lemma QuantumExact(q: seq<Byte>)
    requires |q| == 4
    ensures DecodeQuantum(q).Ok? <==> GoodQuantum(q)
    ensures GoodQuantum(q) ==>
      DecodeQuantum(q) == Ok(ToBytes(((Meaning(q[0]) * 64 + Meaning(q[1])) * 64 + Meaning(q[2])) * 64 +
          Meaning(q[3]), Padding(q)))
  {
    PaddingOf(q);
    var pad := Padding(q);
    if pad <= 2 {
      assert Bits(q, 0, pad) == Ok(0);
      if GoodQuantum(q) {
        assert Bits(q, 1, pad) == Ok(Meaning(q[0]));
        assert Bits(q, 2, pad) == Ok(Meaning(q[0]) * 64 + Meaning(q[1]));
        assert Bits(q, 3, pad) == Ok((Meaning(q[0]) * 64 + Meaning(q[1])) * 64 + Meaning(q[2]));
      } else {
        FaultStays(q, 1, 4, pad);
        FaultStays(q, 2, 4, pad);
        FaultStays(q, 3, 4, pad);
      }
    }
  }

  /** The same 24 bits as four digits and as three bytes. */
  lemma DigitsCompose(n: nat)
    requires n < 0x100_0000
    ensures ((SixBits(n, 0) * 64 + SixBits(n, 1)) * 64 + SixBits(n, 2)) * 64 + SixBits(n, 3) == n
  {
    assert n / 64 / 64 / 64 < 64;
  }

  lemma BytesCompose(n: nat)
    requires n < 0x100_0000
    ensures FromBytes(n / 256 / 256 % 256, n / 256 % 256, n % 256) == n
  {
    assert n / 256 / 256 < 256;
  }

  lemma DigitsOf(v0: nat, v1: nat, v2: nat, v3: nat)
    requires v0 < 64 && v1 < 64 && v2 < 64 && v3 < 64
    ensures var n := ((v0 * 64 + v1) * 64 + v2) * 64 + v3;
      n < 0x100_0000 && SixBits(n, 0) == v0 && SixBits(n, 1) == v1 && SixBits(n, 2) == v2 && SixBits(n, 3) == v3
  {
  }

  lemma BytesOf(b0: Byte, b1: Byte, b2: Byte)
    ensures var n := FromBytes(b0, b1, b2); n / 256 / 256 % 256 == b0 && n / 256 % 256 == b1 && n % 256 == b2
  {
  }

  lemma LowBitsOf(b0: Byte, b1: Byte, b2: Byte)
    ensures var n := FromBytes(b0, b1, b2);
      && (b2 == 0 ==> SixBits(n, 3) == 0 && SixBits(n, 2) % 4 == 0)
      && (b1 == 0 && b2 == 0 ==> SixBits(n, 2) == 0 && SixBits(n, 1) % 16 == 0)
  {
    if b2 == 0 {
      var m := b0 * 1024 + b1 * 4;
      LowDigit(FromBytes(b0, b1, b2), m);
      FourDivides(m, b0 * 256 + b1);
      if b1 == 0 {
        LowDigit(m, b0 * 16);
        SixteenDivides(b0 * 16, b0);
      }
    }
  }

  lemma LowDigit(n: nat, m: nat)
    requires n == 64 * m
    ensures n % 64 == 0 && n / 64 == m
  {
  }

  lemma FourDivides(m: nat, k: nat)
    requires m == 4 * k
    ensures m % 64 % 4 == 0
  {
  }

  lemma SixteenDivides(m: nat, k: nat)
    requires m == 16 * k
    ensures m % 64 % 16 == 0
  {
  }

  /** Trailing bits that encode nothing are zero. */
  predicate ZeroTrail(q: seq<Byte>)
    requires |q| == 4 && GoodQuantum(q)
  {
    && (q[2] == PAD ==> Value(q[1]) % 16 == 0)
    && (q[2] != PAD && q[3] == PAD ==> Value(q[2]) % 4 == 0)
  }

  lemma QuantumRoundTrip(chunk: seq<Byte>)
    requires 1 <= |chunk| <= 3
    ensures var q := EncodeQuantum(chunk);
      GoodQuantum(q) && ZeroTrail(q) && Padding(q) == 3 - |chunk| && DecodeQuantum(q) == Ok(chunk)
  {
    var b1: Byte, b2: Byte := if |chunk| > 1 then chunk[1] else 0, if |chunk| > 2 then chunk[2] else 0;
    var n := FromBytes(chunk[0], b1, b2);
    var q := EncodeQuantum(chunk);
    BytesOf(chunk[0], b1, b2);
    LowBitsOf(chunk[0], b1, b2);
    DigitsCompose(n);
    DigitValue(SixBits(n, 0));
    DigitValue(SixBits(n, 1));
    DigitValue(SixBits(n, 2));
    DigitValue(SixBits(n, 3));
    PaddingOf(q);
    QuantumExact(q);
    assert Meaning(q[2]) == SixBits(n, 2) && Meaning(q[3]) == SixBits(n, 3);
    assert ToBytes(n, 3 - |chunk|) == chunk;
  }

  /** Re-encoding a decoded quantum gives it back exactly when its trailing bits are zero. */
  lemma QuantumCanonical(q: seq<Byte>)
    requires |q| == 4 && GoodQuantum(q) && ZeroTrail(q)
    ensures var out := DecodeQuantum(q); out.Ok? && 1 <= |out.value| == 3 - Padding(q) && EncodeQuantum(out.value) == q
  {
    PaddingOf(q);
    QuantumExact(q);
    var v0, v1, v2, v3 := Meaning(q[0]), Meaning(q[1]), Meaning(q[2]), Meaning(q[3]);
    var n := ((v0 * 64 + v1) * 64 + v2) * 64 + v3;
    DigitsOf(v0, v1, v2, v3);
    BytesCompose(n);
    TrailingZero(v0, v1, v2, v3);
    var out := ToBytes(n, Padding(q));
    assert FromBytes(out[0], if |out| > 1 then out[1] else 0, if |out| > 2 then out[2] else 0) == n;
  }

  lemma TrailingZero(v0: nat, v1: nat, v2: nat, v3: nat)
    requires v0 < 64 && v1 < 64 && v2 < 64 && v3 < 64
    ensures var n := ((v0 * 64 + v1) * 64 + v2) * 64 + v3;
      && (v3 == 0 && v2 % 4 == 0 ==> n % 256 == 0)
      && (v3 == 0 && v2 == 0 && v1 % 16 == 0 ==> n % 256 == 0 && n / 256 % 256 == 0)
  {
    if v3 == 0 && v2 % 4 == 0 {
      LowByte(((v0 * 64 + v1) * 64 + v2) * 64 + v3, (v0 * 64 + v1) * 16 + v2 / 4);
      if v2 == 0 && v1 % 16 == 0 {
        LowByte((v0 * 64 + v1) * 16, v0 * 4 + v1 / 16);
      }
    }
  }

  lemma LowByte(n: nat, m: nat)
    requires n == 256 * m
    ensures n % 256 == 0 && n / 256 == m
  {
  }

  // Whole texts

  /** Whole quanta, each one the decoder accepts. */
  predicate WellFormed(s: seq<Byte>) {
    s == [] || (|s| >= 4 && GoodQuantum(s[..4]) && WellFormed(s[4..]))
  }

  /** Sections 3.2 and 3.5 of RFC 4648: padding in the last quantum only, pad bits zero. */
  predicate Canonical(s: seq<Byte>)
    requires WellFormed(s)
  {
    s == [] || (ZeroTrail(s[..4]) && (s[4..] != [] ==> PAD !in s[..4]) && Canonical(s[4..]))
  }

  lemma {:induction false} WholeQuanta(s: seq<Byte>)
    requires WellFormed(s)
    ensures |s| % 4 == 0
  {
    if s != [] {
      WholeQuanta(s[4..]);
    }
  }

  lemma {:induction false} QuantaAccepted(s: seq<Byte>)
    requires |s| % 4 == 0
    ensures DecodedQuanta(s).Ok? <==> WellFormed(s)
  {
    if |s| >= 4 {
      QuantumExact(s[..4]);
      QuantaAccepted(s[4..]);
    }
  }

  /** The decoder accepts exactly the well-formed texts. */
  lemma DecodeAcceptsExactly(s: seq<Byte>)
    ensures Decoded(s).Ok? <==> WellFormed(s)
  {
    if WellFormed(s) {
      WholeQuanta(s);
    }
    if |s| % 4 == 0 {
      QuantaAccepted(s);
    }
  }

  lemma TextStep(q: seq<Byte>, rest: seq<Byte>)
    requires |q| == 4 && GoodQuantum(q) && ZeroTrail(q)
    requires WellFormed(rest) && Canonical(rest) && (rest != [] ==> PAD !in q)
    ensures WellFormed(q + rest) && Canonical(q + rest)
  {
    assert (q + rest)[..4] == q && (q + rest)[4..] == rest;
  }

  lemma DecodedStep(q: seq<Byte>, rest: seq<Byte>)
    requires |q| == 4 && DecodeQuantum(q).Ok? && Decoded(rest).Ok?
    ensures Decoded(q + rest) == Ok(DecodeQuantum(q).value + Decoded(rest).value)
  {
    assert (q + rest)[..4] == q && (q + rest)[4..] == rest;
  }

  function Quanta(n: nat): nat {
    (n + 2) / 3
  }

  lemma QuantaStep(k: nat, n: nat)
    requires 1 <= k <= 3 && (n > 0 ==> k == 3)
    ensures Quanta(k + n) == 1 + Quanta(n)
  {
  }

  /** The text has length 4 * ceil(n / 3) and is canonical. */
  lemma {:induction false} EncodedShape(x: seq<Byte>)
    ensures |Encoded(x)| == 4 * Quanta(|x|)
    ensures WellFormed(Encoded(x)) && Canonical(Encoded(x))
    decreases |x|
  {
    if x != [] {
      var k := if |x| < 3 then |x| else 3;
      var a, b := x[..k], x[k..];
      EncodedShape(b);
      ShapeStep(a, b);
      QuantaStep(|a|, |b|);
      assert x == a + b;
    }
  }

  lemma ShapeStep(a: seq<Byte>, b: seq<Byte>)
    requires 1 <= |a| <= 3 && (b != [] ==> |a| == 3)
    requires WellFormed(Encoded(b)) && Canonical(Encoded(b))
    ensures |Encoded(a + b)| == 4 + |Encoded(b)|
    ensures WellFormed(Encoded(a + b)) && Canonical(Encoded(a + b))
  {
    EncodedStep(a, b);
    QuantumRoundTrip(a);
    PaddingOf(EncodeQuantum(a));
    TextStep(EncodeQuantum(a), Encoded(b));
  }

  /** `decode(encode(x)) == x` for every byte string. */
  lemma {:induction false} RoundTrip(x: seq<Byte>)
    ensures Decoded(Encoded(x)) == Ok(x)
    decreases |x|
  {
    if x != [] {
      var k := if |x| < 3 then |x| else 3;
      assert x == x[..k] + x[k..];
      RoundTrip(x[k..]);
      QuantumRoundTrip(x[..k]);
      EncodedStep(x[..k], x[k..]);
      DecodedStep(EncodeQuantum(x[..k]), Encoded(x[k..]));
    }
  }

  lemma {:induction false} CanonicalRestored(s: seq<Byte>)
    requires WellFormed(s) && Canonical(s)
    ensures Decoded(s).Ok? && Encoded(Decoded(s).value) == s
  {
    if s != [] {
      var q, rest := s[..4], s[4..];
      assert s == q + rest;
      PaddingOf(q);
      assert q[3] in q;
      QuantumCanonical(q);
      CanonicalRestored(rest);
      DecodedStep(q, rest);
      assert rest == [] ==> Decoded(rest).value == [];
      EncodedStep(DecodeQuantum(q).value, Decoded(rest).value);
    }
  }

  /** `encode(decode(s)) == s` for the canonical texts and for no other text the decoder accepts. */
  lemma EncodeUndoesDecodeExactly(s: seq<Byte>)
    requires WellFormed(s)
    ensures Decoded(s).Ok?
    ensures Encoded(Decoded(s).value) == s <==> Canonical(s)
  {
    DecodeAcceptsExactly(s);
    if Canonical(s) {
      CanonicalRestored(s);
    }
    EncodedShape(Decoded(s).value);
  }

  lemma TwoTexts()
    ensures EncodeQuantum([102]) == [90, 103, 61, 61] && EncodeQuantum([102, 102]) == [90, 109, 89, 61]
  {
    var n, m := FromBytes(102, 0, 0), FromBytes(102, 102, 0);
    assert SixBits(n, 0) == 25 && SixBits(n, 1) == 32;
    assert SixBits(m, 0) == 25 && SixBits(m, 1) == 38 && SixBits(m, 2) == 24;
  }

  /** The decoder is laxer than sections 3.2 and 4 of RFC 4648: "Zg==Zg==" is accepted, and means the same as "ZmY=". */
  lemma InnerPaddingAccepted()
    ensures var s: seq<Byte> := [90, 103, 61, 61, 90, 103, 61, 61];
      WellFormed(s) && !Canonical(s) && Decoded(s) == Decoded([90, 109, 89, 61]) == Ok([102, 102])
  {
    var q: seq<Byte> := [90, 103, 61, 61];
    var p: seq<Byte> := [90, 109, 89, 61];
    TwoTexts();
    QuantumRoundTrip([102]);
    QuantumRoundTrip([102, 102]);
    assert q + [] == q && p + [] == p && q + q == [90, 103, 61, 61, 90, 103, 61, 61];
    DecodedStep(p, []);
    DecodedStep(q, []);
    DecodedStep(q, q);
    assert (q + q)[..4] == q && (q + q)[4..] == q && q[..4] == q && q[4..] == [];
    assert WellFormed([]) && Decoded([]) == Ok([]);
    var f: seq<Byte>, ff: seq<Byte> := [102], [102, 102];
    assert f + f == ff && f + [] == f && ff + [] == ff;
    assert q[2] == PAD;
  }

  // ------------------------------------------------------------------------------------------
  // What the text means, by the alphabet and the bits of RFC 4648

  /** Table 1 of RFC 4648. */
  const ALPHABET := "ABCDEFGHIJKLMNOPQRSTUVWXYZ" + "abcdefghijklmnopqrstuvwxyz" + "0123456789+/"

  /** The character has this value in the table. */
  predicate Stands(c: Byte, v: nat) {
    v < |ALPHABET| && ALPHABET[v] as int == c
  }

  lemma DigitStands(v: nat)
    requires v < 64
    ensures Stands(Digit(v), v)
  {
    Upper(v);
    Lower(v);
    Rest(v);
  }

  lemma Upper(v: nat)
    ensures v < 26 ==> "ABCDEFGHIJKLMNOPQRSTUVWXYZ"[v] as int == 65 + v
  {
  }

  lemma Lower(v: nat)
    ensures 26 <= v < 52 ==> "abcdefghijklmnopqrstuvwxyz"[v - 26] as int == 97 + v - 26
  {
  }

  lemma Rest(v: nat)
    ensures 52 <= v < 62 ==> "0123456789+/"[v - 52] as int == 48 + v - 52
  {
  }

  /** A byte past the end reads as zero. */
  function ByteAt(x: seq<Byte>, i: nat): Byte {
    if i < |x| then x[i] else 0
  }

  /** Chunks are encoded one after another. */
  lemma {:induction false} EncodedAppend(a: seq<Byte>, b: seq<Byte>)
    requires |a| % 3 == 0
    ensures Encoded(a + b) == Encoded(a) + Encoded(b)
  {
    if a == [] {
      assert a + b == b;
    } else {
      var chunk, rest := a[..3], a[3..];
      EncodedAppend(rest, b);
      assert a + b == chunk + (rest + b) && a == chunk + rest;
      EncodedStep(chunk, rest);
      EncodedStep(chunk, rest + b);
      Regroup(EncodeQuantum(chunk), Encoded(rest), Encoded(b));
    }
  }

  lemma QuantumDigits(chunk: seq<Byte>) returns (v0: nat, v1: nat, v2: nat, v3: nat)
    requires 1 <= |chunk| <= 3
    ensures v0 < 64 && v1 < 64 && v2 < 64 && v3 < 64
    ensures EncodeQuantum(chunk) ==
      [Digit(v0), Digit(v1), if |chunk| > 1 then Digit(v2) else PAD, if |chunk| > 2 then Digit(v3) else PAD]
    ensures ((v0 * 64 + v1) * 64 + v2) * 64 + v3 ==
      (ByteAt(chunk, 0) * 256 + ByteAt(chunk, 1)) * 256 + ByteAt(chunk, 2)
  {
    var n := FromBytes(ByteAt(chunk, 0), ByteAt(chunk, 1), ByteAt(chunk, 2));
    v0, v1, v2, v3 := SixBits(n, 0), SixBits(n, 1), SixBits(n, 2), SixBits(n, 3);
    DigitsCompose(n);
  }

  /** The characters of one chunk stand for its 24 bits, most significant first; a character whose bits all lie past
      the end is '='. */
  lemma EncodedBits(chunk: seq<Byte>) returns (q: seq<Byte>, v0: nat, v1: nat, v2: nat, v3: nat)
    requires 1 <= |chunk| <= 3
    ensures Encoded(chunk) == q && |q| == 4 && v2 < 64 && v3 < 64
    ensures ((v0 * 64 + v1) * 64 + v2) * 64 + v3 ==
      (ByteAt(chunk, 0) * 256 + ByteAt(chunk, 1)) * 256 + ByteAt(chunk, 2)
    ensures Stands(q[0], v0) && Stands(q[1], v1)
    ensures if |chunk| > 1 then Stands(q[2], v2) else q[2] == '=' as int
    ensures if |chunk| > 2 then Stands(q[3], v3) else q[3] == '=' as int
  {
    v0, v1, v2, v3 := QuantumDigits(chunk);
    q := EncodeQuantum(chunk);
    EncodedStep(chunk, []);
    assert chunk + [] == chunk && q + [] == q;
    DigitStands(v0);
    DigitStands(v1);
    DigitStands(v2);
    DigitStands(v3);
  }

  /** The alphabet is the table's. */
  lemma AlphabetExactly(c: Byte)
    ensures InAlphabet(c) ==> Stands(c, Value(c))
    ensures !InAlphabet(c) ==> forall v :: !Stands(c, v)
  {
    if InAlphabet(c) {
      DigitStands(Value(c));
    } else {
      forall v ensures !Stands(c, v) {
        if v < 64 {
          DigitValue(v);
          DigitStands(v);
        }
      }
    }
  }

  /** '=' stands for nothing. */
  predicate Reads(c: Byte, v: nat) {
    if c == '=' as int then v == 0 else Stands(c, v)
  }

  lemma QuantumBytes(q: seq<Byte>) returns (out: seq<Byte>)
    requires |q| == 4 && GoodQuantum(q)
    ensures DecodeQuantum(q) == Ok(out)
    ensures |out| == if q[2] == PAD then 1 else if q[3] == PAD then 2 else 3
    ensures Leads(out, Meaning(q[0]), Meaning(q[1]), Meaning(q[2]), Meaning(q[3]))
  {
    PaddingOf(q);
    QuantumExact(q);
    var n := ((Meaning(q[0]) * 64 + Meaning(q[1])) * 64 + Meaning(q[2])) * 64 + Meaning(q[3]);
    out := ToBytes(n, Padding(q));
    LeadingBytes(n, Padding(q));
  }

  /** `out` is the leading bytes of the 24 bits. */
  predicate Leads(out: seq<Byte>, v0: nat, v1: nat, v2: nat, v3: nat) {
    var n := ((v0 * 64 + v1) * 64 + v2) * 64 + v3;
    && 1 <= |out| <= 3
    && out[0] == n / 65536
    && (|out| > 1 ==> out[1] == n / 256 % 256)
    && (|out| > 2 ==> out[2] == n % 256)
  }

  /** An accepted quantum decodes to the leading bytes of the 24 bits its characters stand for, one byte less per
      '='. */
  lemma DecodedBits(q: seq<Byte>) returns (out: seq<Byte>, v0: nat, v1: nat, v2: nat, v3: nat)
    requires |q| == 4 && WellFormed(q)
    ensures Decoded(q) == Ok(out) && Leads(out, v0, v1, v2, v3)
    ensures Reads(q[0], v0) && Reads(q[1], v1) && Reads(q[2], v2) && Reads(q[3], v3)
    ensures |out| == if q[2] == '=' as int then 1 else if q[3] == '=' as int then 2 else 3
  {
    OneQuantum(q);
    out := QuantumBytes(q);
    v0, v1, v2, v3 := Meaning(q[0]), Meaning(q[1]), Meaning(q[2]), Meaning(q[3]);
    MeaningReads(q[0]);
    MeaningReads(q[1]);
    MeaningReads(q[2]);
    MeaningReads(q[3]);
  }

  lemma OneQuantum(q: seq<Byte>)
    requires |q| == 4
    ensures WellFormed(q) ==> GoodQuantum(q)
    ensures Decoded(q) == DecodeQuantum(q)
  {
    assert q[..4] == q && q[4..] == [] && DecodedQuanta([]) == Ok([]);
    var first := DecodeQuantum(q);
    assert first.Ok? ==> first.value + [] == first.value;
  }

  lemma MeaningReads(c: Byte)
    requires InAlphabet(c) || c == PAD
    ensures Reads(c, Meaning(c)) && Meaning(c) < 64
  {
    AlphabetExactly(c);
  }

  lemma LeadingBytes(n: nat, pad: nat)
    requires n < 0x100_0000 && pad <= 2
    ensures var out := ToBytes(n, pad);
      out[0] == n / 65536 && (|out| > 1 ==> out[1] == n / 256 % 256) && (|out| > 2 ==> out[2] == n % 256)
  {
    TopByte(n);
  }

  lemma TopByte(n: nat)
    requires n < 0x100_0000
    ensures n / 256 / 256 % 256 == n / 65536
  {
  }

  /** Quanta decode one after another, whatever padding they hold, up to the first fault. */
  lemma {:induction false} DecodedAppend(s: seq<Byte>, t: seq<Byte>)
    requires |s| % 4 == 0
    ensures Decoded(s + t) ==
      if |t| % 4 != 0 then Err(BadLength)
      else if Decoded(s).Err? then Decoded(s)
      else if Decoded(t).Err? then Decoded(t)
      else Ok(Decoded(s).value + Decoded(t).value)
  {
    if |t| % 4 == 0 {
      QuantaAppend(s, t);
    }
  }

  function Then(a: Result<seq<Byte>>, b: Result<seq<Byte>>): Result<seq<Byte>> {
    if a.Err? then a else Prepend(a.value, b)
  }

  lemma QuantaFirst(q: seq<Byte>, rest: seq<Byte>)
    requires |q| == 4
    ensures DecodedQuanta(q + rest) == Then(DecodeQuantum(q), DecodedQuanta(rest))
  {
    assert (q + rest)[..4] == q && (q + rest)[4..] == rest;
  }

  lemma ThenTwice(a: Result<seq<Byte>>, b: Result<seq<Byte>>, c: Result<seq<Byte>>)
    ensures Then(a, Then(b, c)) == Then(Then(a, b), c)
  {
    if a.Ok? && b.Ok? {
      PrependTwice(a.value, b.value, c);
    }
  }

  lemma {:induction false} QuantaAppend(s: seq<Byte>, t: seq<Byte>)
    requires |s| % 4 == 0
    ensures DecodedQuanta(s + t) == Then(DecodedQuanta(s), DecodedQuanta(t))
  {
    if s == [] {
      assert s + t == t;
    } else {
      var q, rest := s[..4], s[4..];
      QuantaAppend(rest, t);
      QuantaFirst(q, rest);
      QuantaFirst(q, rest + t);
      ThenTwice(DecodeQuantum(q), DecodedQuanta(rest), DecodedQuanta(t));
      assert q + rest == s && q + (rest + t) == s + t;
    }
  }

  /** A character of the alphabet, or '=' with nothing but '=' behind it. */
  predicate InPlace(q: seq<Byte>, i: nat)
    requires i < |q| == 4
  {
    InAlphabet(q[i]) || forall j :: i <= j < 4 ==> q[j] == '=' as int
  }

  /** The fault reported for a quantum: too much padding, else the first character out of place. */
  lemma QuantumFault(q: seq<Byte>, i: nat)
    requires |q| == 4 && i < 4 && !InPlace(q, i) && forall j :: 0 <= j < i ==> InPlace(q, j)
    ensures DecodeQuantum(q) ==
      if q[1] == q[2] == q[3] == '=' as int then Err(BadPadding)
      else Err(if q[i] == '=' as int then MiddlePadding else BadByte(q[i]))
  {
    PaddingOf(q);
    var pad := Padding(q);
    if pad <= 2 {
      FaultFound(q, i, pad);
      FaultStays(q, i + 1, 4, pad);
    }
  }

  /** Up to the first fault there is none. */
  lemma {:induction false} FaultFound(q: seq<Byte>, i: nat, pad: nat)
    requires |q| == 4 && i < 4 && pad == Padding(q) <= 2 && forall j :: 0 <= j < i ==> InPlace(q, j)
    ensures Bits(q, i, pad).Ok?
    ensures !InPlace(q, i) ==> Bits(q, i + 1, pad) == Err(if q[i] == PAD then MiddlePadding else BadByte(q[i]))
  {
    PaddingOf(q);
    if i > 0 {
      FaultFound(q, i - 1, pad);
      assert InPlace(q, i - 1);
    }
  }
}
