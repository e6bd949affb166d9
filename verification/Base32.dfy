/**
 * Base32 without padding, computed with a 32-bit accumulator that is allowed to wrap,
 * against the definition by groups of five bits in section 6 of RFC 4648; and the job
 * ids made from it.
 */
module Base32 {

  newtype Byte = x: int | 0 <= x < 256

  const ALPHABET := "ABCDEFGHIJKLMNOPQRSTUVWXYZ234567"

  // ------------------------------------------------------- the reference definition

  function Pow2(k: nat): (r: nat)
    ensures r > 0
  {
    if k == 0 then 1 else 2 * Pow2(k - 1)
  }

  /** The low `k` bits of `n`, most significant first. */
  function LowBits(n: nat, k: nat): (r: seq<bool>)
    ensures |r| == k
  {
    if k == 0 then [] else LowBits(n / 2, k - 1) + [n % 2 == 1]
  }

  function BitsOf(bytes: seq<Byte>): (r: seq<bool>)
    ensures |r| == 8 * |bytes|
  {
    if bytes == [] then [] else LowBits(bytes[0] as nat, 8) + BitsOf(bytes[1..])
  }

  function Value(bits: seq<bool>): (r: nat)
    ensures r < Pow2(|bits|)
  {
    if bits == [] then 0 else 2 * Value(bits[..|bits| - 1]) + (if bits[|bits| - 1] then 1 else 0)
  }

  function Zeros(n: nat): (r: seq<bool>)
    ensures |r| == n && forall i :: 0 <= i < n ==> !r[i]
  {
    seq(n, _ => false)
  }

  function Letter(i: nat): char
    requires i < 32
  {
    ALPHABET[i]
  }

  /** The character of a group of five bits. */
  function Symbol(group: seq<bool>): char
    requires |group| == 5
  {
    assert Pow2(5) == 32;
    Letter(Value(group))
  }

  /** Groups of five bits from the front, the last one filled up with zeros. */
  function Encode(bits: seq<bool>): string {
    if bits == [] then ""
    else if |bits| < 5 then [Symbol(bits + Zeros(5 - |bits|))]
    else [Symbol(bits[..5])] + Encode(bits[5..])
  }

  // ------------------------------------------------------- 32-bit arithmetic

  const TWO32 := 0x1_0000_0000

  predicate Int32(x: int) {
    -0x8000_0000 <= x < 0x8000_0000
  }

  function ToInt32(x: int): (r: int)
    ensures Int32(r) && r % TWO32 == x % TWO32
  {
    if x % TWO32 < 0x8000_0000 then x % TWO32 else x % TWO32 - TWO32
  }

  /** `x << k`. */
  function Shl(x: int, k: nat): int {
    ToInt32(x * Pow2(k))
  }

  /** `x | byte`, for an `x` whose low eight bits are zero. */
  function OrByte(x: int, byte: Byte): int
    requires x % 256 == 0
  {
    x + byte as int
  }

  /** `n` without its low `k` bits. */
  function Halved(n: nat, k: nat): nat {
    if k == 0 then n else Halved(n / 2, k - 1)
  }

  /** `x >>> k`. */
  function Shr(x: int, k: nat): nat {
    Halved(x % TWO32, k)
  }

  /** `ALPHABET.charAt(x & 0x1f)`. */
  function CharAt(x: int): char {
    Letter(x % 32)
  }

  // ------------------------------------------------------- bits and numbers

  lemma {:induction false} LowBitsSplit(n: nat, k: nat, j: nat)
    ensures LowBits(n, k + j) == LowBits(Halved(n, j), k) + LowBits(n, j)
    decreases j
  {
    if j == 0 {
      assert LowBits(n, k) + [] == LowBits(n, k);
    } else {
      LowBitsSplit(n / 2, k, j - 1);
    }
  }

  lemma {:induction false} LowBitsJoin(n: nat, k: nat, low: nat, j: nat)
    requires low < Pow2(j)
    ensures LowBits(n * Pow2(j) + low, k + j) == LowBits(n, k) + LowBits(low, j)
    decreases j
  {
    if j == 0 {
      assert LowBits(n, k) + [] == LowBits(n, k);
    } else {
      var p := n * Pow2(j - 1);
      assert n * Pow2(j) == 2 * p;
      assert (2 * p + low) / 2 == p + low / 2 && (2 * p + low) % 2 == low % 2;
      LowBitsJoin(n, k, low / 2, j - 1);
    }
  }

  lemma {:induction false} LowBitsOfZero(j: nat)
    ensures LowBits(0, j) == Zeros(j)
  {
    if j > 0 {
      LowBitsOfZero(j - 1);
    }
  }

  lemma ValueStep(n: nat, k: nat)
    ensures Value(LowBits(n, k + 1)) == 2 * Value(LowBits(n / 2, k)) + n % 2
  {
  }

  lemma Residue32(n: nat, high: nat, low: nat)
    requires n == 32 * high + low && low < 32
    ensures n % 32 == low
  {
  }

  /** Reading the low five bits back gives the residue modulo 32. */
  lemma ValueOfLowBits(n: nat)
    ensures Value(LowBits(n, 5)) == n % 32
  {
    hide Value, LowBits;
    var n1 := n / 2;
    var n2 := n1 / 2;
    var n3 := n2 / 2;
    var n4 := n3 / 2;
    ValueStep(n, 4);
    ValueStep(n1, 3);
    ValueStep(n2, 2);
    ValueStep(n3, 1);
    ValueStep(n4, 0);
    EmptyValue(n4 / 2);
    Residue32(n, n4 / 2, Value(LowBits(n, 5)));
  }

  lemma EmptyValue(n: nat)
    ensures Value(LowBits(n, 0)) == 0
  {
  }

  lemma SymbolOfLowBits(n: nat)
    ensures Symbol(LowBits(n, 5)) == CharAt(n)
  {
    hide Letter, Value, LowBits, Pow2;
    ValueOfLowBits(n);
  }

  /** Adding a multiple of `2^k` below adds its quotient above. */
  lemma {:induction false} HalvedResidue(n: nat, m: nat, c: nat, k: nat)
    requires n == m + c * Pow2(k)
    ensures Halved(n, k) == Halved(m, k) + c
    decreases k
  {
    if k > 0 {
      var p := c * Pow2(k - 1);
      assert c * Pow2(k) == 2 * p;
      HalvedResidue(n / 2, m / 2, c, k - 1);
    }
  }

  lemma {:induction false} HalvedToNothing(n: nat, k: nat)
    requires n < Pow2(k)
    ensures Halved(n, k) == 0
    decreases k
  {
    if k > 0 {
      HalvedToNothing(n / 2, k - 1);
    }
  }

  // ------------------------------------------------------- the accumulator

  /** The accumulator is the number read so far, modulo 2^32. */
  ghost predicate Tracks(value: int, n: nat) {
    Int32(value) && value % TWO32 == n % TWO32
  }

  lemma SameResidue(a: int, b: int, q: int)
    requires a - b == q * TWO32
    ensures a % TWO32 == b % TWO32
  {
  }

  lemma Quotient(a: int, b: int) returns (q: int)
    requires a % TWO32 == b % TWO32
    ensures a - b == q * TWO32
  {
    q := a / TWO32 - b / TWO32;
  }

  lemma SameChar(a: int, b: int, q: int)
    requires a == b + 32 * q
    ensures CharAt(a) == CharAt(b)
  {
    hide Letter;
  }

  lemma PushByte(value: int, n: nat, byte: Byte)
    requires Tracks(value, n)
    ensures Shl(value, 8) % 256 == 0
    ensures Tracks(OrByte(Shl(value, 8), byte), n * 256 + byte as nat)
  {
    assert Pow2(8) == 256;
    var q := Quotient(value, n);
    SameResidue(value * 256, n * 256, q * 256);
    var s := Shl(value, 8);
    var t := Quotient(s, n * 256);
    assert s == 256 * (n + t * 0x100_0000);
    SameResidue(s + byte as int, n * 256 + byte as int, t);
  }

  /** `2^32` is a multiple of `32 * 2^k`. */
  lemma Cofactor(k: nat) returns (c: nat)
    requires k <= 7
    ensures (32 * c) * Pow2(k) == TWO32
  {
    assert Pow2(1) == 2 && Pow2(2) == 4 && Pow2(3) == 8;
    assert Pow2(4) == 16 && Pow2(5) == 32 && Pow2(6) == 64 && Pow2(7) == 128;
    c := [0x800_0000, 0x400_0000, 0x200_0000, 0x100_0000, 0x80_0000, 0x40_0000, 0x20_0000, 0x10_0000][k];
  }

  /** Shifting out at most seven low bits and masking sees only the low twelve bits. */
  lemma ShiftedChar(value: int, n: nat, k: nat)
    requires Tracks(value, n) && k <= 7
    ensures CharAt(Shr(value, k)) == Symbol(LowBits(Halved(n, k), 5))
  {
    hide Letter, Value, LowBits, Pow2, Symbol, CharAt;
    SymbolOfLowBits(Halved(n, k));
    var t := n / TWO32;
    var c := Cofactor(k);
    var d := t * c;
    assert (32 * d) * Pow2(k) == t * ((32 * c) * Pow2(k));
    HalvedResidue(n, n % TWO32, 32 * d, k);
    SameChar(Halved(n, k), Halved(n % TWO32, k), d);
  }

  lemma LastChar(value: int, n: nat, k: nat)
    requires Tracks(value, n) && 0 < k < 5
    ensures CharAt(Shl(value, 5 - k)) == Symbol(LowBits(n, k) + Zeros(5 - k))
  {
    hide Letter, Value, LowBits, Pow2, Symbol, CharAt, Zeros;
    var j := 5 - k;
    var p := Pow2(j);
    LowBitsJoin(n, k, 0, j);
    LowBitsOfZero(j);
    SymbolOfLowBits(n * p);
    var q := Quotient(value, n);
    assert value * p - n * p == (q * p) * TWO32;
    var r := Quotient(Shl(value, j), value * p);
    SameChar(Shl(value, j), n * p, (r + q * p) * 0x800_0000);
  }

  // ------------------------------------------------------- steps of the loops

  lemma TakeByte(bytes: seq<Byte>, i: nat, n: nat, bits: nat)
    requires i < |bytes|
    ensures LowBits(n, bits) + BitsOf(bytes[i..])
         == LowBits(n * 256 + bytes[i] as nat, bits + 8) + BitsOf(bytes[i + 1..])
  {
    hide LowBits;
    assert Pow2(8) == 256;
    LowBitsJoin(n, bits, bytes[i] as nat, 8);
    assert bytes[i..][1..] == bytes[i + 1..];
  }

  lemma TakeGroup(n: nat, bits: nat, rest: seq<bool>)
    ensures Encode(LowBits(n, bits + 5) + rest)
         == [Symbol(LowBits(Halved(n, bits), 5))] + Encode(LowBits(n, bits) + rest)
  {
    hide LowBits, Symbol, Halved;
    LowBitsSplit(n, 5, bits);
    var all := LowBits(n, bits + 5) + rest;
    assert all[..5] == LowBits(Halved(n, bits), 5) && all[5..] == LowBits(n, bits) + rest;
  }

  // ------------------------------------------------------- implementation

  /** The 32-bit loop computes the base32 of every byte string. */
  method Base32Encode(bytes: seq<Byte>) returns (result: string)
    ensures result == Encode(BitsOf(bytes))
  {
    hide LowBits, Symbol, CharAt, Shr, Shl, Tracks, OrByte, Halved, Pow2;
    var bits, value := 0, 0;
    result := "";
    ghost var n: nat := 0;
    Start(bytes);
    var i := 0;
    while i < |bytes|
      invariant 0 <= i <= |bytes| && 0 <= bits < 5
      invariant Tracks(value, n)
      invariant Encode(BitsOf(bytes)) == result + Encode(LowBits(n, bits) + BitsOf(bytes[i..]))
    {
      PushByte(value, n, bytes[i]);
      TakeByte(bytes, i, n, bits);
      n := n * 256 + bytes[i] as nat;
      value := OrByte(Shl(value, 8), bytes[i]);
      bits := bits + 8;
      i := i + 1;
      while bits >= 5
        invariant 0 <= bits <= 12
        invariant Encode(BitsOf(bytes)) == result + Encode(LowBits(n, bits) + BitsOf(bytes[i..]))
      {
        bits := bits - 5;
        TakeGroup(n, bits, BitsOf(bytes[i..]));
        ShiftedChar(value, n, bits);
        result := result + [CharAt(Shr(value, bits))];
      }
    }
    assert LowBits(n, bits) + BitsOf(bytes[i..]) == LowBits(n, bits);
    if bits > 0 {
      LastChar(value, n, bits);
      result := result + [CharAt(Shl(value, 5 - bits))];
    }
  }

  lemma Start(bytes: seq<Byte>)
    ensures Tracks(0, 0)
    ensures LowBits(0, 0) + BitsOf(bytes[0..]) == BitsOf(bytes)
  {
  }

  // ------------------------------------------------------- reading back

  /** The position of a character in the alphabet. */
  function Rank(c: char): int {
    if 'A' <= c <= 'Z' then c as int - 'A' as int else c as int - '2' as int + 26
  }

  predicate InAlphabet(c: char) {
    'A' <= c <= 'Z' || '2' <= c <= '7'
  }

  lemma RankOfLetter(i: nat)
    requires i < 32
    ensures InAlphabet(Letter(i)) && Rank(Letter(i)) == i
  {
  }

  lemma {:induction false} ValueInjective(g: seq<bool>, h: seq<bool>)
    requires |g| == |h| && Value(g) == Value(h)
    ensures g == h
  {
    if g != [] {
      var n := |g| - 1;
      ValueInjective(g[..n], h[..n]);
      assert g == g[..n] + [g[n]] && h == h[..n] + [h[n]];
    }
  }

  lemma SymbolInjective(g: seq<bool>, h: seq<bool>)
    requires |g| == |h| == 5
    ensures InAlphabet(Symbol(g))
    ensures Symbol(g) == Symbol(h) <==> g == h
  {
    hide Letter, Value, Rank;
    assert Pow2(5) == 32;
    RankOfLetter(Value(g));
    RankOfLetter(Value(h));
    if Value(g) == Value(h) {
      ValueInjective(g, h);
    }
  }

  lemma {:induction false} EncodeLength(bits: seq<bool>)
    ensures |Encode(bits)| == (|bits| + 4) / 5
  {
    if |bits| >= 5 {
      EncodeLength(bits[5..]);
    }
  }

  /** The first `k` characters and the first `5 * k` bits determine each other. */
  lemma {:induction false} PrefixIffPrefix(a: seq<bool>, b: seq<bool>, k: nat)
    requires 5 * k <= |a| && 5 * k <= |b|
    ensures |Encode(a)| >= k && |Encode(b)| >= k
    ensures forall i :: 0 <= i < k ==> InAlphabet(Encode(a)[i])
    ensures Encode(a)[..k] == Encode(b)[..k] <==> a[..5 * k] == b[..5 * k]
  {
    hide Symbol, InAlphabet;
    if k > 0 {
      PrefixIffPrefix(a[5..], b[5..], k - 1);
      SymbolInjective(a[..5], b[..5]);
      SamePrefix(a, b, 5, 5 * k);
      SamePrefix(Encode(a), Encode(b), 1, k);
      assert Encode(a)[1..] == Encode(a[5..]) && Encode(b)[1..] == Encode(b[5..]);
      assert Encode(a)[..1] == [Symbol(a[..5])] && Encode(b)[..1] == [Symbol(b[..5])];
    }
  }

  lemma SamePrefix<T>(s: seq<T>, t: seq<T>, i: nat, j: nat)
    requires i <= j <= |s| && j <= |t|
    ensures s[..j] == t[..j] <==> s[..i] == t[..i] && s[i..][..j - i] == t[i..][..j - i]
  {
    assert s[..j] == s[..i] + s[i..][..j - i] && t[..j] == t[..i] + t[i..][..j - i];
    assert s[..j][..i] == s[..i] && t[..j][..i] == t[..i];
  }

  lemma {:induction false} LowBitsInjective(x: nat, y: nat, k: nat)
    requires x < Pow2(k) && y < Pow2(k)
    ensures LowBits(x, k) == LowBits(y, k) <==> x == y
  {
    if k > 0 {
      LowBitsInjective(x / 2, y / 2, k - 1);
      var p, q := LowBits(x, k), LowBits(y, k);
      assert p[..k - 1] == LowBits(x / 2, k - 1) && q[..k - 1] == LowBits(y / 2, k - 1);
      assert p[k - 1] == (x % 2 == 1) && q[k - 1] == (y % 2 == 1);
    }
  }

  /** Cutting `BitsOf` after the high half of byte `k`. */
  lemma {:induction false} BitsIffBytes(a: seq<Byte>, b: seq<Byte>, k: nat)
    requires k < |a| && k < |b|
    ensures BitsOf(a)[..8 * k + 4] == BitsOf(b)[..8 * k + 4]
       <==> a[..k] == b[..k] && a[k] / 16 == b[k] / 16
  {
    hide LowBits, Halved, Pow2;
    var x, y := a[0] as nat, b[0] as nat;
    if k == 0 {
      HighHalf(x);
      HighHalf(y);
      LowBitsInjective(x / 16, y / 16, 4);
      assert BitsOf(a)[..4] == LowBits(x, 8)[..4] && BitsOf(b)[..4] == LowBits(y, 8)[..4];
    } else {
      BitsIffBytes(a[1..], b[1..], k - 1);
      ByteBound(x);
      ByteBound(y);
      LowBitsInjective(x, y, 8);
      SamePrefix(BitsOf(a), BitsOf(b), 8, 8 * k + 4);
      assert BitsOf(a)[..8] == LowBits(x, 8) && BitsOf(a)[8..] == BitsOf(a[1..]);
      assert BitsOf(b)[..8] == LowBits(y, 8) && BitsOf(b)[8..] == BitsOf(b[1..]);
      SamePrefix(a, b, 1, k);
      assert a[..1] == [a[0]] && b[..1] == [b[0]];
    }
  }

  lemma ByteBound(x: nat)
    requires x < 256
    ensures x < Pow2(8)
  {
  }

  lemma HighHalf(x: nat)
    requires x < 256
    ensures LowBits(x, 8)[..4] == LowBits(x / 16, 4)
    ensures x / 16 < Pow2(4)
  {
    assert Pow2(4) == 16;
    HalvedResidue(x, x % 16, x / 16, 4);
    HalvedToNothing(x % 16, 4);
    LowBitsSplit(x, 4, 4);
  }

  // ------------------------------------------------------- job ids

  /** The id made from eight random bytes: twelve characters, so sixty of their bits. */
  function JobId(bytes: seq<Byte>): string
    requires |bytes| == 8
  {
    EncodeLength(BitsOf(bytes));
    "j_" + Encode(BitsOf(bytes))[..12]
  }

  method GenerateJobId(randomBytes: seq<Byte>) returns (id: string)
    requires |randomBytes| == 8
    ensures id == JobId(randomBytes)
  {
    EncodeLength(BitsOf(randomBytes));
    var text := Base32Encode(randomBytes);
    id := "j_" + text[..12];
  }

  /** Two ids agree exactly when the first sixty bits of their random bytes do. */
  lemma JobIdIffFirstSixtyBits(a: seq<Byte>, b: seq<Byte>)
    requires |a| == |b| == 8
    ensures JobId(a) == JobId(b) <==> a[..7] == b[..7] && a[7] / 16 == b[7] / 16
  {
    hide Encode, BitsOf;
    var s, t := Encode(BitsOf(a)), Encode(BitsOf(b));
    PrefixIffPrefix(BitsOf(a), BitsOf(b), 12);
    BitsIffBytes(a, b, 7);
    assert JobId(a)[2..] == s[..12] && JobId(b)[2..] == t[..12];
  }

  /** The pattern by which the startup scan recognises a transcript file. */
  predicate MatchesTranscriptPattern(name: string) {
    && |name| == 2 + 12 + 6
    && name[..2] == "j_"
    && (forall i :: 2 <= i < 14 ==> InAlphabet(name[i]))
    && name[14..] == ".jsonl"
  }

  // ------------------------------------------------------- from a name back to bytes

  lemma {:induction false} LowBitsOfValue(bits: seq<bool>)
    ensures LowBits(Value(bits), |bits|) == bits
  {
    if bits != [] {
      var n := |bits| - 1;
      LowBitsOfValue(bits[..n]);
      assert Value(bits) / 2 == Value(bits[..n]) && bits == bits[..n] + [bits[n]];
    }
  }

  lemma LetterOfRank(c: char)
    requires InAlphabet(c)
    ensures 0 <= Rank(c) < 32 && Letter(Rank(c)) == c
  {
  }

  /** The bits a string over the alphabet stands for, five for each character. */
  function Decoded(s: string): (r: seq<bool>)
    requires forall i :: 0 <= i < |s| ==> InAlphabet(s[i])
    ensures |r| == 5 * |s|
  {
    if s == "" then []
    else
      LetterOfRank(s[0]);
      LowBits(Rank(s[0]), 5) + Decoded(s[1..])
  }

  lemma {:induction false} EncodeDecoded(s: string, rest: seq<bool>)
    requires forall i :: 0 <= i < |s| ==> InAlphabet(s[i])
    ensures Encode(Decoded(s) + rest) == s + Encode(rest)
  {
    hide LowBits, Letter, Rank, InAlphabet, Value;
    if s == "" {
      assert [] + rest == rest && "" + Encode(rest) == Encode(rest);
    } else {
      EncodeDecoded(s[1..], rest);
      LetterOfRank(s[0]);
      var group := LowBits(Rank(s[0]), 5);
      var bits := Decoded(s) + rest;
      assert bits[..5] == group && bits[5..] == Decoded(s[1..]) + rest;
      assert Pow2(5) == 32;
      ValueOfLowBits(Rank(s[0]));
      assert s + Encode(rest) == [s[0]] + (s[1..] + Encode(rest));
    }
  }

  /** Whole bytes from bits. */
  function BytesOf(bits: seq<bool>): (r: seq<Byte>)
    requires |bits| % 8 == 0
    ensures 8 * |r| == |bits|
  {
    if bits == [] then []
    else
      ByteBound(0);
      assert Pow2(8) == 256;
      [Value(bits[..8]) as Byte] + BytesOf(bits[8..])
  }

  lemma {:induction false} BitsOfBytes(bits: seq<bool>)
    requires |bits| % 8 == 0
    ensures BitsOf(BytesOf(bits)) == bits
  {
    hide LowBits, Value, Pow2;
    if bits != [] {
      BitsOfBytes(bits[8..]);
      LowBitsOfValue(bits[..8]);
      var bytes := BytesOf(bits);
      assert bytes[1..] == BytesOf(bits[8..]);
      assert bits == bits[..8] + bits[8..];
    }
  }

  lemma TranscriptNameIsRecognised(bytes: seq<Byte>)
    requires |bytes| == 8
    ensures MatchesTranscriptPattern(JobId(bytes) + ".jsonl")
  {
    hide Encode, BitsOf, InAlphabet;
    PrefixIffPrefix(BitsOf(bytes), BitsOf(bytes), 12);
    EncodeLength(BitsOf(bytes));
    var name := JobId(bytes) + ".jsonl";
    forall i | 2 <= i < 14
      ensures InAlphabet(name[i])
    {
      assert name[i] == Encode(BitsOf(bytes))[i - 2];
    }
  }

  /** The scan recognises exactly the files of ids that can be drawn: every such name is that of eight bytes. */
  lemma RecognisedIffOfAnId(name: string)
    ensures MatchesTranscriptPattern(name) <==>
              exists bytes: seq<Byte> :: |bytes| == 8 && name == JobId(bytes) + ".jsonl"
  {
    hide Encode, BitsOf, InAlphabet, Decoded, BytesOf;
    if bytes: seq<Byte> :| |bytes| == 8 && name == JobId(bytes) + ".jsonl" {
      TranscriptNameIsRecognised(bytes);
    }
    if MatchesTranscriptPattern(name) {
      var text := name[2..14];
      assert forall i :: 0 <= i < |text| ==> text[i] == name[i + 2];
      var bits := Decoded(text) + Zeros(4);
      var bytes := BytesOf(bits);
      BitsOfBytes(bits);
      EncodeDecoded(text, Zeros(4));
      EncodeLength(bits);
      assert Encode(bits)[..12] == text;
      assert name == name[..2] + text + name[14..];
      assert |bytes| == 8 && name == JobId(bytes) + ".jsonl";
    }
  }
}
