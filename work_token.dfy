/**
 * The proof-of-work check on uploads. A client that initiates an upload
 * sends a work token; the server hashes `hash + workToken` with SHA-1,
 * writes the 40 hex digits as a 160-character binary string (the number's
 * base-2 form, left-padded with zeros) and accepts the token iff that
 * string starts with 13 zeros (`checkWorkToken` and `sha1Bits` in
 * apiHelpers/requestHandlers.ts). The Python client
 * (devel/test_work_token.py) computes the same string with `bin` and
 * `zfill` and draws random tokens until one passes.
 *
 * SHA-1 itself is a function-typed parameter whose results are 40
 * lowercase hex digits; the hex-to-number and number-to-binary conversions
 * (`BigInt("0x" + h)`, `int(h, 16)`, `toString(2)`, `bin`) are written out.
 */
module WorkToken {
  import opened Wrappers
  import opened JsStrings
  import opened Types

  /** A SHA-1 hex digest: exactly 40 lowercase hex digits. */
  type Digest = s: string | IsLowerHex40(s) witness "0000000000000000000000000000000000000000"

  /** SHA-1 of the UTF-8 encoding of a text, as a hex digest. */
  type Sha1 = string -> Digest

  /** The difficulty the server hard-codes. */
  const ServerDifficulty: int := 13

  /** The length of the padded binary form the Python client asks for. */
  const DigestBits: int := 160

  /** The value of one hex digit. */
  function HexValue(c: char): (r: nat)
    requires IsLowerHexChar(c)
    ensures r < 16
    ensures r == 0 <==> c == '0'
  {
    if '0' <= c <= '9' then (c as int) - ('0' as int) else (c as int) - ('a' as int) + 10
  }

  predicate IsHex(h: string) {
    forall i | 0 <= i < |h| :: IsLowerHexChar(h[i])
  }

  /** `BigInt("0x" + h)` / `int(h, 16)`: the number a hex string denotes, most significant digit first. */
  function HexToNat(h: string): nat
    requires IsHex(h)
  {
    if h == [] then 0 else 16 * HexToNat(h[..|h| - 1]) + HexValue(h[|h| - 1])
  }

  predicate IsBinary(s: string) {
    forall i | 0 <= i < |s| :: s[i] == '0' || s[i] == '1'
  }

  function BitChar(b: nat): char
    requires b < 2
  {
    if b == 0 then '0' else '1'
  }

  function BitValue(c: char): nat {
    if c == '1' then 1 else 0
  }

  /** `n.toString(2)` / `bin(n)[2:]`: base 2 without leading zeros ("0" for zero). */
  function ToBinary(n: nat): (r: string)
    ensures |r| >= 1 && IsBinary(r)
    ensures r[0] != '+' && r[0] != '-'
  {
    if n < 2 then [BitChar(n)] else ToBinary(n / 2) + [BitChar(n % 2)]
  }

  /** The number a string of '0' and '1' denotes, most significant bit first. */
  function BinToNat(s: string): nat {
    if s == [] then 0 else 2 * BinToNat(s[..|s| - 1]) + BitValue(s[|s| - 1])
  }

  /** `sha1Bits` on the server: `toString(2)` of the digest, padded to four bits per hex digit. */
  function Sha1Bits(sha1: Sha1, input: string): string {
    var h := sha1(input);
    PadStart(ToBinary(HexToNat(h)), |h| * 4, '0')
  }

  /** `_sha1_bits` in the client: `bin(int(sha1, 16))[2:].zfill(160)`. */
  function ClientSha1Bits(sha1: Sha1, input: string): string {
    ZFill(ToBinary(HexToNat(sha1(input))), DigestBits)
  }

  /** `checkWorkToken`: throws "Invalid work token" unless the bits start with 13 zeros. */
  function CheckWorkToken(sha1: Sha1, workToken: string, hash: string): Outcome<Error> {
    if StartsWith(Sha1Bits(sha1, hash + workToken), Repeat('0', ServerDifficulty)) then Pass
    else Fail(InvalidWorkToken)
  }

  /** `_check_work_token`: the bits start with `difficulty` zeros. */
  predicate ClientCheckWorkToken(sha1: Sha1, workToken: string, hash: string, difficulty: int) {
    StartsWith(ClientSha1Bits(sha1, hash + workToken), Repeat('0', difficulty))
  }

  /** The four bits of one hex digit, most significant first. */
  function Nibble(c: char): (r: string)
    requires IsLowerHexChar(c)
    ensures |r| == 4 && IsBinary(r)
  {
    var v := HexValue(c);
    var b8 := if v >= 8 then 1 else 0;
    var b4 := if v - 8 * b8 >= 4 then 1 else 0;
    var b2 := if v - 8 * b8 - 4 * b4 >= 2 then 1 else 0;
    [BitChar(b8), BitChar(b4), BitChar(b2), BitChar(v - 8 * b8 - 4 * b4 - 2 * b2)]
  }

  /** A hex string digit by digit in binary: the reference form of its bits. */
  function Nibbles(h: string): (r: string)
    requires IsHex(h)
    ensures |r| == 4 * |h| && IsBinary(r)
  {
    if h == [] then [] else Nibbles(h[..|h| - 1]) + Nibble(h[|h| - 1])
  }

  /** Appending one bit doubles the value and adds the bit. */
  lemma BinToNatAppend(a: string, c: char)
    ensures BinToNat(a + [c]) == 2 * BinToNat(a) + BitValue(c)
  {
    assert (a + [c])[..|a|] == a;
  }

  /** Appending four bits multiplies the value by 16 and adds their value. */
  lemma BinToNatAppend4(a: string, n: string)
    requires |n| == 4
    ensures BinToNat(a + n) == 16 * BinToNat(a) + BinToNat(n)
    ensures BinToNat(n) == 8 * BitValue(n[0]) + 4 * BitValue(n[1]) + 2 * BitValue(n[2]) + BitValue(n[3])
  {
    assert a + n == a + [n[0]] + [n[1]] + [n[2]] + [n[3]];
    assert n == [] + [n[0]] + [n[1]] + [n[2]] + [n[3]];
    BinToNatAppend(a, n[0]);
    BinToNatAppend(a + [n[0]], n[1]);
    BinToNatAppend(a + [n[0]] + [n[1]], n[2]);
    BinToNatAppend(a + [n[0]] + [n[1]] + [n[2]], n[3]);
    BinToNatAppend([], n[0]);
    BinToNatAppend([] + [n[0]], n[1]);
    BinToNatAppend([] + [n[0]] + [n[1]], n[2]);
    BinToNatAppend([] + [n[0]] + [n[1]] + [n[2]], n[3]);
  }

  /** The four bits of a hex digit denote its value. */
  lemma NibbleValue(c: char)
    requires IsLowerHexChar(c)
    ensures BinToNat(Nibble(c)) == HexValue(c)
  {
    BinToNatAppend4([], Nibble(c));
  }

  /** The digit-by-digit bits of a hex string denote the same number as the string. */
  lemma {:induction false} NibblesValue(h: string)
    requires IsHex(h)
    ensures BinToNat(Nibbles(h)) == HexToNat(h)
  {
    if h != [] {
      var p := h[..|h| - 1];
      NibblesValue(p);
      BinToNatAppend4(Nibbles(p), Nibble(h[|h| - 1]));
      NibbleValue(h[|h| - 1]);
    }
  }

  /** Padding commutes with appending one character on the right. */
  lemma PadAppend(t: string, w: nat, c: char)
    requires |t| <= w
    ensures PadStart(t + [c], w + 1, '0') == PadStart(t, w, '0') + [c]
  {
    if |t| < w {
      assert Repeat('0', w + 1 - |t + [c]|) + (t + [c]) == (Repeat('0', w - |t|) + t) + [c];
    }
  }

  /** A run of zeros padded out from a single zero. */
  lemma ZerosPadded(w: nat)
    requires w >= 1
    ensures PadStart("0", w, '0') == Repeat('0', w)
  {
    if w > 1 {
      assert Repeat('0', w) == Repeat('0', w - 1) + ['0'];
    }
  }

  /** The binary form of `2 * m + b` is that of `m` followed by the bit, unless it is a single bit. */
  lemma ToBinaryAppend(m: nat, c: char)
    requires c == '0' || c == '1'
    ensures 2 * m + BitValue(c) >= 2 ==> ToBinary(2 * m + BitValue(c)) == ToBinary(m) + [c]
    ensures 2 * m + BitValue(c) < 2 ==> m == 0 && ToBinary(2 * m + BitValue(c)) == [c]
  {
    var n := 2 * m + BitValue(c);
    assert n / 2 == m && n % 2 == BitValue(c);
    assert BitChar(BitValue(c)) == c;
  }

  /**
   * One induction step, on the strings alone: if `t` pads out to all of `s`
   * but its last bit, then `t` with that bit appended (or the bit alone, when
   * `t` is "0") pads out to `s`.
   */
  lemma PaddedBinaryStep(s: string, t: string, u: string)
    requires |s| >= 2
    requires PadStart(t, |s| - 1, '0') == s[..|s| - 1]
    requires u == t + [s[|s| - 1]] || (t == "0" && u == [s[|s| - 1]])
    ensures PadStart(u, |s|, '0') == s
  {
    var p, c := s[..|s| - 1], s[|s| - 1];
    assert s == p + [c];
    if u == t + [c] {
      PadAppend(t, |p|, c);
    } else {
      ZerosPadded(|p|);
      assert PadStart([c], |p| + 1, '0') == Repeat('0', |p|) + [c];
    }
  }

  /** A single bit is its own padded binary form. */
  lemma PaddedBinaryBit(s: string)
    requires IsBinary(s) && |s| == 1
    ensures PadStart(ToBinary(BinToNat(s)), |s|, '0') == s
  {
    assert s[..0] == [] && BinToNat([]) == 0;
    assert s == [BitChar(BitValue(s[0]))];
  }

  /** A bit string never denotes a number of more bits than it has, so padding its value restores it. */
  lemma {:induction false} PaddedBinaryRestores(s: string)
    requires IsBinary(s) && |s| >= 1
    ensures PadStart(ToBinary(BinToNat(s)), |s|, '0') == s
  {
    if |s| == 1 {
      PaddedBinaryBit(s);
    } else {
      var p := s[..|s| - 1];
      assert IsBinary(p);
      PaddedBinaryRestores(p);
      assert ToBinary(BinToNat(s)) == ToBinary(BinToNat(p)) + [s[|s| - 1]]
        || (ToBinary(BinToNat(p)) == "0" && ToBinary(BinToNat(s)) == [s[|s| - 1]])
      by {
        ToBinaryAppend(BinToNat(p), s[|s| - 1]);
      }
      PaddedBinaryStep(s, ToBinary(BinToNat(p)), ToBinary(BinToNat(s)));
    }
  }

  /** The server's bits of a digest are its hex digits written out in binary, four bits each. */
  lemma Sha1BitsAreNibbles(sha1: Sha1, input: string)
    ensures IsLowerHex40(sha1(input))
    ensures Sha1Bits(sha1, input) == Nibbles(sha1(input))
    ensures |Sha1Bits(sha1, input)| == 160 && IsBinary(Sha1Bits(sha1, input))
  {
    var h := sha1(input);
    NibblesValue(h);
    PaddedBinaryRestores(Nibbles(h));
  }

  /** Bit `4 * i + j` of the digit-by-digit form is bit `j` of hex digit `i`. */
  lemma {:induction false} NibblesAt(h: string, i: nat, j: nat)
    requires IsHex(h) && i < |h| && j < 4
    ensures Nibbles(h)[4 * i + j] == Nibble(h[i])[j]
  {
    var p := h[..|h| - 1];
    if i < |p| {
      NibblesAt(p, i, j);
      assert p[i] == h[i];
    }
  }

  /** The first bit of a hex digit is zero iff the digit is below 8. */
  lemma NibbleBits(c: char)
    requires IsLowerHexChar(c)
    ensures Nibble(c)[0] == '0' <==> HexValue(c) < 8
    ensures (Nibble(c)[0] == '0' && Nibble(c)[1] == '0' && Nibble(c)[2] == '0' && Nibble(c)[3] == '0') <==> c == '0'
    ensures c == '0' ==> Nibble(c) == "0000"
  {
  }

  /**
   * What the server's check accepts, in hex: a work token passes iff the
   * digest of `hash + workToken` starts with three '0' digits followed by
   * a digit from '0' to '7'.
   */
  lemma ServerCheckInHex(sha1: Sha1, workToken: string, hash: string)
    ensures var d := sha1(hash + workToken);
      CheckWorkToken(sha1, workToken, hash).Pass? <==> d[0] == '0' && d[1] == '0' && d[2] == '0' && HexValue(d[3]) < 8
  {
    var d := sha1(hash + workToken);
    Sha1BitsAreNibbles(sha1, hash + workToken);
    ZeroPrefix(Nibbles(d), ServerDifficulty);
    LeadingZeroBits(d);
  }

  /** A text starts with `n` zeros iff its first `n` characters are '0'. */
  lemma ZeroPrefix(s: string, n: int)
    requires n >= 0
    ensures StartsWith(s, Repeat('0', n)) <==> n <= |s| && LeadingZeros(s, n)
  {
    var z := Repeat('0', n);
    if n <= |s| && LeadingZeros(s, n) {
      assert s[..n] == z;
    }
  }

  /** The first `n` characters of `s` are all '0'. */
  predicate LeadingZeros(s: string, n: int)
    requires n <= |s|
  {
    forall k | 0 <= k < n :: s[k] == '0'
  }

  /** Hex digit `i` is '0' iff its four bits are '0'. */
  lemma DigitBitsZero(d: string, i: nat)
    requires IsHex(d) && i < |d|
    ensures (Nibbles(d)[4 * i] == '0' && Nibbles(d)[4 * i + 1] == '0' &&
             Nibbles(d)[4 * i + 2] == '0' && Nibbles(d)[4 * i + 3] == '0') <==> d[i] == '0'
  {
    NibbleBits(d[i]);
    NibblesAt(d, i, 0);
    NibblesAt(d, i, 1);
    NibblesAt(d, i, 2);
    NibblesAt(d, i, 3);
  }

  /** A '0' digit contributes four '0' bits. */
  lemma ZeroDigitBit(d: string, i: nat, j: nat)
    requires IsHex(d) && i < |d| && j < 4 && d[i] == '0'
    ensures Nibbles(d)[4 * i + j] == '0'
  {
    NibbleBits(d[i]);
    NibblesAt(d, i, j);
  }

  /** The first bit of hex digit `i` is '0' iff the digit is below 8. */
  lemma DigitTopBitZero(d: string, i: nat)
    requires IsHex(d) && i < |d|
    ensures Nibbles(d)[4 * i] == '0' <==> HexValue(d[i]) < 8
  {
    assert Nibbles(d)[4 * i] == Nibble(d[i])[0] by {
      NibblesAt(d, i, 0);
    }
    assert Nibble(d[i])[0] == '0' <==> HexValue(d[i]) < 8 by {
      NibbleBits(d[i]);
    }
  }

  /** The first 13 bits of a hex string are zero iff it starts "000" and then a digit below 8. */
  lemma LeadingZeroBits(d: string)
    requires IsHex(d) && |d| >= 4
    ensures LeadingZeros(Nibbles(d), 13) <==> d[0] == '0' && d[1] == '0' && d[2] == '0' && HexValue(d[3]) < 8
  {
    var bits := Nibbles(d);
    DigitBitsZero(d, 0);
    DigitBitsZero(d, 1);
    DigitBitsZero(d, 2);
    DigitTopBitZero(d, 3);
    if d[0] == '0' && d[1] == '0' && d[2] == '0' && HexValue(d[3]) < 8 {
      forall k | 0 <= k < 13 ensures bits[k] == '0' {
        if k < 12 {
          var i := if k < 4 then 0 else if k < 8 then 1 else 2;
          ZeroDigitBit(d, i, k - 4 * i);
        }
      }
    }
  }

  /** The server and the client compute the same 160 bits for every input. */
  lemma ClientBitsAreServerBits(sha1: Sha1, input: string)
    ensures ClientSha1Bits(sha1, input) == Sha1Bits(sha1, input)
  {
    var h := sha1(input);
    ZFillIsPadStart(ToBinary(HexToNat(h)), DigestBits);
  }

  /** At the server's difficulty the client's check is the server's check. */
  lemma ClientAgreesWithServer(sha1: Sha1, workToken: string, hash: string)
    ensures ClientCheckWorkToken(sha1, workToken, hash, ServerDifficulty) <==> CheckWorkToken(sha1, workToken, hash).Pass?
  {
    ClientBitsAreServerBits(sha1, hash + workToken);
  }

  /** A token that passes at some difficulty passes at every lower one. */
  lemma {:induction false} LowerDifficultyStillPasses(sha1: Sha1, workToken: string, hash: string, d: int, d': int)
    requires ClientCheckWorkToken(sha1, workToken, hash, d)
    requires d' <= d
    ensures ClientCheckWorkToken(sha1, workToken, hash, d')
  {
    var bits := ClientSha1Bits(sha1, hash + workToken);
    var z := Repeat('0', d);
    var z' := Repeat('0', d');
    assert |z'| <= |z|;
    assert bits[..|z'|] == z' by {
      forall k | 0 <= k < |z'| ensures bits[..|z'|][k] == z'[k] {
        assert bits[k] == z[k];
      }
    }
  }

  /**
   * `_create_work_token`: tries random tokens until one passes. The random
   * draws are the sequence `candidates`; the loop returns the first that
   * passes, or `None` when the draws run out.
   */
  method CreateWorkToken(sha1: Sha1, hash: string, difficulty: int, candidates: seq<string>) returns (r: Option<string>)
    ensures r.Some? ==> ClientCheckWorkToken(sha1, r.value, hash, difficulty)
    ensures r.Some? ==> exists i :: (0 <= i < |candidates| && candidates[i] == r.value &&
      forall j | 0 <= j < i :: !ClientCheckWorkToken(sha1, candidates[j], hash, difficulty))
    ensures r.None? <==> forall i | 0 <= i < |candidates| :: !ClientCheckWorkToken(sha1, candidates[i], hash, difficulty)
  {
    var i := 0;
    while i < |candidates|
      invariant 0 <= i <= |candidates|
      invariant forall j | 0 <= j < i :: !ClientCheckWorkToken(sha1, candidates[j], hash, difficulty)
    {
      var workToken := candidates[i];
      if ClientCheckWorkToken(sha1, workToken, hash, difficulty) {
        return Some(workToken);
      }
      i := i + 1;
    }
    return None;
  }
}
