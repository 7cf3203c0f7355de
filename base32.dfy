/** The Base32 codec of RFC 4648 section 6 used for TOTP secrets: the
    decoder that reads a shared secret back into bytes, and the encoder that
    writes freshly generated secret bytes (the random source is a
    parameter). Both work, as the JavaScript does, through a run of binary
    digits; here the text of "0" and "1" digits is a sequence of booleans,
    `true` standing for "1". */
module Base32 {
  import opened Common

  /** The symbol with value `v`: "A" to "Z" for 0 to 25, "2" to "7" for 26
      to 31. */
  function SymbolOf(v: nat): char
    requires v < 32
  {
    if v < 26 then ('A' as int + v) as char else ('2' as int + v - 26) as char
  }

  /** The 32 symbols of the Base32 alphabet, in value order. */
  const Alphabet: string := "ABCDEFGHIJKLMNOPQRSTUVWXYZ234567"

  /** Each symbol stands at its value in the alphabet. */
  lemma AlphabetSymbols()
    ensures |Alphabet| == 32 && forall v :: 0 <= v < 32 ==> Alphabet[v] == SymbolOf(v)
  {
  }

  predicate InAlphabet(c: char) {
    'A' <= c <= 'Z' || '2' <= c <= '7'
  }

  /** `ALPHABET.indexOf(c)`: the value of a symbol, or -1. */
  function AlphabetIndex(c: char): (r: int)
    ensures -1 <= r < 32
    ensures r == -1 <==> !InAlphabet(c)
  {
    if 'A' <= c <= 'Z' then c as int - 'A' as int
    else if '2' <= c <= '7' then c as int - '2' as int + 26
    else -1
  }

  /** The index found is the first (and only) position of `c` in the
      alphabet, and -1 exactly for characters outside it. */
  lemma AlphabetIndexIsIndexOf(c: char)
    ensures AlphabetIndex(c) == -1 <==> forall v :: 0 <= v < |Alphabet| ==> Alphabet[v] != c
    ensures AlphabetIndex(c) >= 0 ==>
      Alphabet[AlphabetIndex(c)] == c && forall v :: 0 <= v < AlphabetIndex(c) ==> Alphabet[v] != c
  {
    AlphabetSymbols();
    forall v | 0 <= v < 32 && Alphabet[v] == c
      ensures AlphabetIndex(c) == v
    {
      SymbolIndex(v);
    }
    if InAlphabet(c) {
      assert SymbolOf(AlphabetIndex(c)) == c;
    }
  }

  lemma SymbolIndex(v: nat)
    requires v < 32
    ensures AlphabetIndex(SymbolOf(v)) == v && InAlphabet(SymbolOf(v))
  {
  }

  // ---------------------------------------------------------------------
  // Binary digits
  // ---------------------------------------------------------------------

  function Pow2(k: nat): (r: nat)
    ensures r >= 1
  {
    if k == 0 then 1 else 2 * Pow2(k - 1)
  }

  /** `parseInt(bits, 2)`. */
  function BinaryValue(bits: seq<bool>): nat {
    if bits == [] then 0 else 2 * BinaryValue(bits[..|bits| - 1]) + (if bits[|bits| - 1] then 1 else 0)
  }

  /** `v.toString(2).padStart(w, '0')` for `v < 2^w`: the `w` binary digits
      of `v`, most significant first. */
  function BitText(v: nat, w: nat): (r: seq<bool>)
    ensures |r| == w
  {
    if w == 0 then [] else BitText(v / 2, w - 1) + [v % 2 == 1]
  }

  lemma {:induction false} BitTextValue(v: nat, w: nat)
    requires v < Pow2(w)
    ensures BinaryValue(BitText(v, w)) == v
    decreases w
  {
    if w > 0 {
      BitTextValue(v / 2, w - 1);
      var r := BitText(v, w);
      assert r[..w - 1] == BitText(v / 2, w - 1);
    }
  }

  lemma {:induction false} BinaryValueBound(bits: seq<bool>)
    ensures BinaryValue(bits) < Pow2(|bits|)
    decreases |bits|
  {
    if bits != [] {
      BinaryValueBound(bits[..|bits| - 1]);
    }
  }

  /** Writing the value of some bits back with as many digits gives the
      bits themselves. */
  lemma {:induction false} ValueText(bits: seq<bool>)
    ensures BitText(BinaryValue(bits), |bits|) == bits
    decreases |bits|
  {
    if bits != [] {
      var u := bits[..|bits| - 1];
      ValueText(u);
      assert BinaryValue(bits) / 2 == BinaryValue(u);
      assert bits == u + [bits[|bits| - 1]];
    }
  }

  function Zeros(n: nat): (r: seq<bool>)
    ensures |r| == n && forall i :: 0 <= i < n ==> !r[i]
  {
    seq(n, _ => false)
  }

  // ---------------------------------------------------------------------
  // Decoding
  // ---------------------------------------------------------------------

  /** `s.replace(/=+$/, '')`: the run of "=" at the very end is removed. */
  function StripTrailingPad(s: string): (r: string)
    ensures |r| <= |s| && r == s[..|r|]
    ensures r == [] || r[|r| - 1] != '='
  {
    if s != [] && s[|s| - 1] == '=' then StripTrailingPad(s[..|s| - 1]) else s
  }

  /** Only "=" characters are stripped. */
  lemma {:induction false} StripTrailingPadDrops(s: string)
    ensures forall i :: |StripTrailingPad(s)| <= i < |s| ==> s[i] == '='
    decreases |s|
  {
    if s != [] && s[|s| - 1] == '=' {
      var t := s[..|s| - 1];
      StripTrailingPadDrops(t);
      forall i | |StripTrailingPad(s)| <= i < |s| - 1
        ensures s[i] == '='
      {
        assert s[i] == t[i];
      }
    }
  }

  /** The text the decoder reads: the input (or "" when it is missing or
      empty) without its trailing "=" run, upper-cased, without whitespace. */
  function Clean(input: Option<string>): string {
    var s := if Truthy(input) then input.value else "";
    RemoveSpaces(Upper(StripTrailingPad(s)))
  }

  /** The five bits a character contributes: none for a character outside
      the alphabet. */
  function CharBits(c: char): (r: seq<bool>)
    ensures |r| == if InAlphabet(c) then 5 else 0
  {
    var v := AlphabetIndex(c);
    if v == -1 then [] else BitText(v, 5)
  }

  /** The `bits` after the first loop of the decoder has read `cs`. */
  function BitsOfChars(cs: string): seq<bool> {
    if cs == [] then [] else BitsOfChars(cs[..|cs| - 1]) + CharBits(cs[|cs| - 1])
  }

  /** The byte read from the eight bits at `i`. */
  function ByteOf(bits: seq<bool>, i: nat): Byte
    requires i + 8 <= |bits|
  {
    var b := bits[i..i + 8];
    BinaryValueBound(b);
    assert Pow2(8) == 256;
    BinaryValue(b)
  }

  /** The bytes the second loop reads: every complete group of eight bits,
      in order; fewer than eight bits left over are dropped. */
  function BytesOfBits(bits: seq<bool>): (r: seq<Byte>)
    ensures |r| == |bits| / 8
  {
    seq(|bits| / 8, j requires 0 <= j < |bits| / 8 => ByteOf(bits, 8 * j))
  }

  /** `base32Decode(input)`. */
  function Decode(input: Option<string>): seq<Byte> {
    BytesOfBits(BitsOfChars(Clean(input)))
  }

  lemma BitsOfCharsSnoc(cs: string, i: nat)
    requires i < |cs|
    ensures BitsOfChars(cs[..i + 1]) == BitsOfChars(cs[..i]) + CharBits(cs[i])
  {
    assert cs[..i + 1][..i] == cs[..i];
  }

  method Base32Decode(input: Option<string>) returns (out: seq<Byte>)
    ensures out == Decode(input)
  {
    var clean := Clean(input);
    var bits: seq<bool> := [];
    var k := 0;
    while k < |clean|
      invariant 0 <= k <= |clean|
      invariant bits == BitsOfChars(clean[..k])
    {
      var v := AlphabetIndex(clean[k]);
      BitsOfCharsSnoc(clean, k);
      if v != -1 {
        bits := bits + BitText(v, 5);
      }
      k := k + 1;
    }
    assert clean[..k] == clean;
    out := ReadBytes(bits);
  }

  /** The second loop of the decoder. */
  method ReadBytes(bits: seq<bool>) returns (out: seq<Byte>)
    ensures out == BytesOfBits(bits)
  {
    out := [];
    var i := 0;
    while i + 8 <= |bits|
      invariant i == 8 * |out| && i <= |bits|
      invariant forall j :: 0 <= j < |out| ==> out[j] == ByteOf(bits, 8 * j)
    {
      out := out + [ByteOf(bits, i)];
      i := i + 8;
    }
    DivEight(|bits|, |out|);
  }

  lemma DivEight(n: nat, m: nat)
    requires 8 * m <= n < 8 * m + 8
    ensures n / 8 == m
  {
  }

  /** The number of alphabet characters in `cs`. */
  function SymbolCount(cs: string): nat {
    if cs == [] then 0 else SymbolCount(cs[..|cs| - 1]) + (if InAlphabet(cs[|cs| - 1]) then 1 else 0)
  }

  lemma {:induction false} BitsOfCharsLength(cs: string)
    ensures |BitsOfChars(cs)| == 5 * SymbolCount(cs)
    decreases |cs|
  {
    if cs != [] {
      BitsOfCharsLength(cs[..|cs| - 1]);
    }
  }

  /** Decoding k alphabet characters yields floor(5k/8) bytes; every other
      character contributes nothing. */
  lemma DecodeLength(input: Option<string>)
    ensures |Decode(input)| == 5 * SymbolCount(Clean(input)) / 8
  {
    BitsOfCharsLength(Clean(input));
  }

  predicate NoLower(s: string) {
    forall i :: 0 <= i < |s| ==> !('a' <= s[i] <= 'z')
  }

  lemma {:induction false} RemoveSpacesNoLower(s: string)
    requires NoLower(s)
    ensures NoLower(RemoveSpaces(s))
    decreases |s|
  {
    if s != [] {
      RemoveSpacesNoLower(s[1..]);
    }
  }

  /** What the decoder reads has no whitespace and no lower-case letter. */
  lemma CleanShape(input: Option<string>)
    ensures forall i :: 0 <= i < |Clean(input)| ==> !IsJsSpace(Clean(input)[i])
    ensures NoLower(Clean(input))
  {
    var s := if Truthy(input) then input.value else "";
    RemoveSpacesNoLower(Upper(StripTrailingPad(s)));
  }

  /** Letter case does not matter: a lower-cased secret decodes to the same
      bytes. */
  lemma DecodeIgnoresCase(s: string)
    ensures Clean(Some(Lower(s))) == Clean(Some(s))
    ensures Decode(Some(Lower(s))) == Decode(Some(s))
  {
    StripLower(s);
    UpperLower(StripTrailingPad(s));
  }

  lemma {:induction false} StripLower(s: string)
    ensures StripTrailingPad(Lower(s)) == Lower(StripTrailingPad(s))
    decreases |s|
  {
    if s != [] {
      assert Lower(s)[..|s| - 1] == Lower(s[..|s| - 1]);
      StripLower(s[..|s| - 1]);
    }
  }

  lemma UpperLower(s: string)
    ensures Upper(Lower(s)) == Upper(s)
  {
  }

  // ---------------------------------------------------------------------
  // Encoding
  // ---------------------------------------------------------------------

  /** The `bits` after the first loop of the encoder: eight per byte, most
      significant first. */
  function ByteBits(bs: seq<Byte>): (r: seq<bool>)
    ensures |r| == 8 * |bs|
  {
    if bs == [] then [] else ByteBits(bs[..|bs| - 1]) + BitText(bs[|bs| - 1], 8)
  }

  /** `bits.slice(i, i + 5)`, then `padEnd(5, '0')` when it is short. */
  function Chunk(bits: seq<bool>, i: nat): (r: seq<bool>)
    requires i <= |bits|
    ensures |r| == 5
  {
    if i + 5 <= |bits| then bits[i..i + 5] else bits[i..] + Zeros(5 - (|bits| - i))
  }

  /** The symbol for the chunk starting at `i`. */
  function SymbolAt(bits: seq<bool>, i: nat): char
    requires i <= |bits|
  {
    var p := Chunk(bits, i);
    BinaryValueBound(p);
    assert Pow2(5) == 32;
    Alphabet[BinaryValue(p)]
  }

  /** One symbol per started group of five bits. */
  function Symbols(bits: seq<bool>): (r: string)
    ensures |r| == (|bits| + 4) / 5
  {
    seq((|bits| + 4) / 5, j requires 0 <= j < (|bits| + 4) / 5 => SymbolAt(bits, 5 * j))
  }

  /** The number of "=" that brings `n` symbols up to a multiple of eight. */
  function PadCount(n: nat): nat {
    (8 - n % 8) % 8
  }

  /** The secret text produced from the random bytes `bs`. */
  function Encode(bs: seq<Byte>): string {
    var out := Symbols(ByteBits(bs));
    out + Repeat('=', PadCount(|out|))
  }

  lemma ByteBitsSnoc(bs: seq<Byte>, k: nat)
    requires k < |bs|
    ensures ByteBits(bs[..k + 1]) == ByteBits(bs[..k]) + BitText(bs[k], 8)
  {
    assert bs[..k + 1][..k] == bs[..k];
  }

  /** `generateBase32Secret`, with the random bytes given. */
  method GenerateBase32Secret(buf: seq<Byte>) returns (secret: string)
    ensures secret == Encode(buf)
  {
    var bits: seq<bool> := [];
    var k := 0;
    while k < |buf|
      invariant 0 <= k <= |buf|
      invariant bits == ByteBits(buf[..k])
    {
      ByteBitsSnoc(buf, k);
      bits := bits + BitText(buf[k], 8);
      k := k + 1;
    }
    assert buf[..k] == buf;
    var out := WriteSymbols(bits);
    secret := out + Repeat('=', PadCount(|out|));
  }

  /** The second loop of the encoder: five bits at a time, the last group
      padded with zeros on the right. */
  method WriteSymbols(bits: seq<bool>) returns (out: string)
    ensures out == Symbols(bits)
  {
    out := "";
    var i := 0;
    while i < |bits|
      invariant i == 5 * |out| && i < |bits| + 5
      invariant forall j :: 0 <= j < |out| ==> out[j] == SymbolAt(bits, 5 * j)
    {
      out := out + [SymbolAt(bits, i)];
      i := i + 5;
    }
    CeilFive(|bits|, |out|);
  }

  lemma CeilFive(n: nat, m: nat)
    requires n <= 5 * m < n + 5
    ensures m == (n + 4) / 5
  {
  }

  predicate AllSymbols(s: string) {
    forall i :: 0 <= i < |s| ==> InAlphabet(s[i])
  }

  lemma SymbolsInAlphabet(bits: seq<bool>)
    ensures AllSymbols(Symbols(bits))
  {
    var out := Symbols(bits);
    forall i | 0 <= i < |out|
      ensures InAlphabet(out[i])
    {
      var p := Chunk(bits, 5 * i);
      BinaryValueBound(p);
      assert Pow2(5) == 32;
      AlphabetSymbols();
      SymbolIndex(BinaryValue(p));
    }
  }

  /** The secret has ceil(8n/5) alphabet symbols, then "=" up to a multiple
      of eight characters. */
  lemma EncodeShape(bs: seq<Byte>)
    ensures var e := Encode(bs); var n := (8 * |bs| + 4) / 5;
      |e| % 8 == 0 && n <= |e| < n + 8 &&
      (forall i :: 0 <= i < n ==> InAlphabet(e[i])) &&
      (forall i :: n <= i < |e| ==> e[i] == '=')
  {
    var out := Symbols(ByteBits(bs));
    SymbolsInAlphabet(ByteBits(bs));
    PaddedShape(out);
  }

  lemma PaddedShape(out: string)
    requires AllSymbols(out)
    ensures var e := out + Repeat('=', PadCount(|out|));
      |e| % 8 == 0 && |out| <= |e| < |out| + 8 &&
      (forall i :: 0 <= i < |out| ==> InAlphabet(e[i])) &&
      (forall i :: |out| <= i < |e| ==> e[i] == '=')
  {
  }

  // ---------------------------------------------------------------------
  // Round trip
  // ---------------------------------------------------------------------

  /** The bits the decoder rebuilds from the symbols: the encoder's bits,
      with the zeros it padded the last chunk with. */
  function PaddedBits(bits: seq<bool>): (r: seq<bool>)
    ensures |r| == 5 * ((|bits| + 4) / 5)
  {
    bits + Zeros(5 * ((|bits| + 4) / 5) - |bits|)
  }

  lemma PaddedChunk(bits: seq<bool>, j: nat)
    requires j < (|bits| + 4) / 5
    ensures Chunk(bits, 5 * j) == PaddedBits(bits)[5 * j..5 * j + 5]
  {
    var q := PaddedBits(bits);
    var p := Chunk(bits, 5 * j);
    forall t | 0 <= t < 5
      ensures p[t] == q[5 * j + t]
    {
      if 5 * j + t < |bits| {
        assert p[t] == bits[5 * j + t];
      }
    }
  }

  /** Each symbol gives back its chunk's five bits. */
  lemma SymbolBits(bits: seq<bool>, j: nat)
    requires j < (|bits| + 4) / 5
    ensures CharBits(SymbolAt(bits, 5 * j)) == PaddedBits(bits)[5 * j..5 * j + 5]
  {
    var p := Chunk(bits, 5 * j);
    PaddedChunk(bits, j);
    BinaryValueBound(p);
    assert Pow2(5) == 32;
    AlphabetSymbols();
    SymbolIndex(BinaryValue(p));
    ValueText(p);
  }

  /** Reading characters that each give back five bits of `q` rebuilds the
      matching prefix of `q`. */
  lemma {:induction false} CharsBits(out: string, q: seq<bool>, k: nat)
    requires k <= |out| && 5 * k <= |q|
    requires forall j :: 0 <= j < k ==> CharBits(out[j]) == q[5 * j..5 * j + 5]
    ensures BitsOfChars(out[..k]) == q[..5 * k]
    decreases k
  {
    if k > 0 {
      CharsBits(out, q, k - 1);
      BitsOfCharsSnoc(out, k - 1);
      PrefixSplit(q, 5 * (k - 1), 5 * k);
    } else {
      assert out[..0] == [];
    }
  }

  lemma SymbolsBits(bits: seq<bool>)
    ensures BitsOfChars(Symbols(bits)) == PaddedBits(bits)
  {
    var out := Symbols(bits);
    var q := PaddedBits(bits);
    forall j | 0 <= j < |out|
      ensures CharBits(out[j]) == q[5 * j..5 * j + 5]
    {
      SymbolBits(bits, j);
    }
    CharsBits(out, q, |out|);
    assert out[..|out|] == out;
    assert q[..5 * |out|] == q;
  }

  lemma PrefixSplit<T>(q: seq<T>, i: nat, j: nat)
    requires i <= j <= |q|
    ensures q[..j] == q[..i] + q[i..j]
  {
  }

  lemma {:induction false} ByteBitsAt(bs: seq<Byte>, j: nat)
    requires j < |bs|
    ensures ByteBits(bs)[8 * j..8 * j + 8] == BitText(bs[j], 8)
    decreases |bs|
  {
    var n := |bs|;
    var init := bs[..n - 1];
    assert ByteBits(bs) == ByteBits(init) + BitText(bs[n - 1], 8);
    if j < n - 1 {
      ByteBitsAt(init, j);
      assert ByteBits(bs)[8 * j..8 * j + 8] == ByteBits(init)[8 * j..8 * j + 8];
    }
  }

  /** The decoder's byte loop over the padded bits gives back every byte. */
  lemma PaddedBytes(bs: seq<Byte>)
    ensures BytesOfBits(PaddedBits(ByteBits(bs))) == bs
  {
    var bits := ByteBits(bs);
    var q := PaddedBits(bits);
    var r := BytesOfBits(q);
    DivEight(|q|, |bs|);
    forall j | 0 <= j < |bs|
      ensures r[j] == bs[j]
    {
      assert q[8 * j..8 * j + 8] == bits[8 * j..8 * j + 8];
      ByteBitsAt(bs, j);
      assert Pow2(8) == 256;
      BitTextValue(bs[j], 8);
    }
  }

  /** Stripping removes exactly the added "=" padding. */
  lemma {:induction false} StripPadding(out: string, k: nat)
    requires out == [] || out[|out| - 1] != '='
    ensures StripTrailingPad(out + Repeat('=', k)) == out
    decreases k
  {
    if k > 0 {
      assert (out + Repeat('=', k))[..|out| + k - 1] == out + Repeat('=', k - 1);
      StripPadding(out, k - 1);
    } else {
      assert out + Repeat('=', 0) == out;
    }
  }

  /** Symbols followed by "=" padding are read back as the symbols. */
  lemma CleanPadded(out: string, k: nat)
    requires AllSymbols(out)
    ensures Clean(Some(out + Repeat('=', k))) == out
  {
    StripPadding(out, k);
    assert Upper(out) == out;
    RemoveSpacesNoop(out);
  }

  /** Decoding a generated secret gives back the secret's bytes. */
  lemma RoundTrip(bs: seq<Byte>)
    ensures Decode(Some(Encode(bs))) == bs
  {
    var bits := ByteBits(bs);
    var out := Symbols(bits);
    SymbolsInAlphabet(bits);
    CleanPadded(out, PadCount(|out|));
    SymbolsBits(bits);
    PaddedBytes(bs);
  }
}
