// The Base32 codec of the two-factor secrets: encoder and decoder with 32-bit accumulators,
// the normaliser in front of the decoder and the grouped form shown for manual entry.
// JavaScript's `<<` wraps at 32 bits and `>>>` reads the result as unsigned, so both accumulators
// are kept modulo 2^32. The operand of `|` only fills bits that the shift before it cleared, so
// `|` is an addition.
module Base32 {
  import opened Text

  const ALPHABET: string := "ABCDEFGHIJKLMNOPQRSTUVWXYZ234567"

  const WORD: nat := 0x1_0000_0000

  type Byte = x: nat | x < 256 witness 0

  // ---------- 32-bit words ----------

  function Pow2(n: nat): (p: nat)
    ensures p > 0
  {
    if n == 0 then 1 else 2 * Pow2(n - 1)
  }

  // `v << n` read as unsigned.
  function ShiftLeft(v: nat, n: nat): nat
    decreases n
  {
    if n == 0 then v else ShiftLeft((2 * v) % WORD, n - 1)
  }

  // `v >>> n`.
  function ShiftRight(v: nat, n: nat): nat
    decreases n
  {
    if n == 0 then v else ShiftRight(v / 2, n - 1)
  }

  // ---------- Bit strings ----------

  // The n low bits of x, most significant first.
  function Bits(x: nat, n: nat): (b: seq<bool>)
    ensures |b| == n
  {
    if n == 0 then [] else Bits(x / 2, n - 1) + [x % 2 == 1]
  }

  function ByteBits(bytes: seq<Byte>): (b: seq<bool>)
    ensures |b| == 8 * |bytes|
  {
    if bytes == [] then [] else ByteBits(bytes[..|bytes| - 1]) + Bits(bytes[|bytes| - 1], 8)
  }

  function Zeros(n: nat): seq<bool> {
    seq(n, _ => false)
  }

  predicate IsSymbol(c: char) {
    'A' <= c <= 'Z' || '2' <= c <= '7'
  }

  predicate IsText(s: string) {
    forall i :: 0 <= i < |s| ==> IsSymbol(s[i])
  }

  // The value of a symbol in the table of section 6 of RFC 4648.
  function SymbolValue(c: char): (v: nat)
    requires IsSymbol(c)
    ensures v < 32
  {
    if c <= '7' then (c - '2') as nat + 26 else (c - 'A') as nat
  }

  function TextBits(s: string): (b: seq<bool>)
    requires IsText(s)
    ensures |b| == 5 * |s|
  {
    if s == [] then [] else TextBits(s[..|s| - 1]) + Bits(SymbolValue(s[|s| - 1]), 5)
  }

  // `text` is the unpadded Base32 form of `bytes`: the bit string of the bytes, filled up with
  // fewer than five zero bits to whole symbols.
  ghost predicate Encodes(text: string, bytes: seq<Byte>) {
    && IsText(text)
    && 0 <= 5 * |text| - 8 * |bytes| < 5
    && TextBits(text) == ByteBits(bytes) + Zeros(5 * |text| - 8 * |bytes|)
  }

  // `bytes` are the whole bytes of the bit string of `text`; fewer than eight bits are dropped.
  ghost predicate Decodes(bytes: seq<Byte>, text: string) {
    && IsText(text)
    && 0 <= 5 * |text| - 8 * |bytes| < 8
    && ByteBits(bytes) == TextBits(text)[..8 * |bytes|]
  }

  // ---------- Arithmetic of bit strings ----------

  // Splitting a number at bit k splits its bit string.
  lemma {:induction false} BitsSplit(x: nat, n: nat, k: nat)
    ensures Bits(x, n + k) == Bits(ShiftRight(x, k), n) + Bits(x, k)
  {
    if k > 0 {
      BitsSplit(x / 2, n, k - 1);
    }
  }

  // Multiples of 2^m do not reach the low n bits.
  lemma {:induction false} BitsAddMultiple(q: nat, r: nat, m: nat, n: nat)
    requires n <= m
    ensures Bits(q * Pow2(m) + r, n) == Bits(r, n)
  {
    if n > 0 {
      var z := q * Pow2(m - 1);
      assert q * Pow2(m) == 2 * z;
      assert (2 * z + r) / 2 == z + r / 2 && (2 * z + r) % 2 == r % 2;
      BitsAddMultiple(q, r / 2, m - 1, n - 1);
    }
  }

  // Keeping the low m bits, by a mask or by the wrap-around of the word.
  lemma BitsMasked(x: nat, d: nat, m: nat, n: nat)
    requires d == Pow2(m) && n <= m
    ensures Bits(x % d, n) == Bits(x, n)
  {
    hide Bits, Pow2;
    BitsAddMultiple(x / d, x % d, m, n);
  }

  lemma WordIsPow2()
    ensures Pow2(32) == WORD
  {
    Pow2Byte(0);
    Pow2Byte(8);
    Pow2Byte(16);
    Pow2Byte(24);
  }

  lemma Pow2Byte(n: nat)
    ensures Pow2(n + 8) == 256 * Pow2(n)
  {
    assert Pow2(n + 4) == 2 * Pow2(n + 3) && Pow2(n + 2) == 2 * Pow2(n + 1);
    assert Pow2(n + 8) == 2 * Pow2(n + 7) && Pow2(n + 6) == 2 * Pow2(n + 5);
  }

  lemma BitsDouble(v: nat, n: nat)
    ensures Bits(2 * v, n + 1) == Bits(v, n) + [false]
  {
  }

  // A left shift appends zero bits to the low n bits, as long as they stay within the word.
  lemma {:induction false} BitsShiftLeft(v: nat, n: nat, k: nat)
    requires n + k <= 32
    ensures Bits(ShiftLeft(v, k), n + k) == Bits(v, n) + Zeros(k)
    decreases k
  {
    hide Bits, Pow2;
    if k > 0 {
      BitsShiftLeft((2 * v) % WORD, n + 1, k - 1);
      WordIsPow2();
      BitsMasked(2 * v, WORD, 32, n + 1);
      BitsDouble(v, n);
      assert Zeros(k) == [false] + Zeros(k - 1);
      JoinBits(Bits(v, n), [false], Zeros(k - 1));
    }
  }

  // Filling cleared low bits.
  lemma {:induction false} BitsAddLow(x: nat, y: nat, n: nat, k: nat, high: seq<bool>)
    requires y < Pow2(k)
    requires Bits(x, n + k) == high + Zeros(k)
    ensures Bits(x + y, n + k) == high + Bits(y, k)
  {
    if k > 0 {
      assert Zeros(k) == Zeros(k - 1) + [false];
      JoinBits(high, Zeros(k - 1), [false]);
      var b := Bits(x, n + k);
      assert b[..n + k - 1] == Bits(x / 2, n + k - 1) && b[n + k - 1] == (x % 2 == 1);
      assert (x + y) / 2 == x / 2 + y / 2 && (x + y) % 2 == y % 2;
      BitsAddLow(x / 2, y / 2, n, k - 1, high);
      JoinBits(high, Bits(y / 2, k - 1), [y % 2 == 1]);
    }
  }

  // Shifting k new bits into the accumulator appends them to its low n bits.
  lemma ShiftInBits(v: nat, n: nat, x: nat, k: nat)
    requires n + k <= 32 && x < Pow2(k)
    ensures Bits(ShiftLeft(v, k) + x, n + k) == Bits(v, n) + Bits(x, k)
  {
    BitsShiftLeft(v, n, k);
    BitsAddLow(ShiftLeft(v, k), x, n, k, Bits(v, n));
  }

  lemma JoinBits(done: seq<bool>, rest: seq<bool>, next: seq<bool>)
    ensures done + (rest + next) == (done + rest) + next
  {
  }

  lemma {:induction false} BitsInjective(x: nat, y: nat, n: nat)
    requires x < Pow2(n) && y < Pow2(n)
    requires Bits(x, n) == Bits(y, n)
    ensures x == y
  {
    if n > 0 {
      var bx, by_ := Bits(x, n), Bits(y, n);
      assert bx[..n - 1] == Bits(x / 2, n - 1) && bx[n - 1] == (x % 2 == 1);
      assert by_[..n - 1] == Bits(y / 2, n - 1) && by_[n - 1] == (y % 2 == 1);
      BitsInjective(x / 2, y / 2, n - 1);
    }
  }

  lemma {:induction false} ByteBitsInjective(a: seq<Byte>, b: seq<Byte>)
    requires |a| == |b| && ByteBits(a) == ByteBits(b)
    ensures a == b
  {
    if a != [] {
      var n := |a| - 1;
      assert ByteBits(a)[..8 * n] == ByteBits(a[..n]) && ByteBits(a)[8 * n..] == Bits(a[n], 8);
      assert ByteBits(b)[..8 * n] == ByteBits(b[..n]) && ByteBits(b)[8 * n..] == Bits(b[n], 8);
      ByteBitsInjective(a[..n], b[..n]);
      assert Pow2(8) == 256;
      BitsInjective(a[n], b[n], 8);
      assert a == a[..n] + [a[n]] && b == b[..n] + [b[n]];
    }
  }

  lemma TextBitsSplit(s: string)
    requires IsText(s) && s != ""
    ensures var n := |s| - 1;
      IsText(s[..n]) && TextBits(s)[..5 * n] == TextBits(s[..n]) && TextBits(s)[5 * n..] == Bits(SymbolValue(s[n]), 5)
  {
  }

  lemma {:induction false} TextBitsInjective(s: string, t: string)
    requires IsText(s) && IsText(t)
    requires |s| == |t| && TextBits(s) == TextBits(t)
    ensures s == t
  {
    if s != [] {
      hide TextBits, Bits;
      var n := |s| - 1;
      TextBitsSplit(s);
      TextBitsSplit(t);
      TextBitsInjective(s[..n], t[..n]);
      assert Pow2(5) == 32;
      BitsInjective(SymbolValue(s[n]), SymbolValue(t[n]), 5);
      assert s == s[..n] + [s[n]] && t == t[..n] + [t[n]];
    }
  }

  // ---------- The codec ----------

  lemma AlphabetSymbol(i: nat)
    requires i < 32
    ensures |ALPHABET| == 32 && IsSymbol(ALPHABET[i]) && SymbolValue(ALPHABET[i]) == i
  {
  }

  lemma AppendByte(bytes: seq<Byte>, byte: Byte)
    ensures ByteBits(bytes + [byte]) == ByteBits(bytes) + Bits(byte, 8)
  {
    assert (bytes + [byte])[..|bytes|] == bytes;
  }

  lemma AppendSymbol(text: string, c: char)
    requires IsText(text) && IsSymbol(c)
    ensures IsText(text + [c]) && TextBits(text + [c]) == TextBits(text) + Bits(SymbolValue(c), 5)
  {
    assert (text + [c])[..|text|] == text;
  }

  // Reading the next byte into the accumulator extends the stream by its eight bits.
  lemma PushByte(output: string, value: nat, bits: nat, buffer: seq<Byte>, i: nat)
    requires IsText(output) && bits < 5 && i < |buffer|
    requires TextBits(output) + Bits(value, bits) == ByteBits(buffer[..i])
    ensures TextBits(output) + Bits(ShiftLeft(value, 8) + buffer[i], bits + 8) == ByteBits(buffer[..i + 1])
  {
    hide Bits, TextBits, ByteBits, ShiftLeft;
    ShiftInBits(value, bits, buffer[i], 8);
    assert buffer[..i + 1] == buffer[..i] + [buffer[i]];
    AppendByte(buffer[..i], buffer[i]);
    JoinBits(TextBits(output), Bits(value, bits), Bits(buffer[i], 8));
  }

  // The top five bits of the accumulator and the rest of it.
  lemma SplitSymbol(value: nat, bits: nat)
    requires bits >= 5
    ensures Bits(value, bits) == Bits(ShiftRight(value, bits - 5) % 32, 5) + Bits(value, bits - 5)
  {
    BitsSplit(value, 5, bits - 5);
    BitsMasked(ShiftRight(value, bits - 5), 32, 5, 5);
  }

  // Emitting the top five bits moves them from the accumulator to the text.
  lemma EmitSymbol(output: string, value: nat, bits: nat)
    requires IsText(output) && bits >= 5
    ensures |ALPHABET| == 32
    ensures var text := output + [ALPHABET[ShiftRight(value, bits - 5) % 32]];
            IsText(text) && TextBits(text) + Bits(value, bits - 5) == TextBits(output) + Bits(value, bits)
  {
    SplitSymbol(value, bits);
    var v := ShiftRight(value, bits - 5) % 32;
    AlphabetSymbol(v);
    AppendSymbol(output, ALPHABET[v]);
    JoinBits(TextBits(output), Bits(v, 5), Bits(value, bits - 5));
  }

  // The last symbol is filled up with zero bits.
  lemma EmitLast(output: string, value: nat, bits: nat)
    requires IsText(output) && 0 < bits < 5
    ensures |ALPHABET| == 32
    ensures var text := output + [ALPHABET[ShiftLeft(value, 5 - bits) % 32]];
            IsText(text) && TextBits(text) == TextBits(output) + Bits(value, bits) + Zeros(5 - bits)
  {
    hide Bits, ShiftLeft, TextBits;
    var v := ShiftLeft(value, 5 - bits);
    BitsShiftLeft(value, bits, 5 - bits);
    BitsMasked(v, 32, 5, 5);
    AlphabetSymbol(v % 32);
    AppendSymbol(output, ALPHABET[v % 32]);
    JoinBits(TextBits(output), Bits(value, bits), Zeros(5 - bits));
  }

  lemma FinishEncoding(output: string, value: nat, bits: nat, buffer: seq<Byte>)
    requires IsText(output) && bits < 5
    requires TextBits(output) + Bits(value, bits) == ByteBits(buffer)
    ensures |ALPHABET| == 32
    ensures bits == 0 ==> Encodes(output, buffer)
    ensures bits > 0 ==> Encodes(output + [ALPHABET[ShiftLeft(value, 5 - bits) % 32]], buffer)
  {
    assert 5 * |output| + bits == |TextBits(output) + Bits(value, bits)| == 8 * |buffer|;
    if bits > 0 {
      EmitLast(output, value, bits);
    }
  }

  lemma EmptyStream()
    ensures TextBits("") + Bits(0, 0) == ByteBits([]) && ByteBits([]) + Bits(0, 0) == TextBits("")
  {
  }

  method Encode(buffer: seq<Byte>) returns (output: string)
    ensures Encodes(output, buffer)
  {
    hide Bits, ShiftLeft, ShiftRight, TextBits, ByteBits, Encodes;
    EmptyStream();
    var bits: nat, value: nat := 0, 0;
    output := "";
    for i := 0 to |buffer|
      invariant bits < 5 && IsText(output)
      invariant TextBits(output) + Bits(value, bits) == ByteBits(buffer[..i])
    {
      PushByte(output, value, bits, buffer, i);
      value := ShiftLeft(value, 8) + buffer[i];
      bits := bits + 8;
      while bits >= 5
        invariant IsText(output)
        invariant TextBits(output) + Bits(value, bits) == ByteBits(buffer[..i + 1])
      {
        EmitSymbol(output, value, bits);
        output := output + [ALPHABET[ShiftRight(value, bits - 5) % 32]];
        bits := bits - 5;
      }
    }
    assert buffer[..|buffer|] == buffer;
    FinishEncoding(output, value, bits, buffer);
    if bits > 0 {
      output := output + [ALPHABET[ShiftLeft(value, 5 - bits) % 32]];
    }
  }

  function ToUpper(c: char): char {
    if 'a' <= c <= 'z' then c - 'a' + 'A' else c
  }

  // Upper-cases and keeps only the symbols of the alphabet.
  function Normalize(value: string): (s: string)
    ensures IsText(s)
  {
    if value == "" then ""
    else
      var c := ToUpper(value[0]);
      (if IsSymbol(c) then [c] else "") + Normalize(value[1..])
  }

  lemma AlphabetIndex(c: char)
    requires IsSymbol(c)
    ensures |ALPHABET| == 32 && ALPHABET[SymbolValue(c)] == c
  {
  }

  method IndexOf(c: char) returns (index: int)
    ensures index == if IsSymbol(c) then SymbolValue(c) else -1
  {
    for i := 0 to |ALPHABET|
      invariant forall j :: 0 <= j < i ==> ALPHABET[j] != c
    {
      if ALPHABET[i] == c {
        AlphabetSymbol(i);
        return i;
      }
    }
    index := -1;
    assert !IsSymbol(c) by {
      if IsSymbol(c) {
        AlphabetIndex(c);
      }
    }
  }

  // Reading the next symbol into the accumulator extends the stream by its five bits.
  lemma PushSymbol(bytes: seq<Byte>, buffer: nat, bits: nat, text: string, i: nat)
    requires IsText(text) && bits < 8 && i < |text|
    requires ByteBits(bytes) + Bits(buffer, bits) == TextBits(text[..i])
    ensures ByteBits(bytes) + Bits(ShiftLeft(buffer, 5) + SymbolValue(text[i]), bits + 5) == TextBits(text[..i + 1])
  {
    hide Bits, TextBits, ByteBits, ShiftLeft;
    var v := SymbolValue(text[i]);
    ShiftInBits(buffer, bits, v, 5);
    assert text[..i + 1] == text[..i] + [text[i]];
    AppendSymbol(text[..i], text[i]);
    JoinBits(ByteBits(bytes), Bits(buffer, bits), Bits(v, 5));
  }

  // The top eight bits of the accumulator and the rest of it.
  lemma SplitByte(buffer: nat, bits: nat)
    requires bits >= 8
    ensures Bits(buffer, bits) == Bits(ShiftRight(buffer, bits - 8) % 256, 8) + Bits(buffer, bits - 8)
  {
    BitsSplit(buffer, 8, bits - 8);
    BitsMasked(ShiftRight(buffer, bits - 8), 256, 8, 8);
  }

  // Emitting the top eight bits moves them from the accumulator to the bytes.
  lemma EmitByte(bytes: seq<Byte>, buffer: nat, bits: nat)
    requires bits >= 8
    ensures ByteBits(bytes + [ShiftRight(buffer, bits - 8) % 256]) + Bits(buffer, bits - 8)
         == ByteBits(bytes) + Bits(buffer, bits)
  {
    SplitByte(buffer, bits);
    var v := ShiftRight(buffer, bits - 8) % 256;
    AppendByte(bytes, v);
    JoinBits(ByteBits(bytes), Bits(v, 8), Bits(buffer, bits - 8));
  }

  lemma FinishDecoding(bytes: seq<Byte>, buffer: nat, bits: nat, text: string)
    requires IsText(text) && bits < 8
    requires ByteBits(bytes) + Bits(buffer, bits) == TextBits(text)
    ensures Decodes(bytes, text)
  {
    assert 8 * |bytes| + bits == |ByteBits(bytes) + Bits(buffer, bits)| == 5 * |text|;
  }

  method Decode(value: string) returns (bytes: seq<Byte>)
    ensures Decodes(bytes, Normalize(value))
  {
    hide Bits, ShiftLeft, ShiftRight, TextBits, ByteBits, Decodes;
    EmptyStream();
    var normalized := Normalize(value);
    var bits: nat, buffer: nat := 0, 0;
    bytes := [];
    for i := 0 to |normalized|
      invariant bits < 8
      invariant ByteBits(bytes) + Bits(buffer, bits) == TextBits(normalized[..i])
    {
      var index := IndexOf(normalized[i]);
      if index == -1 {
        continue;
      }
      PushSymbol(bytes, buffer, bits, normalized, i);
      buffer, bits := ShiftLeft(buffer, 5) + index, bits + 5;
      assert ByteBits(bytes) + Bits(buffer, bits) == TextBits(normalized[..i + 1]);
      if bits >= 8 {
        EmitByte(bytes, buffer, bits);
        var byte: Byte := ShiftRight(buffer, bits - 8) % 256;
        bytes := bytes + [byte];
        bits := bits - 8;
      }
    }
    assert normalized[..|normalized|] == normalized;
    FinishDecoding(bytes, buffer, bits, normalized);
  }

  // ---------- Round trips ----------

  lemma EncodingIsUnique(bytes: seq<Byte>, s: string, t: string)
    requires Encodes(s, bytes) && Encodes(t, bytes)
    ensures s == t
  {
    TextBitsInjective(s, t);
  }

  // Every byte sequence survives encoding and decoding, whatever is dropped at the end.
  lemma DecodeInvertsEncode(bytes: seq<Byte>, text: string, decoded: seq<Byte>)
    requires Encodes(text, bytes) && Decodes(decoded, text)
    ensures decoded == bytes
  {
    assert ByteBits(decoded) == ByteBits(bytes);
    ByteBitsInjective(decoded, bytes);
  }

  // The other way round the text is only restored when no whole symbol was dropped and the dropped
  // bits are zero; every other text is a second spelling of the same bytes.
  lemma EncodeInvertsDecode(text: string, bytes: seq<Byte>, encoded: string)
    requires Decodes(bytes, text) && Encodes(encoded, bytes)
    ensures encoded == text <==>
            var dropped := TextBits(text)[8 * |bytes|..]; |dropped| < 5 && dropped == Zeros(|dropped|)
  {
    var n := 8 * |bytes|;
    assert TextBits(text) == ByteBits(bytes) + TextBits(text)[n..];
    if encoded == text {
      assert TextBits(encoded)[n..] == Zeros(|TextBits(text)| - n);
    }
    var dropped := TextBits(text)[n..];
    if |dropped| < 5 && dropped == Zeros(|dropped|) {
      assert |encoded| == |text|;
      TextBitsInjective(encoded, text);
    }
  }

  // Texts that are not restored: one symbol holds no whole byte, and no byte gives the empty text.
  lemma OneSymbolIsLost(c: char, bytes: seq<Byte>)
    requires IsSymbol(c)
    ensures Decodes([], [c]) && Encodes("", []) && !Encodes([c], bytes)
  {
    EmptyStream();
    var text := [c];
    assert TextBits(text)[..0] == [];
    assert Zeros(0) == [];
  }

  // ---------- Manual entry ----------

  // The two texts differ at most in the case of ASCII letters.
  predicate SameButCase(s: string, t: string) {
    |s| == |t| && forall i :: 0 <= i < |s| ==> t[i] == s[i] || ('A' <= s[i] <= 'Z' && t[i] == s[i] - 'A' + 'a')
  }

  lemma {:induction false} NormalizeIgnoresCase(s: string, t: string)
    requires SameButCase(s, t)
    ensures Normalize(t) == Normalize(s)
  {
    if s != "" {
      NormalizeIgnoresCase(s[1..], t[1..]);
    }
  }

  // A text typed in lower case, or in any mixture, is decoded to the bytes it is the form of.
  lemma DecodeInvertsEncodeInAnyCase(bytes: seq<Byte>, text: string, typed: string, decoded: seq<Byte>)
    requires Encodes(text, bytes) && SameButCase(text, typed) && Decodes(decoded, Normalize(typed))
    ensures decoded == bytes
  {
    NormalizeIgnoresCase(text, typed);
    NormalizeKeepsText(text);
    DecodeInvertsEncode(bytes, text, decoded);
  }

  function Grouped(s: string): string {
    if |s| < 4 then s else s[..4] + " " + Grouped(s[4..])
  }

  function FormatManualEntryKey(secret: string): string {
    Trim(Grouped(Normalize(secret)))
  }

  lemma {:induction false} NormalizeAppend(s: string, t: string)
    ensures Normalize(s + t) == Normalize(s) + Normalize(t)
  {
    if s == "" {
      assert s + t == t;
    } else {
      hide IsSymbol, ToUpper;
      var c := ToUpper(s[0]);
      assert (s + t)[1..] == s[1..] + t;
      NormalizeAppend(s[1..], t);
      assert Normalize(s) == (if IsSymbol(c) then [c] else "") + Normalize(s[1..]);
      assert Normalize(s + t) == (if IsSymbol(c) then [c] else "") + (Normalize(s[1..]) + Normalize(t));
    }
  }

  lemma {:induction false} NormalizeKeepsText(s: string)
    requires IsText(s)
    ensures Normalize(s) == s
  {
    if s != "" {
      NormalizeKeepsText(s[1..]);
    }
  }

  lemma {:induction false} NormalizeGrouped(s: string)
    requires IsText(s)
    ensures Normalize(Grouped(s)) == s
  {
    if |s| < 4 {
      NormalizeKeepsText(s);
    } else {
      NormalizeGrouped(s[4..]);
      NormalizeKeepsText(s[..4]);
      NormalizeAppend(s[..4] + " ", Grouped(s[4..]));
      NormalizeAppend(s[..4], " ");
      assert Normalize(" ") == "";
    }
  }

  lemma BlankIsDropped(c: char)
    requires IsBlank(c)
    ensures !IsSymbol(ToUpper(c)) && Normalize([c]) == ""
  {
    assert [c][1..] == "";
  }

  lemma {:induction false} NormalizeTrimEnd(s: string)
    ensures Normalize(TrimEnd(s)) == Normalize(s)
  {
    if s != "" && IsBlank(s[|s| - 1]) {
      var t, blank := s[..|s| - 1], s[|s| - 1];
      assert s == t + [blank];
      NormalizeAppend(t, [blank]);
      BlankIsDropped(blank);
      NormalizeTrimEnd(t);
    }
  }

  lemma {:induction false} NormalizeTrimStart(s: string)
    ensures Normalize(TrimStart(s)) == Normalize(s)
  {
    if s != "" && IsBlank(s[0]) {
      BlankIsDropped(s[0]);
      NormalizeTrimStart(s[1..]);
    }
  }

  lemma ManualEntryKeepsSecret(secret: string)
    ensures Normalize(FormatManualEntryKey(secret)) == Normalize(secret)
  {
    var s := Normalize(secret);
    NormalizeTrimStart(TrimEnd(Grouped(s)));
    NormalizeTrimEnd(Grouped(s));
    NormalizeGrouped(s);
  }

  // The key a user types back from the settings page, in groups or not, is the generated secret.
  lemma ManualEntryRoundTrip(secret: seq<Byte>, text: string, decoded: seq<Byte>)
    requires Encodes(text, secret)
    requires Decodes(decoded, Normalize(FormatManualEntryKey(text)))
    ensures decoded == secret
  {
    ManualEntryKeepsSecret(text);
    NormalizeKeepsText(text);
    DecodeInvertsEncode(secret, text, decoded);
  }
}
