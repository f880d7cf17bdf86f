/**
 * Base32 (section 6 of RFC 4648) as the server computes it: a 32-bit accumulator that
 * is shifted left and never masked. `Encoded` and `Decoded` say what base32 is, as one
 * stream of bits cut into groups of five or of eight; the two methods are the loops, and
 * are proved to compute exactly that whatever falls off the top of the accumulator.
 */
module Base32 {
  import opened Common

  type Byte = b: int | 0 <= b < 256

  /** Bitwise operators work on 32 bits: whatever is shifted past them is lost. */
  const WORD: nat := 0x1_0000_0000

  function Pow2(k: nat): (p: nat)
    ensures p > 0
  {
    if k == 0 then 1 else 2 * Pow2(k - 1)
  }

  /** `v << k`, one place at a time: what leaves the word is lost. */
  function Shl(v: nat, k: nat): nat
    decreases k
  {
    if k == 0 then v else Shl((2 * v) % WORD, k - 1)
  }

  /** `v >>> k`, one place at a time. */
  function Shr(v: nat, k: nat): nat {
    if k == 0 then v else Shr(v / 2, k - 1)
  }

  /** The low `n` bits of `v`, highest first. */
  function Bits(v: nat, n: nat): (bits: seq<bool>)
    ensures |bits| == n
  {
    if n == 0 then [] else Bits(v / 2, n - 1) + [v % 2 == 1]
  }

  function Zeros(n: nat): (bits: seq<bool>)
    ensures |bits| == n
  {
    seq(n, i => false)
  }

  /** `v | c`, for operands that share no bit: `v` ends in `k` zeros. */
  function Or(v: nat, c: nat, k: nat): nat
    requires Bits(v, k) == Zeros(k) && c < Pow2(k)
  {
    v + c
  }

  /** The number that `n` bits write, from position `start` on. */
  function Number(bits: seq<bool>, start: nat, n: nat): (v: nat)
    requires start + n <= |bits|
    ensures v < Pow2(n)
  {
    if n == 0 then 0 else 2 * Number(bits, start, n - 1) + if bits[start + n - 1] then 1 else 0
  }

  // ---------------------------------------------------------------- the alphabet

  /** Entry `i` of the alphabet A-Z, 2-7. */
  function SymbolOf(i: nat): char
    requires i < 32
  {
    if i < 26 then ('A' as int + i) as char else ('2' as int + i - 26) as char
  }

  /** Where `c` stands in the alphabet, or -1. */
  function IndexOf(c: char): (i: int)
    ensures -1 <= i < 32
    ensures i >= 0 ==> SymbolOf(i) == c
  {
    if 'A' <= c <= 'Z' then c as int - 'A' as int
    else if '2' <= c <= '7' then c as int - '2' as int + 26
    else -1
  }

  lemma IndexOfSymbol(i: nat)
    requires i < 32
    ensures IndexOf(SymbolOf(i)) == i
  {
  }

  /** The alphabet of the standard, spelled out eight letters at a time. */
  lemma AlphabetSpelled(i: nat)
    requires i < 8
    ensures "ABCDEFGH"[i] == SymbolOf(i) && "IJKLMNOP"[i] == SymbolOf(8 + i)
    ensures "QRSTUVWX"[i] == SymbolOf(16 + i) && "YZ234567"[i] == SymbolOf(24 + i)
  {
    match i
    case 0 => case 1 => case 2 => case 3 => case 4 => case 5 => case 6 => case 7 =>
  }

  /** What `\s` matches. */
  predicate IsSpace(c: char) {
    || '\t' <= c <= '\r' || c == ' ' || c == '\U{A0}' || c == '\U{1680}' || '\U{2000}' <= c <= '\U{200A}'
    || c == '\U{2028}' || c == '\U{2029}' || c == '\U{202F}' || c == '\U{205F}' || c == '\U{3000}' || c == '\U{FEFF}'
  }

  /** The same by code point. */
  lemma SpacesSpelled(c: char)
    ensures IsSpace(c) <==> c as int in {9, 10, 11, 12, 13, 32, 160, 5760, 8192, 8193, 8194, 8195, 8196, 8197, 8198, 8199,
                                         8200, 8201, 8202, 8232, 8233, 8239, 8287, 12288, 65279}
  {
  }

  predicate Ignored(c: char) { IsSpace(c) || c == '=' }

  /** Spaces and padding dropped, the rest upper-cased. */
  function Clean(input: string): string {
    if input == [] then []
    else if Ignored(input[0]) then Clean(input[1..])
    else [UpperChar(input[0])] + Clean(input[1..])
  }

  // ---------------------------------------------------------------- what base32 is

  /** A group is a symbol of five bits or a byte of eight. */
  type Width = w: nat | w == 5 || w == 8 witness 5

  /** How many bits `n` groups make. */
  function Span(n: nat, w: Width): nat { if w == 5 then 5 * n else 8 * n }

  function Limit(w: Width): nat { if w == 5 then 32 else 256 }

  lemma LimitIsPow2(w: Width)
    ensures Limit(w) == Pow2(w)
  {
    assert Pow2(4) == 16 && Pow2(7) == 128;
  }

  predicate Fit(groups: seq<nat>, w: Width) {
    forall i | 0 <= i < |groups| :: groups[i] < Limit(w)
  }

  /** The bits of the first `n` groups, one group after the other. */
  function Leading(groups: seq<nat>, n: nat, w: Width): (bits: seq<bool>)
    requires n <= |groups|
    ensures |bits| == Span(n, w)
  {
    if n == 0 then [] else Leading(groups, n - 1, w) + Bits(groups[n - 1], w)
  }

  function Stream(groups: seq<nat>, w: Width): seq<bool> {
    Leading(groups, |groups|, w)
  }

  /** The first `n` groups of a stream of bits. */
  function Cut(bits: seq<bool>, n: nat, w: Width): (groups: seq<nat>)
    requires Span(n, w) <= |bits|
    ensures |groups| == n && Fit(groups, w)
    decreases n
  {
    LimitIsPow2(w);
    if n == 0 then [] else Cut(bits, n - 1, w) + [Number(bits, Span(n - 1, w), w)]
  }

  /** Symbols needed for `n` bytes. */
  function SymbolCount(n: nat): nat { (8 * n + 4) / 5 }

  /** How many zero bits complete the last group of five. */
  function Padding(n: nat): (p: nat)
    ensures p < 5
  {
    5 * SymbolCount(n) - 8 * n
  }

  /** Whole bytes in so many symbols. */
  function ByteCount(symbols: nat): nat { 5 * symbols / 8 }

  /** The bits left over when so many symbols are cut into bytes. */
  function Leftover(symbols: nat): (bits: nat)
    ensures bits < 8
  {
    5 * symbols - 8 * ByteCount(symbols)
  }

  predicate Spellable(s: string) {
    forall i | 0 <= i < |s| :: IndexOf(s[i]) >= 0
  }

  function Indices(s: string): (words: seq<nat>)
    requires Spellable(s)
    ensures |words| == |s| && Fit(words, 5)
  {
    seq(|s|, i requires 0 <= i < |s| => IndexOf(s[i]))
  }

  function Symbols(words: seq<nat>): string
    requires Fit(words, 5)
  {
    seq(|words|, i requires 0 <= i < |words| => SymbolOf(words[i]))
  }

  function AsBytes(groups: seq<nat>): seq<Byte>
    requires Fit(groups, 8)
  {
    seq(|groups|, i requires 0 <= i < |groups| => groups[i])
  }

  /** The bytes' bits, filled up with zeros and cut into fives. */
  function Encoded(bytes: seq<Byte>): string {
    Symbols(Cut(Stream(bytes, 8) + Zeros(Padding(|bytes|)), SymbolCount(|bytes|), 5))
  }

  /** The symbols' bits cut into eights; the bits left over are dropped. */
  function DecodedWords(words: seq<nat>): seq<Byte> {
    AsBytes(Cut(Stream(words, 5), ByteCount(|words|), 8))
  }

  function Decoded(input: string): Option<seq<Byte>> {
    var clean := Clean(input);
    if clean == [] || !Spellable(clean) then None else Some(DecodedWords(Indices(clean)))
  }

  // ---------------------------------------------------------------- streams and groups

  lemma {:induction false} NumberOfBits(bits: seq<bool>, start: nat, v: nat, n: nat)
    requires start + n <= |bits| && v < Pow2(n)
    requires bits[start..start + n] == Bits(v, n)
    ensures Number(bits, start, n) == v
  {
    if n > 0 {
      assert bits[start + (n - 1)] == bits[start..start + n][n - 1];
      assert bits[start..start + (n - 1)] == bits[start..start + n][..n - 1];
      NumberOfBits(bits, start, v / 2, n - 1);
    }
  }

  lemma {:induction false} BitsOfNumber(bits: seq<bool>, start: nat, n: nat)
    requires start + n <= |bits|
    ensures Bits(Number(bits, start, n), n) == bits[start..start + n]
  {
    if n > 0 {
      BitsOfNumber(bits, start, n - 1);
      assert Number(bits, start, n) / 2 == Number(bits, start, n - 1);
    }
  }

  lemma {:induction false} SameLeading(a: seq<nat>, b: seq<nat>, n: nat, w: Width)
    requires n <= |a| && n <= |b| && forall i | 0 <= i < n :: a[i] == b[i]
    ensures Leading(a, n, w) == Leading(b, n, w)
  {
    if n > 0 { SameLeading(a, b, n - 1, w); }
  }

  lemma StreamSnoc(groups: seq<nat>, g: nat, w: Width)
    ensures Stream(groups + [g], w) == Stream(groups, w) + Bits(g, w)
  {
    SameLeading(groups + [g], groups, |groups|, w);
  }

  /** Cutting a stream gives the groups it was made of. */
  lemma {:induction false} CutLeading(groups: seq<nat>, n: nat, bits: seq<bool>, w: Width)
    requires n <= |groups| && Fit(groups, w) && Leading(groups, n, w) <= bits
    ensures Cut(bits, n, w) == groups[..n]
  {
    if n > 0 {
      var front := Leading(groups, n - 1, w);
      assert Leading(groups, n, w) == front + Bits(groups[n - 1], w);
      CutLeading(groups, n - 1, bits, w);
      NumberAfter(bits, front, groups[n - 1], w);
    }
  }

  lemma NumberAfter(bits: seq<bool>, front: seq<bool>, g: nat, w: Width)
    requires g < Limit(w) && front + Bits(g, w) <= bits
    ensures Number(bits, |front|, w) == g
  {
    LimitIsPow2(w);
    assert bits[|front|..|front| + w] == Bits(g, w);
    NumberOfBits(bits, |front|, g, w);
  }

  lemma CutStream(groups: seq<nat>, more: seq<bool>, w: Width)
    requires Fit(groups, w)
    ensures Cut(Stream(groups, w) + more, |groups|, w) == groups
  {
    CutLeading(groups, |groups|, Stream(groups, w) + more, w);
  }

  /** The groups cut from a stream make up the part that was cut. */
  lemma {:induction false} StreamCut(bits: seq<bool>, n: nat, w: Width)
    requires Span(n, w) <= |bits|
    ensures Stream(Cut(bits, n, w), w) == bits[..Span(n, w)]
  {
    if n > 0 {
      var front, start := Cut(bits, n - 1, w), Span(n - 1, w);
      StreamCut(bits, n - 1, w);
      StreamNext(bits, front, start, w);
    }
  }

  lemma StreamNext(bits: seq<bool>, front: seq<nat>, start: nat, w: Width)
    requires start + w <= |bits| && Stream(front, w) == bits[..start]
    ensures Stream(front + [Number(bits, start, w)], w) == bits[..start + w]
  {
    StreamSnoc(front, Number(bits, start, w), w);
    BitsOfNumber(bits, start, w);
    assert bits[..start] + bits[start..start + w] == bits[..start + w];
  }

  // ---------------------------------------------------------------- the laws

  lemma SymbolsSpell(words: seq<nat>)
    requires Fit(words, 5)
    ensures Spellable(Symbols(words)) && Indices(Symbols(words)) == words
  {
    forall i | 0 <= i < |words|
      ensures IndexOf(Symbols(words)[i]) == words[i]
    {
      IndexOfSymbol(words[i]);
    }
  }

  lemma SpellingOf(s: string)
    requires Spellable(s)
    ensures Symbols(Indices(s)) == s
  {
  }

  lemma {:induction false} CleanSymbols(s: string)
    requires Spellable(s)
    ensures Clean(s) == s
  {
    if s != [] {
      assert IndexOf(s[0]) >= 0;
      CleanSymbols(s[1..]);
    }
  }

  /** An encoding spells the bytes' own bits, then the padding zeros. */
  lemma EncodedSpells(bytes: seq<Byte>)
    ensures var s := Encoded(bytes);
            && |s| == SymbolCount(|bytes|) && Spellable(s) && Clean(s) == s
            && Stream(Indices(s), 5) == Stream(bytes, 8) + Zeros(Padding(|bytes|))
  {
    var bits := Stream(bytes, 8) + Zeros(Padding(|bytes|));
    var words := Cut(bits, SymbolCount(|bytes|), 5);
    SymbolsSpell(words);
    CleanSymbols(Symbols(words));
    StreamCut(bits, SymbolCount(|bytes|), 5);
    assert bits[..|bits|] == bits;
  }

  lemma BytesFit(bytes: seq<Byte>)
    ensures Fit(bytes, 8) && AsBytes(bytes) == bytes
  {
  }

  lemma CountsMatch(n: nat)
    ensures ByteCount(SymbolCount(n)) == n
  {
  }

  /** Decoding undoes encoding, through any text that cleans to the encoding. */
  lemma DecodeUndoesEncode(bytes: seq<Byte>, typed: string)
    ensures Clean(typed) == Encoded(bytes) ==> Decoded(typed) == if bytes == [] then None else Some(bytes)
  {
    EncodedSpells(bytes);
    BytesFit(bytes);
    CutStream(bytes, Zeros(Padding(|bytes|)), 8);
    CountsMatch(|bytes|);
  }

  /** The round trip is the identity on every secret but the empty one. */
  lemma RoundTrip(bytes: seq<Byte>)
    ensures Decoded(Encoded(bytes)) == Some(bytes) <==> bytes != []
  {
    EncodedSpells(bytes);
    DecodeUndoesEncode(bytes, Encoded(bytes));
  }

  /**
   * Which texts decode: those with something other than spaces and padding in them, and
   * nothing but the letters, large or small, and the digits 2 to 7.
   */
  lemma DecodesIff(input: string)
    ensures Decoded(input).Some?
            <==> && (exists i :: 0 <= i < |input| && !IsSpace(input[i]) && input[i] != '=')
                 && forall i | 0 <= i < |input| :: IsSpace(input[i]) || input[i] == '=' || Legible(input[i])
  {
    CleanSpells(input);
  }

  predicate Legible(c: char) { 'A' <= c <= 'Z' || 'a' <= c <= 'z' || '2' <= c <= '7' }

  lemma {:induction false} CleanSpells(input: string)
    ensures Clean(input) == [] <==> forall i | 0 <= i < |input| :: Ignored(input[i])
    ensures Spellable(Clean(input)) <==> forall i | 0 <= i < |input| :: Ignored(input[i]) || Legible(input[i])
  {
    if input != [] {
      var rest := input[1..];
      CleanSpells(rest);
      assert forall i | 0 < i < |input| :: input[i] == rest[i - 1];
      assert forall i | 0 <= i < |rest| :: rest[i] == input[i + 1];
      if !Ignored(input[0]) {
        assert Clean(input)[0] == UpperChar(input[0]) && Clean(input)[1..] == Clean(rest);
        assert forall i | 0 < i < |Clean(input)| :: Clean(input)[i] == Clean(rest)[i - 1];
        assert forall i | 0 <= i < |Clean(rest)| :: Clean(rest)[i] == Clean(input)[i + 1];
        assert IndexOf(UpperChar(input[0])) >= 0 <==> Legible(input[0]);
      }
    }
  }

  /** `typed` is `s` with letters possibly in lower case and ignorable characters put in. */
  predicate Retyped(typed: string, s: string) {
    if typed == [] then s == []
    else
      || (Ignored(typed[0]) && Retyped(typed[1..], s))
      || (s != [] && !Ignored(typed[0]) && UpperChar(typed[0]) == s[0] && Retyped(typed[1..], s[1..]))
  }

  lemma {:induction false} RetypedCleans(typed: string, s: string)
    requires Retyped(typed, s)
    ensures Clean(typed) == s
  {
    if typed != [] {
      if Ignored(typed[0]) {
        RetypedCleans(typed[1..], s);
      } else {
        RetypedCleans(typed[1..], s[1..]);
      }
    }
  }

  /** However a human retypes a secret, it decodes to the same bytes. */
  lemma RetypedSecretDecodes(bytes: seq<Byte>, typed: string)
    requires bytes != [] && Retyped(typed, Encoded(bytes))
    ensures Decoded(typed) == Some(bytes)
  {
    RetypedCleans(typed, Encoded(bytes));
    DecodeUndoesEncode(bytes, typed);
  }

  /** The bits that decoding drops. */
  function Dropped(words: seq<nat>): seq<bool> {
    Stream(words, 5)[8 * ByteCount(|words|)..]
  }

  /**
   * The other way round is not the identity: what was decoded encodes back to the same
   * symbols exactly when the bits dropped are fewer than five and all zero.
   */
  lemma EncodeUndoesDecodeIffCanonical(input: string)
    requires Decoded(input).Some?
    ensures var words := Indices(Clean(input));
            Encoded(Decoded(input).value) == Clean(input)
            <==> |Dropped(words)| < 5 && Dropped(words) == Zeros(|Dropped(words)|)
  {
    var clean := Clean(input);
    var words := Indices(clean);
    var bytes := DecodedWords(words);
    EncodedSpells(bytes);
    DecodedBits(words);
    Regrouped(|words|);
    if Dropped(words) == Zeros(|Dropped(words)|) && |Dropped(words)| < 5 {
      SameStream(Indices(Encoded(bytes)), words);
      SpellingOf(clean);
      SpellingOf(Encoded(bytes));
    }
  }

  /** What is decoded holds the stream up to the dropped bits. */
  lemma DecodedBits(words: seq<nat>)
    ensures var bytes := DecodedWords(words);
            |bytes| == ByteCount(|words|) && Stream(words, 5) == Stream(bytes, 8) + Dropped(words)
  {
    var n := ByteCount(|words|);
    StreamCut(Stream(words, 5), n, 8);
    var bytes: seq<nat> := DecodedWords(words);
    assert bytes == Cut(Stream(words, 5), n, 8);
  }

  lemma SameStream(a: seq<nat>, b: seq<nat>)
    requires Fit(a, 5)
    requires Fit(b, 5)
    requires |a| == |b| && Stream(a, 5) == Stream(b, 5)
    ensures a == b
  {
    CutStream(a, [], 5);
    CutStream(b, [], 5);
  }

  lemma Regrouped(symbols: nat)
    ensures var n := ByteCount(symbols);
            if Leftover(symbols) < 5 then SymbolCount(n) == symbols && Padding(n) == Leftover(symbols)
            else SymbolCount(n) == symbols - 1
  {
  }

  // ---------------------------------------------------------------- what the operators do to the bits

  /** `q` moved left `k` places without a word to fall out of. */
  function Up(q: nat, k: nat): nat {
    if k == 0 then q else 2 * Up(q, k - 1)
  }

  /** Bits above the ones looked at do not matter. */
  lemma {:induction false} BitsIgnoreHigh(v: nat, q: nat, n: nat, m: nat)
    requires n <= m
    ensures Bits(v + Up(q, m), n) == Bits(v, n)
  {
    if n > 0 {
      BitsIgnoreHigh(v / 2, q, n - 1, m - 1);
      assert (v + Up(q, m)) / 2 == v / 2 + Up(q, m - 1);
    }
  }

  lemma {:induction false} UpUp(q: nat, a: nat, b: nat)
    ensures Up(Up(q, a), b) == Up(q, a + b)
  {
    if b > 0 { UpUp(q, a, b - 1); }
  }

  lemma UpByte(q: nat)
    ensures Up(q, 5) == 32 * q && Up(q, 7) == 128 * q && Up(q, 8) == 256 * q
  {
    assert Up(q, 1) == 2 * q;
    assert Up(q, 2) == 4 * q;
    assert Up(q, 3) == 8 * q;
    assert Up(q, 4) == 16 * q;
    assert Up(q, 6) == 64 * q;
  }

  lemma UpHalfWord(q: nat)
    ensures 2 * Up(q, 31) == WORD * q
  {
    UpByte(q);
    UpByte(Up(q, 8));
    UpUp(q, 8, 8);
    UpByte(Up(q, 16));
    UpUp(q, 16, 8);
    UpByte(Up(q, 24));
    UpUp(q, 24, 7);
  }

  /** The 32-bit wrap takes no bit that is still looked at. */
  lemma ShiftOne(v: nat, n: nat)
    requires n < 32
    ensures Bits((2 * v) % WORD, n + 1) == Bits(v, n) + [false]
  {
    var q, x := (2 * v) / WORD, (2 * v) % WORD;
    UpHalfWord(q);
    BitsIgnoreHigh(x / 2, q, n, 31);
  }

  lemma {:induction false} ShiftedBits(v: nat, n: nat, k: nat)
    requires n + k <= 32
    ensures Bits(Shl(v, k), n + k) == Bits(v, n) + Zeros(k)
    decreases k
  {
    if k > 0 {
      ShiftOne(v, n);
      ShiftedBits((2 * v) % WORD, n + 1, k - 1);
      assert [false] + Zeros(k - 1) == Zeros(k);
      assert Bits(v, n) + [false] + Zeros(k - 1) == Bits(v, n) + ([false] + Zeros(k - 1));
    } else {
      assert Zeros(0) == [];
    }
  }

  lemma {:induction false} AddBits(v: nat, high: seq<bool>, c: nat, k: nat)
    requires Bits(v, |high| + k) == high + Zeros(k) && c < Pow2(k)
    ensures Bits(v + c, |high| + k) == high + Bits(c, k)
    decreases k
  {
    if k > 0 {
      var n := |high| + k - 1;
      var b := Bits(v, n + 1);
      assert b[..n] == Bits(v / 2, n) && b[..n] == high + Zeros(k - 1);
      assert b[n] == (v % 2 == 1) && !b[n];
      AddBits(v / 2, high, c / 2, k - 1);
      assert (v + c) / 2 == v / 2 + c / 2;
    }
  }

  lemma ZeroTail(v: nat, k: nat)
    requires k <= 32
    ensures Bits(Shl(v, k), k) == Zeros(k)
  {
    ShiftedBits(v, 0, k);
  }

  /** Shifting in `k` bits: what falls off the top was never pending. */
  lemma ShiftIn(v: nat, n: nat, c: nat, k: nat)
    requires n + k <= 32 && c < Pow2(k)
    ensures Bits(Shl(v, k), k) == Zeros(k)
    ensures Bits(Or(Shl(v, k), c, k), n + k) == Bits(v, n) + Bits(c, k)
  {
    ZeroTail(v, k);
    ShiftedBits(v, n, k);
    AddBits(Shl(v, k), Bits(v, n), c, k);
  }

  /** The top bits are what a right shift leaves. */
  lemma {:induction false} TakeTop(v: nat, a: nat, b: nat)
    ensures Bits(v, a + b) == Bits(Shr(v, b), a) + Bits(v, b)
  {
    if b > 0 { TakeTop(v / 2, a, b - 1); }
  }

  /** `& 31` keeps the low five bits and `& 0xff` the low eight. */
  lemma Mask(v: nat)
    ensures Bits(v % 32, 5) == Bits(v, 5)
    ensures Bits(v % 256, 8) == Bits(v, 8)
  {
    UpByte(v / 32);
    BitsIgnoreHigh(v % 32, v / 32, 5, 5);
    UpByte(v / 256);
    BitsIgnoreHigh(v % 256, v / 256, 8, 8);
  }

  // ---------------------------------------------------------------- base32 as one number

  /** The number the groups write, the first group the highest: base 32 or base 256. */
  function Total(groups: seq<nat>, w: Width): nat {
    if groups == [] then 0 else Limit(w) * Total(groups[..|groups| - 1], w) + groups[|groups| - 1]
  }

  lemma {:induction false} StreamIsTotal(groups: seq<nat>, w: Width)
    requires Fit(groups, w)
    ensures Stream(groups, w) == Bits(Total(groups, w), Span(|groups|, w))
  {
    if groups != [] {
      var front, g := groups[..|groups| - 1], groups[|groups| - 1];
      StreamIsTotal(front, w);
      StreamSnoc(front, g, w);
      assert front + [g] == groups;
      TotalBits(Total(front, w), Span(|front|, w), g, w);
    }
  }

  lemma TotalBits(high: nat, m: nat, g: nat, w: Width)
    requires g < Limit(w)
    ensures Bits(Limit(w) * high + g, m + w) == Bits(high, m) + Bits(g, w)
  {
    UpByte(high);
    LimitIsPow2(w);
    BitsJoin(high, m, g, w);
  }

  lemma {:induction false} BitsJoin(high: nat, m: nat, low: nat, n: nat)
    requires low < Pow2(n)
    ensures Bits(Up(high, n) + low, m + n) == Bits(high, m) + Bits(low, n)
    decreases n
  {
    if n > 0 {
      BitsJoin(high, m, low / 2, n - 1);
      assert (Up(high, n) + low) / 2 == Up(high, n - 1) + low / 2;
      assert (Up(high, n) + low) % 2 == low % 2;
    }
  }

  /** An encoding is the bytes' number with up to four zero bits behind it, written in base 32. */
  lemma EncodedIsNumber(bytes: seq<Byte>, words: seq<nat>, fill: nat)
    requires Fit(words, 5) && 5 * |words| == 8 * |bytes| + fill && fill < 5
    requires Total(words, 5) == Up(Total(bytes, 8), fill)
    ensures Encoded(bytes) == Symbols(words)
  {
    hide Total, Bits, Encoded, Symbols, Up;
    BytesFit(bytes);
    StreamIsTotal(bytes, 8);
    StreamIsTotal(words, 5);
    assert Span(|bytes|, 8) == 8 * |bytes| && Span(|words|, 5) == 8 * |bytes| + fill;
    BitsJoin(Total(bytes, 8), 8 * |bytes|, 0, fill);
    NoBits(fill);
    EmittedAll(words, bytes, fill);
  }

  lemma NoBits(n: nat)
    ensures Bits(0, n) == Zeros(n) && Pow2(n) > 0
  {
  }

  /** The vector "fooba" of section 10 of RFC 4648. */
  lemma VectorOfTheStandard()
    ensures Encoded([0x66, 0x6f, 0x6f, 0x62, 0x61]) == "MZXW6YTB"
  {
    var bytes: seq<Byte> := [0x66, 0x6f, 0x6f, 0x62, 0x61];
    var words: seq<nat> := [12, 25, 23, 22, 30, 24, 19, 1];
    BytesTotal(bytes);
    WordsTotal(words);
    hide Total, Encoded, Symbols;
    EncodedIsNumber(bytes, words, 0);
    SymbolsOfVector(words);
  }

  lemma SymbolsOfVector(words: seq<nat>)
    requires words == [12, 25, 23, 22, 30, 24, 19, 1]
    ensures Fit(words, 5) && Symbols(words) == "MZXW6YTB"
  {
  }

  lemma BytesTotal(b: seq<nat>)
    requires b == [0x66, 0x6f, 0x6f, 0x62, 0x61]
    ensures Total(b, 8) == 439_956_234_849
  {
    assert b[..4] == [0x66, 0x6f, 0x6f, 0x62] && b[..4][..3] == [0x66, 0x6f, 0x6f];
    assert [0x66, 0x6f, 0x6f][..2] == [0x66, 0x6f] && [0x66, 0x6f][..1] == [0x66] && [0x66][..0] == [];
    assert Total([0x66], 8) == 0x66;
    assert Total([0x66, 0x6f], 8) == 26_223;
    assert Total([0x66, 0x6f, 0x6f], 8) == 6_713_199;
    assert Total([0x66, 0x6f, 0x6f, 0x62], 8) == 1_718_579_042;
  }

  lemma WordsTotal(w: seq<nat>)
    requires w == [12, 25, 23, 22, 30, 24, 19, 1]
    ensures Total(w, 5) == 439_956_234_849
  {
    assert w[..7] == [12, 25, 23, 22, 30, 24, 19] && w[..7][..6] == w[..6] && w[..6][..5] == w[..5] && w[..5][..4] == w[..4];
    assert w[..4][..3] == w[..3] && w[..3][..2] == w[..2] && w[..2][..1] == w[..1] && w[..1][..0] == [];
    assert Total(w[..1], 5) == 12;
    assert Total(w[..2], 5) == 409;
    assert Total(w[..3], 5) == 13_111;
    assert Total(w[..4], 5) == 419_574;
    assert Total(w[..5], 5) == 13_426_398;
    assert Total(w[..6], 5) == 429_644_760;
    assert Total(w[..7], 5) == 13_748_632_339;
  }

  // ---------------------------------------------------------------- the loops

  /** `out` spells `words`; with the pending bits they are the bits read so far. */
  ghost predicate Emitted(words: seq<nat>, out: string, value: nat, bits: nat, read: seq<bool>) {
    && Fit(words, 5) && out == Symbols(words)
    && Stream(words, 5) + Bits(value, bits) == read
  }

  lemma Append(a: seq<bool>, b: seq<bool>, c: seq<bool>)
    ensures a + b + c == a + (b + c)
  {
  }

  lemma AbsorbByte(words: seq<nat>, out: string, value: nat, bits: nat, read: seq<bool>, byte: Byte)
    requires bits < 5 && Emitted(words, out, value, bits, read)
    ensures Bits(Shl(value, 8), 8) == Zeros(8) && byte < Pow2(8)
    ensures Emitted(words, out, Or(Shl(value, 8), byte, 8), bits + 8, read + Bits(byte, 8))
  {
    LimitIsPow2(8);
    ShiftIn(value, bits, byte, 8);
    Append(Stream(words, 5), Bits(value, bits), Bits(byte, 8));
  }

  lemma EmitWord(words: seq<nat>, out: string, value: nat, bits: nat, read: seq<bool>)
    requires bits >= 5 && Emitted(words, out, value, bits, read)
    ensures var word := Shr(value, bits - 5) % 32;
            Emitted(words + [word], out + [SymbolOf(word)], value, bits - 5, read)
  {
    var word := Shr(value, bits - 5) % 32;
    Mask(Shr(value, bits - 5));
    TakeTop(value, 5, bits - 5);
    StreamSnoc(words, word, 5);
    SymbolsSnoc(words, word);
    Append(Stream(words, 5), Bits(word, 5), Bits(value, bits - 5));
  }

  lemma CountsFit(n: nat, symbols: nat, fill: nat)
    requires 5 * symbols == 8 * n + fill && fill < 5
    ensures symbols == SymbolCount(n) && fill == Padding(n)
  {
  }

  /** Words that write the bytes' bits and then fewer than five zeros are the encoding. */
  lemma EmittedAll(words: seq<nat>, bytes: seq<Byte>, fill: nat)
    requires Fit(words, 5)
    requires fill < 5 && Stream(words, 5) == Stream(bytes, 8) + Zeros(fill)
    ensures Symbols(words) == Encoded(bytes)
  {
    assert 5 * |words| == 8 * |bytes| + fill;
    CountsFit(|bytes|, |words|, fill);
    CutStream(words, [], 5);
    assert Stream(words, 5) + [] == Stream(words, 5);
  }

  lemma SymbolsSnoc(words: seq<nat>, word: nat)
    requires Fit(words, 5) && word < 32
    ensures Symbols(words + [word]) == Symbols(words) + [SymbolOf(word)]
  {
  }

  /** The last, incomplete word is filled up with zeros. */
  lemma LastWord(words: seq<nat>, out: string, value: nat, bits: nat, bytes: seq<Byte>)
    requires 0 < bits < 5 && Emitted(words, out, value, bits, Stream(bytes, 8))
    ensures out + [SymbolOf(Shl(value, 5 - bits) % 32)] == Encoded(bytes)
  {
    var fill: nat, word: nat := 5 - bits, Shl(value, 5 - bits) % 32;
    assert Stream(words + [word], 5) == Stream(bytes, 8) + Zeros(fill) by {
      ShiftedBits(value, bits, fill);
      Mask(Shl(value, fill));
      StreamSnoc(words, word, 5);
      Append(Stream(words, 5), Bits(value, bits), Zeros(fill));
    }
    EmittedAll(words + [word], bytes, fill);
    SymbolsSnoc(words, word);
  }

  lemma NothingPending(words: seq<nat>, out: string, value: nat, bytes: seq<Byte>)
    requires Emitted(words, out, value, 0, Stream(bytes, 8))
    ensures out == Encoded(bytes)
  {
    EmittedAll(words, bytes, 0);
  }

  lemma NothingRead()
    ensures Emitted([], "", 0, 0, []) && Collected([], 0, 0, [])
  {
  }

  method Encode(bytes: seq<Byte>) returns (out: string)
    ensures out == Encoded(bytes)
  {
    var bits, value: nat := 0, 0;
    out := "";
    ghost var words: seq<nat> := [];
    ghost var read: seq<bool> := [];
    NothingRead();
    for n := 0 to |bytes|
      invariant 0 <= bits < 5 && read == Leading(bytes, n, 8)
      invariant Emitted(words, out, value, bits, read)
    {
      AbsorbByte(words, out, value, bits, read, bytes[n]);
      value := Or(Shl(value, 8), bytes[n], 8);
      bits := bits + 8;
      read := read + Bits(bytes[n], 8);
      bits, out, words := EmitWhole(value, bits, out, words, read);
    }
    if bits > 0 {
      LastWord(words, out, value, bits, bytes);
      out := out + [SymbolOf(Shl(value, 5 - bits) % 32)];
    } else {
      NothingPending(words, out, value, bytes);
    }
  }

  /** The encoder's inner loop: every whole word among the pending bits is written. */
  method EmitWhole(value: nat, pending: nat, written: string, ghost before: seq<nat>, ghost read: seq<bool>)
    returns (bits: nat, out: string, ghost words: seq<nat>)
    requires Emitted(before, written, value, pending, read)
    ensures bits < 5 && Emitted(words, out, value, bits, read)
  {
    bits, out, words := pending, written, before;
    while bits >= 5
      invariant Emitted(words, out, value, bits, read)
    {
      EmitWord(words, out, value, bits, read);
      var word: nat := Shr(value, bits - 5) % 32;
      out := out + [SymbolOf(word)];
      words := words + [word];
      bits := bits - 5;
    }
  }

  /** The bytes out so far and the pending bits are the bits read so far. */
  ghost predicate Collected(out: seq<Byte>, value: nat, bits: nat, read: seq<bool>) {
    Stream(out, 8) + Bits(value, bits) == read
  }

  lemma AbsorbSymbol(out: seq<Byte>, value: nat, bits: nat, read: seq<bool>, idx: nat)
    requires idx < 32 && bits < 8 && Collected(out, value, bits, read)
    ensures Bits(Shl(value, 5), 5) == Zeros(5) && idx < Pow2(5)
    ensures Collected(out, Or(Shl(value, 5), idx, 5), bits + 5, read + Bits(idx, 5))
  {
    LimitIsPow2(5);
    ShiftIn(value, bits, idx, 5);
    Append(Stream(out, 8), Bits(value, bits), Bits(idx, 5));
  }

  lemma CollectByte(out: seq<Byte>, value: nat, bits: nat, read: seq<bool>)
    requires bits >= 8 && Collected(out, value, bits, read)
    ensures Collected(out + [Shr(value, bits - 8) % 256], value, bits - 8, read)
  {
    var byte := Shr(value, bits - 8) % 256;
    Mask(Shr(value, bits - 8));
    TakeTop(value, 8, bits - 8);
    StreamSnoc(out, byte, 8);
    Append(Stream(out, 8), Bits(byte, 8), Bits(value, bits - 8));
  }

  lemma NextIndex(s: string, n: nat)
    requires n < |s| && Spellable(s[..n]) && IndexOf(s[n]) >= 0
    ensures Spellable(s[..n + 1])
    ensures Stream(Indices(s[..n + 1]), 5) == Stream(Indices(s[..n]), 5) + Bits(IndexOf(s[n]), 5)
  {
    var next := Indices(s[..n]) + [IndexOf(s[n])];
    assert |s[..n + 1]| == |next| && forall i | 0 <= i < |next| :: IndexOf(s[..n + 1][i]) == next[i];
    assert Indices(s[..n + 1]) == next;
    StreamSnoc(Indices(s[..n]), IndexOf(s[n]), 5);
  }

  lemma CollectedAll(out: seq<Byte>, value: nat, bits: nat, words: seq<nat>)
    requires bits < 8 && Collected(out, value, bits, Stream(words, 5))
    ensures DecodedWords(words) == out
  {
    assert 8 * |out| + bits == 5 * |words|;
    assert |out| == ByteCount(|words|);
    BytesFit(out);
    CutStream(out, Bits(value, bits), 8);
  }

  method Decode(input: string) returns (result: Option<seq<Byte>>)
    ensures result == Decoded(input)
  {
    var clean := Clean(input);
    if |clean| == 0 { return None; }
    var bits, value: nat := 0, 0;
    var out: seq<Byte> := [];
    ghost var read: seq<bool> := [];
    NothingRead();
    for n := 0 to |clean|
      invariant 0 <= bits < 8 && Spellable(clean[..n]) && read == Stream(Indices(clean[..n]), 5)
      invariant Collected(out, value, bits, read)
    {
      var idx := IndexOf(clean[n]);
      if idx == -1 {
        return None;
      }
      NextIndex(clean, n);
      AbsorbSymbol(out, value, bits, read, idx);
      value := Or(Shl(value, 5), idx, 5);
      bits := bits + 5;
      read := read + Bits(idx, 5);
      if bits >= 8 {
        CollectByte(out, value, bits, read);
        var byte: Byte := Shr(value, bits - 8) % 256;
        out := out + [byte];
        bits := bits - 8;
      }
    }
    assert clean[..|clean|] == clean;
    CollectedAll(out, value, bits, Indices(clean));
    return Some(out);
  }
}
