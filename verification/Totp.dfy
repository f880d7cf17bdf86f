/**
 * One-time codes: the HOTP value of section 5.3 of RFC 4226 and its time-based use in
 * RFC 6238. The keyed hash stays an arbitrary function with a 20-byte result, so every
 * statement holds for whatever HMAC-SHA-1 computes. Time is in whole milliseconds.
 */
module Totp {
  import opened Common
  import opened Base32

  const DIGEST_LENGTH: nat := 20
  const TOTP_DIGITS: nat := 6
  const CODE_COUNT: nat := 1_000_000
  const STEP_MS: int := 30_000
  const COUNTER_LIMIT: int := 0x1_0000_0000_0000_0000

  type Digest = d: seq<Byte> | |d| == DIGEST_LENGTH witness seq(DIGEST_LENGTH, i => 0)

  /** The keyed hash: secret, then message. */
  type Mac = (seq<Byte>, seq<Byte>) -> Digest

  /** A result, or the RangeError of a buffer write out of range. */
  datatype Thrown<+T> = Returned(value: T) | RangeError

  // ---------------------------------------------------------------- the counter's eight bytes

  /** `v` in `n` bytes, highest first. */
  function BigEndian(v: nat, n: nat): (bytes: seq<Byte>)
    ensures |bytes| == n
    decreases n
  {
    if n == 0 then [] else BigEndian(v / 256, n - 1) + [v % 256]
  }

  function FromBigEndian(bytes: seq<Byte>): nat {
    if bytes == [] then 0 else 256 * FromBigEndian(bytes[..|bytes| - 1]) + bytes[|bytes| - 1]
  }

  lemma FromBigEndianSnoc(bytes: seq<Byte>, b: Byte)
    ensures FromBigEndian(bytes + [b]) == 256 * FromBigEndian(bytes) + b
  {
    assert (bytes + [b])[..|bytes|] == bytes;
  }

  /** `v` moved left `n` bytes. */
  function UpBytes(v: nat, n: nat): nat {
    if n == 0 then v else 256 * UpBytes(v, n - 1)
  }

  /** Numbers written one after the other are one number of the joint length. */
  lemma {:induction false} BigEndianJoin(high: nat, m: nat, low: nat, n: nat)
    requires low < Pow256(n)
    ensures BigEndian(UpBytes(high, n) + low, m + n) == BigEndian(high, m) + BigEndian(low, n)
    decreases n
  {
    if n > 0 {
      BigEndianJoin(high, m, low / 256, n - 1);
      assert (UpBytes(high, n) + low) / 256 == UpBytes(high, n - 1) + low / 256;
      assert (UpBytes(high, n) + low) % 256 == low % 256;
    }
  }

  lemma TwoWords(v: nat)
    ensures BigEndian(v / WORD, 4) + BigEndian(v % WORD, 4) == BigEndian(v, 8)
  {
    var high, low := v / WORD, v % WORD;
    ByteLimit();
    assert UpBytes(high, 1) == 256 * high;
    assert UpBytes(high, 2) == 0x1_0000 * high;
    assert UpBytes(high, 3) == 0x100_0000 * high;
    assert UpBytes(high, 4) == WORD * high;
    BigEndianJoin(high, 4, low, 4);
  }

  /** `writeUInt32BE`: it refuses what does not fit in a word and then writes nothing. */
  method WriteUInt32BE(buf: array<Byte>, v: int, at: nat) returns (written: bool)
    requires at + 4 <= buf.Length
    modifies buf
    ensures written <==> 0 <= v < WORD
    ensures written ==> buf[..] == old(buf[..at]) + BigEndian(v, 4) + old(buf[at + 4..])
    ensures !written ==> buf[..] == old(buf[..])
  {
    if v < 0 || v >= WORD { return false; }
    var n: nat := v;
    buf[at + 3] := n % 256;
    buf[at + 2] := n / 256 % 256;
    buf[at + 1] := n / 256 / 256 % 256;
    buf[at] := n / 256 / 256 / 256 % 256;
    FourBytes(n);
    return true;
  }

  lemma FourBytes(n: nat)
    ensures BigEndian(n, 4) == [n / 256 / 256 / 256 % 256, n / 256 / 256 % 256, n / 256 % 256, n % 256]
  {
    assert BigEndian(n / 256 / 256, 2) == [n / 256 / 256 / 256 % 256, n / 256 / 256 % 256];
  }

  /** Eight bytes for a step; a step below zero or too high throws. */
  method CounterBuffer(counter: int) returns (buf: array<Byte>, thrown: bool)
    ensures fresh(buf)
    ensures thrown <==> !(0 <= counter < COUNTER_LIMIT)
    ensures !thrown ==> buf[..] == BigEndian(counter, 8)
  {
    buf := new Byte[8](i => 0);
    var written := WriteUInt32BE(buf, counter / WORD, 0);
    if !written { return buf, true; }
    ghost var high := buf[..];
    written := WriteUInt32BE(buf, counter % WORD, 4);
    TwoWords(counter);
    return buf, false;
  }

  /** No two steps hash the same eight bytes. */
  lemma CounterBytesDiffer(a: nat, b: nat)
    requires a < COUNTER_LIMIT && b < COUNTER_LIMIT && a != b
    ensures BigEndian(a, 8) != BigEndian(b, 8)
  {
    ByteLimit();
    BigEndianReads(a, 8);
    BigEndianReads(b, 8);
  }

  /** The eight bytes in numbers: each weighs 256 times the next. */
  lemma CounterSpelled(c: nat, bytes: seq<Byte>)
    requires |bytes| == 8
    ensures c < 18_446_744_073_709_551_616 && bytes == BigEndian(c, 8)
            <==> c == 72_057_594_037_927_936 * (bytes[0] as int) + 281_474_976_710_656 * (bytes[1] as int)
                      + 1_099_511_627_776 * (bytes[2] as int) + 4_294_967_296 * (bytes[3] as int) + 16_777_216 * (bytes[4] as int)
                      + 65_536 * (bytes[5] as int) + 256 * (bytes[6] as int) + bytes[7]
  {
    EightReads(bytes);
    BigEndianWrites(bytes);
    ByteLimit();
    if c < COUNTER_LIMIT { BigEndianReads(c, 8); }
  }

  lemma EightReads(b: seq<Byte>)
    requires |b| == 8
    ensures FromBigEndian(b)
            == 72_057_594_037_927_936 * (b[0] as int) + 281_474_976_710_656 * (b[1] as int) + 1_099_511_627_776 * (b[2] as int)
               + 4_294_967_296 * (b[3] as int) + 16_777_216 * (b[4] as int) + 65_536 * (b[5] as int) + 256 * (b[6] as int) + b[7]
  {
    FourReads(b[..4]);
    assert b[..5][..4] == b[..4] && b[..6][..5] == b[..5] && b[..7][..6] == b[..6] && b[..8] == b && b[..7] == b[..8][..7];
    assert FromBigEndian(b[..5]) == 256 * FromBigEndian(b[..4]) + b[4];
    assert FromBigEndian(b[..6]) == 256 * FromBigEndian(b[..5]) + b[5];
    assert FromBigEndian(b[..7]) == 256 * FromBigEndian(b[..6]) + b[6];
  }

  lemma FourReads(b: seq<Byte>)
    requires |b| == 4
    ensures FromBigEndian(b) == 16_777_216 * (b[0] as int) + 65_536 * (b[1] as int) + 256 * (b[2] as int) + b[3]
  {
    assert b[..3][..2] == b[..2] && b[..2][..1] == b[..1] && b[..1][..0] == [];
    assert FromBigEndian(b[..1]) == b[0];
    assert FromBigEndian(b[..2]) == 256 * FromBigEndian(b[..1]) + b[1];
    assert FromBigEndian(b[..3]) == 256 * FromBigEndian(b[..2]) + b[2];
  }

  lemma {:induction false} BigEndianWrites(bytes: seq<Byte>)
    ensures BigEndian(FromBigEndian(bytes), |bytes|) == bytes && FromBigEndian(bytes) < Pow256(|bytes|)
  {
    if bytes != [] {
      BigEndianWrites(bytes[..|bytes| - 1]);
    }
  }

  function Pow256(n: nat): nat { if n == 0 then 1 else 256 * Pow256(n - 1) }

  lemma ByteLimit()
    ensures Pow256(8) == COUNTER_LIMIT && Pow256(4) == WORD
  {
    assert Pow256(2) == 0x1_0000;
    assert Pow256(6) == 0x1_0000_0000_0000;
  }

  lemma {:induction false} BigEndianReads(v: nat, n: nat)
    requires v < Pow256(n)
    ensures FromBigEndian(BigEndian(v, n)) == v
    decreases n
  {
    if n > 0 {
      BigEndianReads(v / 256, n - 1);
      FromBigEndianSnoc(BigEndian(v / 256, n - 1), v % 256);
    }
  }

  // ---------------------------------------------------------------- the HOTP value

  function FourToWord(a: nat, b: nat, c: nat, d: nat): nat {
    0x100_0000 * a + 0x1_0000 * b + 256 * c + d
  }

  /** Four bytes from the offset in the last half-byte; the top bit is masked off. */
  function Truncated(hmac: Digest): (binary: nat)
    ensures binary < 0x8000_0000
  {
    var offset := hmac[|hmac| - 1] % 16;
    FourToWord(hmac[offset] % 128, hmac[offset + 1], hmac[offset + 2], hmac[offset + 3])
  }

  /** The same, as the RFC words it: the low 31 bits of the big-endian number at the offset. */
  lemma TruncatedIsLow31Bits(hmac: Digest)
    ensures var offset := hmac[19] % 16;
            offset + 4 <= |hmac|
            && Truncated(hmac) == FromBigEndian(hmac[offset..offset + 4]) % 0x8000_0000
  {
    var offset := hmac[19] % 16;
    WordReads(hmac[offset], hmac[offset + 1], hmac[offset + 2], hmac[offset + 3]);
    var four := hmac[offset..offset + 4];
    assert four == [four[0], four[1], four[2], four[3]];
  }

  lemma WordReads(a: Byte, b: Byte, c: Byte, d: Byte)
    ensures FromBigEndian([a, b, c, d]) == FourToWord(a, b, c, d)
    ensures FourToWord(a, b, c, d) % 0x8000_0000 == FourToWord(a % 128, b, c, d)
  {
    FromBigEndianSnoc([], a);
    FromBigEndianSnoc([a], b);
    FromBigEndianSnoc([a, b], c);
    FromBigEndianSnoc([a, b, c], d);
    assert [] + [a] == [a] && [a] + [b] == [a, b] && [a, b] + [c] == [a, b, c] && [a, b, c] + [d] == [a, b, c, d];
    assert FourToWord(a, b, c, d) == 0x8000_0000 * (a as int / 128) + FourToWord(a % 128, b, c, d);
  }

  predicate IsDigit(c: char) { '0' <= c <= '9' }

  predicate AllDigits(s: string) {
    forall i | 0 <= i < |s| :: IsDigit(s[i])
  }

  function DigitChar(d: nat): char
    requires d < 10
  {
    ('0' as int + d) as char
  }

  /** `toString` of a number. */
  function Decimal(n: nat): (s: string)
    ensures |s| > 0 && AllDigits(s)
  {
    if n < 10 then [DigitChar(n)] else Decimal(n / 10) + [DigitChar(n % 10)]
  }

  function PadStart(s: string, width: nat): string {
    if |s| >= width then s else seq(width - |s|, i => '0') + s
  }

  /** The number a string of digits writes. */
  function Parse(s: string): nat
    requires AllDigits(s)
  {
    if s == [] then 0 else 10 * Parse(s[..|s| - 1]) + (s[|s| - 1] as int - '0' as int)
  }

  function Pow10(k: nat): (p: nat)
    ensures p > 0
  {
    if k == 0 then 1 else 10 * Pow10(k - 1)
  }

  lemma {:induction false} DecimalParses(n: nat, width: nat)
    requires width > 0 && n < Pow10(width)
    ensures |Decimal(n)| <= width && Parse(Decimal(n)) == n
  {
    if n >= 10 {
      assert width > 1;
      DecimalParses(n / 10, width - 1);
      assert Decimal(n)[..|Decimal(n)| - 1] == Decimal(n / 10);
    } else {
      assert Decimal(n)[..0] == [];
    }
  }

  lemma {:induction false} LeadingZeros(k: nat, s: string)
    requires AllDigits(s)
    ensures AllDigits(seq(k, i => '0') + s) && Parse(seq(k, i => '0') + s) == Parse(s)
    decreases |s| + k
  {
    var zeros := seq(k, i => '0');
    if s != [] {
      LeadingZeros(k, s[..|s| - 1]);
      assert (zeros + s)[..|zeros + s| - 1] == zeros + s[..|s| - 1];
    } else if k > 0 {
      LeadingZeros(k - 1, s);
      assert (zeros + s)[..k - 1] == seq(k - 1, i => '0') + s;
    }
  }

  /** The code of a digest: its value modulo a million, padded with zeros to six digits. */
  function CodeOf(hmac: Digest): string {
    PadStart(Decimal(Truncated(hmac) % CODE_COUNT), TOTP_DIGITS)
  }

  predicate SixDigits(s: string) { |s| == TOTP_DIGITS && AllDigits(s) }

  /** Whatever the hash, a code has exactly six digits and parses back to the value. */
  lemma CodeParsesBack(hmac: Digest)
    ensures SixDigits(CodeOf(hmac)) && Parse(CodeOf(hmac)) == Truncated(hmac) % CODE_COUNT
  {
    Padded(Truncated(hmac) % CODE_COUNT);
  }

  lemma Padded(value: nat)
    requires value < CODE_COUNT
    ensures var code := PadStart(Decimal(value), TOTP_DIGITS);
            SixDigits(code) && Parse(code) == value
  {
    assert Pow10(3) == 1_000 && Pow10(6) == CODE_COUNT;
    var s := Decimal(value);
    DecimalParses(value, TOTP_DIGITS);
    LeadingZeros(TOTP_DIGITS - |s|, s);
    assert seq(0, i => '0') + s == s;
  }

  /**
   * A code in plain numbers, as section 5.3 of RFC 4226 has it: six decimal digits that
   * write the low 31 bits of the four bytes at the offset, modulo a million.
   */
  lemma CodeSpelled(hmac: Digest)
    ensures |CodeOf(hmac)| == 6 && forall i | 0 <= i < 6 :: '0' <= CodeOf(hmac)[i] <= '9'
    ensures var code, o := CodeOf(hmac), hmac[19] % 16;
            Value(code[0], 100_000) + Value(code[1], 10_000) + Value(code[2], 1_000)
               + Value(code[3], 100) + Value(code[4], 10) + Value(code[5], 1)
               == (16_777_216 * (hmac[o] as int) + 65_536 * (hmac[o + 1] as int) + 256 * (hmac[o + 2] as int) + hmac[o + 3])
                  % 2_147_483_648 % 1_000_000
  {
    var code, o := CodeOf(hmac), hmac[19] % 16;
    hide CodeOf, Truncated, FromBigEndian, Parse;
    CodeParsesBack(hmac);
    TruncatedIsLow31Bits(hmac);
    FourReads(hmac[o..o + 4]);
    SixRead(code);
  }

  /** What a digit is worth in its place. */
  function Value(digit: char, place: nat): int { place * (digit as int - '0' as int) }

  lemma SixRead(s: string)
    requires SixDigits(s)
    ensures Parse(s) == Value(s[0], 100_000) + Value(s[1], 10_000) + Value(s[2], 1_000)
                        + Value(s[3], 100) + Value(s[4], 10) + Value(s[5], 1)
  {
    assert s[..5][..4] == s[..4] && s[..4][..3] == s[..3] && s[..3][..2] == s[..2] && s[..2][..1] == s[..1] && s[..1][..0] == [];
    assert Parse(s[..1]) == Value(s[0], 1);
    assert Parse(s[..2]) == 10 * Parse(s[..1]) + Value(s[1], 1);
    assert Parse(s[..3]) == 10 * Parse(s[..2]) + Value(s[2], 1);
    assert Parse(s[..4]) == 10 * Parse(s[..3]) + Value(s[3], 1);
    assert Parse(s[..5]) == 10 * Parse(s[..4]) + Value(s[4], 1);
  }

  /** The example of section 5.4 of RFC 4226. */
  lemma ExampleOfTheStandard()
    ensures CodeOf([0x1f, 0x86, 0x98, 0x69, 0x0e, 0x02, 0xca, 0x16, 0x61, 0x85,
                    0x50, 0xef, 0x7f, 0x19, 0xda, 0x8e, 0x94, 0x5b, 0x55, 0x5a]) == "872921"
  {
    hide Decimal, PadStart;
    var hmac: Digest := [0x1f, 0x86, 0x98, 0x69, 0x0e, 0x02, 0xca, 0x16, 0x61, 0x85,
                         0x50, 0xef, 0x7f, 0x19, 0xda, 0x8e, 0x94, 0x5b, 0x55, 0x5a];
    ExampleWord(hmac);
    ExampleDigits();
  }

  lemma ExampleWord(hmac: Digest)
    requires hmac[19] == 0x5a && hmac[10] == 0x50 && hmac[11] == 0xef && hmac[12] == 0x7f && hmac[13] == 0x19
    ensures Truncated(hmac) % CODE_COUNT == 872_921
  {
    assert Truncated(hmac) == 1_357_872_921;
  }

  lemma ExampleDigits()
    ensures PadStart(Decimal(872_921), 6) == "872921"
  {
    assert Decimal(8) == "8" && Decimal(87) == "87" && Decimal(872) == "872";
    assert Decimal(8_729) == "8729" && Decimal(87_292) == "87292";
  }

  predicate InRange(counter: int) { 0 <= counter < COUNTER_LIMIT }

  /** The code of one step, when the step fits its eight bytes. */
  function StepCode(mac: Mac, secret: seq<Byte>, counter: int): string
    requires InRange(counter)
  {
    CodeOf(mac(secret, BigEndian(counter, 8)))
  }

  function HotpValue(mac: Mac, secret: seq<Byte>, counter: int): Thrown<string> {
    if InRange(counter) then Returned(StepCode(mac, secret, counter)) else RangeError
  }

  method Hotp(mac: Mac, secret: seq<Byte>, counter: int) returns (code: Thrown<string>)
    ensures code == HotpValue(mac, secret, counter)
  {
    var buf, thrown := CounterBuffer(counter);
    if thrown { return RangeError; }
    var hmac := mac(secret, buf[..]);
    return Returned(PadStart(Decimal(Truncated(hmac) % CODE_COUNT), TOTP_DIGITS));
  }

  // ---------------------------------------------------------------- codes over time

  /** The 30-second step an instant lies in, rounding towards the past. */
  function StepAt(atMs: int): int { atMs / STEP_MS }

  /** Step `c` runs from 30 seconds times `c` up to the start of the next. */
  lemma StepsLastThirtySeconds(atMs: int, c: int)
    ensures c == StepAt(atMs) <==> 30_000 * c <= atMs < 30_000 * (c + 1)
  {
  }

  lemma StepsFit(atMs: int)
    ensures InRange(StepAt(atMs)) <==> 0 <= atMs < 30_000 * 18_446_744_073_709_551_616
    ensures 30_000 * StepAt(atMs) <= atMs < 30_000 * (StepAt(atMs) + 1)
  {
  }

  /** The code of one step: the digest of its eight bytes, cut down to six digits. */
  lemma CodeOfStep(mac: Mac, secret: seq<Byte>, c: nat, bytes: seq<Byte>)
    requires |bytes| == 8
    requires c == 72_057_594_037_927_936 * (bytes[0] as int) + 281_474_976_710_656 * (bytes[1] as int)
                  + 1_099_511_627_776 * (bytes[2] as int) + 4_294_967_296 * (bytes[3] as int) + 16_777_216 * (bytes[4] as int)
                  + 65_536 * (bytes[5] as int) + 256 * (bytes[6] as int) + bytes[7]
    ensures InRange(c) && StepCode(mac, secret, c) == CodeOf(mac(secret, bytes))
  {
    CounterSpelled(c, bytes);
  }

  method TotpCode(mac: Mac, secretBase32: string, atMs: int) returns (code: Thrown<Option<string>>)
    ensures Decoded(secretBase32).None? ==> code == Returned(None)
    ensures Decoded(secretBase32).Some?
            ==> (code == RangeError <==> !(0 <= atMs < 30_000 * 18_446_744_073_709_551_616))
    ensures Decoded(secretBase32).Some? && code != RangeError
            ==> exists c | 30_000 * c <= atMs < 30_000 * (c + 1) && InRange(c) ::
                  code == Returned(Some(StepCode(mac, Decoded(secretBase32).value, c)))
  {
    var secret := Decode(secretBase32);
    if secret.None? { return Returned(None); }
    var value := Hotp(mac, secret.value, StepAt(atMs));
    StepsFit(atMs);
    return match value case Returned(s) => Returned(Some(s)) case RangeError => RangeError;
  }

  function TrimStart(s: string): string {
    if s != [] && IsSpace(s[0]) then TrimStart(s[1..]) else s
  }

  function TrimEnd(s: string): string {
    if s != [] && IsSpace(s[|s| - 1]) then TrimEnd(s[..|s| - 1]) else s
  }

  function Trim(s: string): string { TrimEnd(TrimStart(s)) }

  /** What each step's code is, or that the step throws: the value `Hotp` is proved to compute. */
  type Codes = int -> Thrown<string>

  function CodesOf(mac: Mac, secret: seq<Byte>): Codes {
    c => HotpValue(mac, secret, c)
  }

  /** Steps `first` to `last` in order: the first match answers, the first bad step throws. */
  function Scan(codes: Codes, candidate: string, first: int, last: int): Thrown<bool>
    decreases last - first
  {
    if first > last then Returned(false)
    else if codes(first).RangeError? then RangeError
    else if codes(first).value == candidate then Returned(true)
    else Scan(codes, candidate, first + 1, last)
  }

  /** A code that is not six digits is refused unseen. */
  function Answer(codes: Codes, typed: string, now: int, window: int): Thrown<bool> {
    if SixDigits(typed) then Scan(codes, typed, now - window, now + window) else Returned(false)
  }

  function VerdictOn(mac: Mac, decoded: Option<seq<Byte>>, typed: string, now: int, window: int): Thrown<bool> {
    if decoded.None? then Returned(false) else Answer(CodesOf(mac, decoded.value), typed, now, window)
  }

  function Verdict(mac: Mac, secretBase32: string, code: string, atMs: int, window: int): Thrown<bool> {
    VerdictOn(mac, Decoded(secretBase32), Trim(code), StepAt(atMs), window)
  }

  method VerifyTotp(mac: Mac, secretBase32: string, code: string, atMs: int, window: int) returns (r: Thrown<bool>)
    ensures r == Verdict(mac, secretBase32, code, atMs, window)
  {
    var secret := Decode(secretBase32);
    var trimmed := Trim(code);
    r := CheckDecoded(mac, secret, trimmed, StepAt(atMs), window);
  }

  /** The check once the secret is decoded and the code trimmed. */
  method CheckDecoded(mac: Mac, secret: Option<seq<Byte>>, trimmed: string, current: int, window: int)
    returns (r: Thrown<bool>)
    ensures r == VerdictOn(mac, secret, trimmed, current, window)
  {
    if secret.None? { return Returned(false); }
    if !SixDigits(trimmed) { return Returned(false); }
    r := Compare(mac, secret.value, trimmed, current, window);
  }

  /** One code of the window, by the HOTP computation. */
  method CodeAt(mac: Mac, secret: seq<Byte>, c: int) returns (code: Thrown<string>)
    ensures code == CodesOf(mac, secret)(c)
  {
    code := Hotp(mac, secret, c);
  }

  /** The loop of the check: one code per step, from the oldest to the newest. */
  method Compare(mac: Mac, secret: seq<Byte>, candidate: string, current: int, window: int)
    returns (r: Thrown<bool>)
    ensures r == Scan(CodesOf(mac, secret), candidate, current - window, current + window)
  {
    hide CodesOf;
    ghost var codes := CodesOf(mac, secret);
    var drift := -window;
    while drift <= window
      invariant Scan(codes, candidate, current - window, current + window)
             == Scan(codes, candidate, current + drift, current + window)
    {
      var expected := CodeAt(mac, secret, current + drift);
      if expected.RangeError? { return RangeError; }
      if expected.value == candidate { return Returned(true); }
      drift := drift + 1;
    }
    return Returned(false);
  }

  /** `typed` is the code of some step from `first` to `last`. */
  ghost predicate InWindow(codes: Codes, typed: string, first: int, last: int) {
    exists c: int :: first <= c <= last && codes(c) == Returned(typed)
  }

  lemma {:induction false} ScanFindsWindow(codes: Codes, candidate: string, first: int, last: int)
    requires forall c | first <= c <= last :: codes(c).Returned?
    ensures Scan(codes, candidate, first, last) == Returned(InWindow(codes, candidate, first, last))
    decreases last - first
  {
    if first <= last {
      ScanFindsWindow(codes, candidate, first + 1, last);
    }
  }

  lemma CodesAreSixDigits(mac: Mac, secret: seq<Byte>, c: int)
    ensures CodesOf(mac, secret)(c).Returned? <==> InRange(c)
    ensures InRange(c) ==> SixDigits(CodesOf(mac, secret)(c).value)
  {
    if InRange(c) { CodeParsesBack(mac(secret, BigEndian(c, 8))); }
  }

  ghost predicate Usable(codes: Codes, first: int, last: int) {
    forall c | first <= c <= last :: codes(c).Returned? && SixDigits(codes(c).value)
  }

  lemma UsableCodes(mac: Mac, secret: seq<Byte>, first: int, last: int)
    requires InRange(first) && InRange(last)
    ensures Usable(CodesOf(mac, secret), first, last)
  {
    forall c | first <= c <= last
      ensures CodesOf(mac, secret)(c).Returned? && SixDigits(CodesOf(mac, secret)(c).value)
    {
      CodesAreSixDigits(mac, secret, c);
    }
  }

  lemma AnswerFindsWindow(codes: Codes, typed: string, now: int, window: nat)
    requires Usable(codes, now - window, now + window)
    ensures Answer(codes, typed, now, window) == Returned(InWindow(codes, typed, now - window, now + window))
  {
    ScanFindsWindow(codes, typed, now - window, now + window);
  }

  lemma WindowVerdict(mac: Mac, decoded: Option<seq<Byte>>, typed: string, now: int, window: nat)
    requires InRange(now - window) && InRange(now + window)
    ensures VerdictOn(mac, decoded, typed, now, window)
            == Returned(decoded.Some? && InWindow(CodesOf(mac, decoded.value), typed, now - window, now + window))
  {
    if decoded.Some? {
      UsableCodes(mac, decoded.value, now - window, now + window);
      AnswerFindsWindow(CodesOf(mac, decoded.value), typed, now, window);
    }
  }

  /**
   * Exactly the codes of the 2w + 1 steps around the instant's own step verify; nothing
   * else does, and nothing does for a secret that does not decode.
   */
  lemma AcceptsExactlyTheWindow(mac: Mac, secretBase32: string, code: string, atMs: int, window: nat, c: int)
    requires 30_000 * c <= atMs < 30_000 * (c + 1)
    requires 0 <= c - window && c + window < 18_446_744_073_709_551_616
    ensures var decoded, verdict := Decoded(secretBase32), Verdict(mac, secretBase32, code, atMs, window);
            && (decoded.None? ==> verdict == Returned(false))
            && (decoded.Some? ==>
                  verdict == Returned(exists k :: c - window <= k <= c + window
                                                  && Trim(code) == StepCode(mac, decoded.value, k)))
  {
    var decoded, typed := Decoded(secretBase32), Trim(code);
    StepsLastThirtySeconds(atMs, c);
    WindowVerdict(mac, decoded, typed, c, window);
    if decoded.Some? { WindowIsSpelled(mac, decoded.value, typed, c - window, c + window); }
  }

  lemma WindowIsSpelled(mac: Mac, secret: seq<Byte>, typed: string, first: int, last: int)
    requires InRange(first) && InRange(last)
    ensures InWindow(CodesOf(mac, secret), typed, first, last)
            <==> exists k :: first <= k <= last && typed == StepCode(mac, secret, k)
  {
    if k :| first <= k <= last && typed == StepCode(mac, secret, k) {
      assert CodesOf(mac, secret)(k) == Returned(typed);
    }
  }

  /** With a secret and six digits to check, a window that reaches below step zero throws; only it does. */
  lemma ThrowsIffStepBelowZero(mac: Mac, secretBase32: string, code: string, atMs: int, window: nat)
    requires atMs < 30_000 * (18_446_744_073_709_551_616 - window)
    ensures var typed := Trim(code);
            Verdict(mac, secretBase32, code, atMs, window) == RangeError
            <==> Decoded(secretBase32).Some? && atMs < 30_000 * window
                 && |typed| == 6 && forall i | 0 <= i < 6 :: '0' <= typed[i] <= '9'
  {
    var decoded, typed, now := Decoded(secretBase32), Trim(code), StepAt(atMs);
    assert now < window <==> atMs < 30_000 * window;
    if now >= window {
      WindowVerdict(mac, decoded, typed, now, window);
    } else if decoded.Some? {
      CodesAreSixDigits(mac, decoded.value, now - window);
    }
  }

  /** The code of one step verifies at every step at most `window` away. */
  lemma SkewIsTolerated(mac: Mac, secret: seq<Byte>, made: int, now: int, window: nat)
    requires InRange(made) && InRange(now - window) && InRange(now + window)
    requires now - window <= made <= now + window
    ensures VerdictOn(mac, Some(secret), StepCode(mac, secret, made), now, window) == Returned(true)
  {
    var codes, code := CodesOf(mac, secret), StepCode(mac, secret, made);
    WindowVerdict(mac, Some(secret), code, now, window);
    assert codes(made) == Returned(code);
  }

  /** `w` steps either way cover every skew up to `w` times 30 s; `w + 1` steps are reached only beyond that. */
  lemma WindowCoversSkew(t: int, u: int, w: int)
    requires w >= 0
    ensures t - u <= w * 30_000 && u - t <= w * 30_000 ==> -w <= StepAt(t) - StepAt(u) <= w
    ensures t - u >= (w + 1) * 30_000 ==> StepAt(t) - StepAt(u) > w
  {
    if t - u <= w * STEP_MS && u - t <= w * STEP_MS {
      StepsApart(t, u, w);
      StepsApart(u, t, w);
    }
    if t - u >= (w + 1) * STEP_MS { StepsApart(u, t, -w - 1); }
  }

  lemma StepsApart(t: int, u: int, w: int)
    requires t - u <= w * STEP_MS
    ensures StepAt(t) - StepAt(u) <= w
  {
    assert StepAt(u) * STEP_MS <= u < StepAt(u) * STEP_MS + STEP_MS;
    assert t < (StepAt(u) + 1 + w) * STEP_MS;
    assert StepAt(t) * STEP_MS <= t;
  }

  lemma {:induction false} SpacesTrim(before: string, code: string, after: string)
    requires forall c | c in before :: IsSpace(c)
    requires forall c | c in after :: IsSpace(c)
    requires code != [] && !IsSpace(code[0]) && !IsSpace(code[|code| - 1])
    ensures Trim(before + code + after) == code
    decreases |before| + |after|
  {
    var s := before + code + after;
    if before != [] {
      assert s[0] in before && s[1..] == before[1..] + code + after;
      SpacesTrim(before[1..], code, after);
    } else {
      assert s == code + after;
      TrimEndSpaces(code, after);
    }
  }

  lemma {:induction false} TrimEndSpaces(code: string, after: string)
    requires forall c | c in after :: IsSpace(c)
    requires code != [] && !IsSpace(code[|code| - 1])
    ensures TrimEnd(code + after) == code
  {
    if after != [] {
      assert after[|after| - 1] in after;
      assert (code + after)[..|code + after| - 1] == code + after[..|after| - 1];
      TrimEndSpaces(code, after[..|after| - 1]);
    } else {
      assert code + after == code;
    }
  }

  /** Nothing but spaces trims to nothing. */
  lemma {:induction false} OnlySpacesTrim(s: string)
    requires forall c | c in s :: IsSpace(c)
    ensures Trim(s) == ""
  {
    if s != [] { OnlySpacesTrim(s[1..]); }
  }

  /**
   * End to end: the code of the step that `madeAt` lies in, typed with spaces around it at
   * most 30 s earlier or later, is accepted.
   */
  lemma HonestLoginVerifies(mac: Mac, secret: seq<Byte>, madeAt: int, c: nat, checkedAt: int, before: string, after: string)
    requires secret != [] && 30_000 * c <= madeAt < 30_000 * (c + 1)
    requires madeAt - 30_000 <= checkedAt <= madeAt + 30_000
    requires 30_000 <= checkedAt < 30_000 * 18_446_744_073_709_551_615
    requires forall ch | ch in before :: IsSpace(ch)
    requires forall ch | ch in after :: IsSpace(ch)
    ensures InRange(c)
    ensures var typed := before + StepCode(mac, secret, c) + after;
            Verdict(mac, Encoded(secret), typed, checkedAt, 1) == Returned(true)
  {
    RoundTrip(secret);
    StepsLastThirtySeconds(madeAt, c);
    WindowCoversSkew(madeAt, checkedAt, 1);
    var code := StepCode(mac, secret, c);
    CodesAreSixDigits(mac, secret, c);
    assert IsDigit(code[0]) && IsDigit(code[|code| - 1]);
    SpacesTrim(before, code, after);
    SkewIsTolerated(mac, secret, c, StepAt(checkedAt), 1);
  }
}
