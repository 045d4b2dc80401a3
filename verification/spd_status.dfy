/** The SPD3303 status word: `SYST:STATUS?` answers a hexadecimal number
    whose low bits give each channel's CV/CC state, the tracking mode and
    each channel's output state. */
module SpdStatus {
  import opened Wrappers
  import opened Text
  import opened Values

  /* ---------- reading the hexadecimal reply ---------- */

  /** The value of one hexadecimal digit, either case. */
  function HexDigit(c: char): (r: Option<nat>)
    ensures r.Some? ==> r.value < 16
  {
    if '0' <= c <= '9' then Some(c as int - '0' as int)
    else if 'a' <= c <= 'f' then Some(c as int - 'a' as int + 10)
    else if 'A' <= c <= 'F' then Some(c as int - 'A' as int + 10)
    else None
  }

  predicate AllHex(s: string) {
    forall i :: 0 <= i < |s| ==> HexDigit(s[i]).Some?
  }

  /** The value of a string of hexadecimal digits, most significant first. */
  function HexDigitsValue(s: string): nat
    requires AllHex(s)
  {
    if s == [] then 0
    else HexDigitsValue(s[..|s| - 1]) * 16 + HexDigit(s[|s| - 1]).value
  }

  /** `int(s, base=16)` on the bare digit strings the supply sends: one or
      more hexadecimal digits is a value, and every other string is taken
      as a ValueError (`None`). Python's `int` also accepts surrounding
      whitespace, a sign, a `0x`/`0X` prefix and single underscores between
      digits; those spellings are not modelled. */
  function HexValue(s: string): (r: Option<nat>)
    ensures r.Some? <==> s != [] && AllHex(s)
  {
    if s != [] && AllHex(s) then Some(HexDigitsValue(s)) else None
  }

  /** The lower-case digit of a value below 16. */
  function HexChar(d: nat): (c: char)
    requires d < 16
    ensures HexDigit(c) == Some(d)
    ensures c != 'x'
  {
    if d < 10 then '0' + d as char else 'a' + (d - 10) as char
  }

  /** The instrument's rendering of a status word, without the `0x`. */
  function Hex(n: nat): (r: string)
    ensures r != [] && AllHex(r)
    ensures forall i :: 0 <= i < |r| ==> r[i] != 'x'
  {
    if n < 16 then [HexChar(n)] else Hex(n / 16) + [HexChar(n % 16)]
  }

  /** Reading back a rendered word gives the word. */
  lemma {:induction false} HexRoundTrip(n: nat)
    ensures HexValue(Hex(n)) == Some(n)
  {
    if n >= 16 {
      var r := Hex(n);
      HexRoundTrip(n / 16);
      assert r[..|r| - 1] == Hex(n / 16);
      assert r[|r| - 1] == HexChar(n % 16);
      assert HexDigitsValue(r) == (n / 16) * 16 + n % 16;
    } else {
      assert Hex(n)[..0] == [];
    }
  }

  /** `int(reply.replace('0x', ''), base=16)`: every `0x` is dropped and the
      rest must be hexadecimal digits. */
  function StatusOf(reply: string): (r: Result<nat, Error>)
    ensures r.Failure? ==> r.error == ValueError
  {
    match HexValue(ReplaceAll(reply, "0x", ""))
    case None => Failure(ValueError)
    case Some(w) => Success(w)
  }

  /** The instrument's `0x<digits>` reply reads as the word it renders. */
  lemma StatusOfHex(n: nat)
    ensures StatusOf("0x" + Hex(n)) == Success(n)
  {
    var h := Hex(n);
    forall i | 0 <= i <= |h|
      ensures !OccursAt(h, "0x", i)
    {
      if i + 2 <= |h| {
        assert h[i..i + 2][1] == h[i + 1] != 'x';
      }
    }
    ReplacePrefix(h, "0x");
    HexRoundTrip(n);
  }

  /** A reply that is `0x` alone, or holds a non-digit, is a ValueError. */
  lemma StatusRejects()
    ensures StatusOf("0x") == Failure(ValueError)
    ensures StatusOf("0x1g") == Failure(ValueError)
  {
    assert ReplaceAll("0x", "0x", "") == "";
    assert ("0x1g")[..2] == "0x";
    assert ReplaceAll("1g", "0x", "") == "1g";
    assert HexDigit(("1g")[1]).None?;
  }

  /* ---------- the bits ---------- */

  function Pow2(k: nat): (r: nat)
    ensures r >= 1
  {
    if k == 0 then 1 else 2 * Pow2(k - 1)
  }

  /** `bool(status & (1 << k))`. */
  predicate Bit(w: nat, k: nat) {
    (w / Pow2(k)) % 2 == 1
  }

  /** Output `ch` (0 or 1) is on: bit ch+4. */
  predicate OutputOn(w: nat, ch: nat) { Bit(w, ch + 4) }

  /** Channel `ch` (0 or 1) is in constant current: bit ch. */
  predicate InCc(w: nat, ch: nat) { Bit(w, ch) }

  /** The tracking mode: independent, series or parallel. */
  datatype Track = Independent | Series | Parallel

  /** Bits 2-3 of the word, `(status & 0x0C) >> 2`. */
  function TrackField(w: nat): (r: nat)
    ensures r < 4
  {
    (w / 4) % 4
  }

  /** The mode `refresh` reads: bits 2-3 as 01 independent, 10 parallel,
      11 series; 00 matches no case and keeps the previous mode. */
  function TrackOf(w: nat, prev: Track): Track {
    match TrackField(w)
    case 1 => Independent
    case 2 => Parallel
    case 3 => Series
    case _ => prev
  }

  /** The value of bits 2-3 the instrument reports for each mode. */
  function TrackBits(m: Track): (r: nat)
    ensures 1 <= r < 4
  {
    match m
    case Independent => 1
    case Parallel => 2
    case Series => 3
  }

  /** The `OUTPUT:TRACK` argument that selects each mode, which is also the
      saved configuration's `OUTPUT:TRACK` value. */
  function TrackCode(m: Track): (r: nat)
    ensures r < 3
  {
    match m
    case Independent => 0
    case Series => 1
    case Parallel => 2
  }

  function B(b: bool): nat { if b then 1 else 0 }

  /** The word with the given CV/CC bits, mode bits, output bits and higher
      bits (timer and waveform states). */
  function Word(cc0: bool, cc1: bool, track: nat, on0: bool, on1: bool, high: nat): nat
    requires track < 4
  {
    B(cc0) + 2 * B(cc1) + 4 * track + 16 * B(on0) + 32 * B(on1) + 64 * high
  }

  /** Decoding reads back each field of an encoded word. */
  lemma WordBits(cc0: bool, cc1: bool, track: nat, on0: bool, on1: bool, high: nat)
    requires track < 4
    ensures var w := Word(cc0, cc1, track, on0, on1, high);
            && InCc(w, 0) == cc0 && InCc(w, 1) == cc1
            && TrackField(w) == track
            && OutputOn(w, 0) == on0 && OutputOn(w, 1) == on1
            && w / 64 == high
  {
    var w := Word(cc0, cc1, track, on0, on1, high);
    assert Pow2(0) == 1 && Pow2(1) == 2 && Pow2(4) == 16 && Pow2(5) == 32 by {
      assert Pow2(2) == 4 && Pow2(3) == 8;
    }
    var lo := B(cc0) + 2 * B(cc1);
    assert w == lo + 4 * (track + 4 * (B(on0) + 2 * B(on1) + 4 * high));
    assert w / 2 == B(cc1) + 2 * (track + 4 * (B(on0) + 2 * B(on1) + 4 * high));
    assert w / 4 == track + 4 * (B(on0) + 2 * B(on1) + 4 * high);
    assert w / 16 == B(on0) + 2 * (B(on1) + 2 * high);
    assert w / 32 == B(on1) + 2 * high;
    assert w / 64 == high;
  }

  /** The mode a word encodes reads back as that mode, whatever the mode
      before. */
  lemma WordReads(cc0: bool, cc1: bool, m: Track, on0: bool, on1: bool, high: nat, prev: Track)
    ensures var w := Word(cc0, cc1, TrackBits(m), on0, on1, high);
            && TrackOf(w, prev) == m
            && InCc(w, 0) == cc0 && InCc(w, 1) == cc1
            && OutputOn(w, 0) == on0 && OutputOn(w, 1) == on1
  {
    WordBits(cc0, cc1, TrackBits(m), on0, on1, high);
  }

  /** Every word is the encoding of its decoded fields, so decoding loses
      nothing below bit 6 and the fields are independent. */
  lemma BitsWord(w: nat)
    ensures w == Word(InCc(w, 0), InCc(w, 1), TrackField(w), OutputOn(w, 0), OutputOn(w, 1), w / 64)
  {
    assert Pow2(0) == 1 && Pow2(1) == 2 && Pow2(4) == 16 && Pow2(5) == 32 by {
      assert Pow2(2) == 4 && Pow2(3) == 8;
    }
    Halves(w);
    Halves(w / 16);
    assert (w / 16) / 2 == w / 32 && (w / 16) / 4 == w / 64;
    assert w / 4 == (w / 4) % 4 + 4 * (w / 16);
  }

  /** The two low bits of `x` and the rest. */
  lemma Halves(x: nat)
    ensures x == x % 2 + 2 * ((x / 2) % 2) + 4 * (x / 4)
  {
    assert x == x % 2 + 2 * (x / 2);
    assert x / 2 == (x / 2) % 2 + 2 * ((x / 2) / 2);
    assert (x / 2) / 2 == x / 4;
  }

  /** The mode the instrument reports is the mode `refresh` reads back,
      whatever the other bits are. */
  lemma TrackRoundTrip(m: Track, prev: Track, cc0: bool, cc1: bool, on0: bool, on1: bool, high: nat)
    ensures TrackOf(Word(cc0, cc1, TrackBits(m), on0, on1, high), prev) == m
  {
    WordBits(cc0, cc1, TrackBits(m), on0, on1, high);
  }

  /** Bits 2-3 at 00 leave the mode as it was; any other value sets it
      whatever it was. */
  lemma TrackKeeps(w: nat, prev: Track, other: Track)
    ensures TrackField(w) == 0 ==> TrackOf(w, prev) == prev
    ensures TrackField(w) == 0 <==> TrackOf(w, Independent) == Independent && TrackOf(w, Series) == Series
    ensures TrackField(w) != 0 ==> TrackOf(w, prev) == TrackOf(w, other)
  {
  }
}
