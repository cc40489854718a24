/** Minute:second:frame disc addresses (src/index.rs). A CD-DA disc is
    addressed in frames (sectors) of 1/75 s; an address runs from 00:00:00 to
    99:59:74, and its linear sector number (LBA) is 4500·m + 75·s + f. */
module Index {
  import opened Wrappers
  import opened Strings

  const FRAMES_PER_SECOND: nat := 75
  const SECONDS_PER_MINUTE: nat := 60
  const FRAMES_PER_MINUTE: nat := 4500
  /** One past the largest LBA an address can name (100 minutes). */
  const MAX_LBA: nat := 450000
  /** `m as u8` keeps the minutes modulo 256, so `from_lba` repeats with this period. */
  const LBA_WRAP: nat := 256 * 4500

  /** An address; only `New` builds one, so every value in use is Valid. */
  datatype MsfIndex = MsfIndex(m: uint8, s: uint8, f: uint8) {
    predicate Valid() {
      m <= 99 && s <= 59 && f <= 74
    }
  }

  datatype MsfParseError = ParseIntError | OutOfRangeError | InvalidMsfError

  /** `MsfIndex::new`: the range-checked constructor. */
  function New(m: uint8, s: uint8, f: uint8): (r: Result<MsfIndex, MsfParseError>)
    ensures r.Ok? <==> m <= 99 && s <= 59 && f <= 74
    ensures r.Ok? ==> r.value.Valid() && r.value.m == m && r.value.s == s && r.value.f == f
    ensures r.Err? ==> r.error == OutOfRangeError
  {
    if m > 99 || s > 59 || f > 74 then Err(OutOfRangeError) else Ok(MsfIndex(m, s, f))
  }

  /** `to_lba`: the linear sector number of an address. */
  function ToLba(x: MsfIndex): (r: nat)
    ensures x.Valid() ==> r < MAX_LBA
    ensures r % FRAMES_PER_SECOND == x.f % FRAMES_PER_SECOND
  {
    x.m * FRAMES_PER_MINUTE + x.s * FRAMES_PER_SECOND + x.f
  }

  /** Two valid addresses with the same LBA are the same address. */
  lemma ToLbaInjective(x: MsfIndex, y: MsfIndex)
    requires x.Valid() && y.Valid()
    ensures ToLba(x) == ToLba(y) <==> x == y
  {
    if ToLba(x) == ToLba(y) {
      var rx, ry := x.s * 75 + x.f, y.s * 75 + y.f;
      assert rx < 4500 && ry < 4500;
      DivModUnique(x.m, rx, y.m, ry, 4500);
      DivModUnique(x.s, x.f, y.s, y.f, 75);
    }
  }

  /** q·d + r with 0 <= r < d determines q and r. */
  lemma {:induction false} DivModUnique(q1: nat, r1: int, q2: nat, r2: int, d: int)
    requires d > 0 && 0 <= r1 < d && 0 <= r2 < d
    requires q1 * d + r1 == q2 * d + r2
    ensures q1 == q2 && r1 == r2
    decreases q1 + q2
  {
    if q1 > 0 && q2 > 0 {
      assert (q1 - 1) * d + r1 == (q2 - 1) * d + r2;
      DivModUnique(q1 - 1, r1, q2 - 1, r2, d);
    } else if q1 > 0 {
      MulAtLeast(q1, d);
    } else if q2 > 0 {
      MulAtLeast(q2, d);
    }
  }

  lemma {:induction false} MulAtLeast(q: nat, d: int)
    requires q >= 1 && d > 0
    ensures q * d >= d
  {
    if q > 1 {
      assert q * d == (q - 1) * d + d;
      MulAtLeast(q - 1, d);
    }
  }

  /** `from_lba(sector_no: u32)`: splits a sector number into m, s and f; the
      `as u8` casts keep the minutes modulo 256 before the range check. */
  function FromLba(n: uint32): (r: Result<MsfIndex, MsfParseError>)
    ensures r.Ok? <==> n % LBA_WRAP < MAX_LBA
    ensures r.Ok? ==> r.value.Valid() && ToLba(r.value) == n % LBA_WRAP
    ensures r.Err? ==> r.error == OutOfRangeError
  {
    var m := n / FRAMES_PER_MINUTE;
    var rest := n - m * FRAMES_PER_MINUTE;
    var s := rest / FRAMES_PER_SECOND;
    var f := rest - s * FRAMES_PER_SECOND;
    SplitLba(n, m, rest, s, f);
    New(m % 256, s % 256, f % 256)
  }

  /** The fields `from_lba` computes: seconds and frames stay in range, and
      the minutes modulo 256 decide whether the address fits. */
  lemma SplitLba(n: nat, m: nat, rest: int, s: int, f: int)
    requires m == n / 4500 && rest == n - m * 4500
    requires s == rest / 75 && f == rest - s * 75
    ensures 0 <= s < 60 && 0 <= f < 75
    ensures n % LBA_WRAP == (m % 256) * 4500 + s * 75 + f
    ensures m % 256 <= 99 <==> n % LBA_WRAP < MAX_LBA
  {
    assert 0 <= rest < 4500;
    WrapMinutes(n, m, rest);
  }

  lemma WrapMinutes(n: nat, m: nat, rest: nat)
    requires n == m * 4500 + rest && rest < 4500
    ensures n % LBA_WRAP == (m % 256) * 4500 + rest
  {
    var k := m / 256;
    assert m == k * 256 + m % 256;
    assert n == k * LBA_WRAP + ((m % 256) * 4500 + rest);
    assert (m % 256) * 4500 + rest < LBA_WRAP;
    DivModUnique(n / LBA_WRAP, n % LBA_WRAP, k, (m % 256) * 4500 + rest, LBA_WRAP);
  }

  /** Every sector number below 100 minutes names exactly one address. */
  lemma FromLbaInRange(n: uint32)
    requires n < MAX_LBA
    ensures FromLba(n).Ok? && ToLba(FromLba(n).value) == n
  {
  }

  /** Between 100 and 255 minutes the minutes survive the cast and fail the range check. */
  lemma FromLbaRejects(n: uint32)
    requires MAX_LBA <= n < LBA_WRAP
    ensures FromLba(n) == Err(OutOfRangeError)
  {
  }

  /** From 256 minutes on, the truncating cast lets far-off sector numbers through. */
  lemma FromLbaWraps()
    ensures FromLba(LBA_WRAP) == Ok(MsfIndex(0, 0, 0))
  {
    assert LBA_WRAP % LBA_WRAP == 0;
    var r := FromLba(LBA_WRAP);
    ToLbaInjective(r.value, MsfIndex(0, 0, 0));
  }

  lemma SmallMod(n: nat, d: nat)
    requires n < d
    ensures n % d == n
  {
  }

  /** from_lba(to_lba(x)) == Ok(x) for every valid address. */
  lemma {:induction false} LbaRoundTrip(x: MsfIndex)
    requires x.Valid()
    ensures FromLba(ToLba(x)) == Ok(x)
  {
    var n := ToLba(x);
    SmallMod(n, LBA_WRAP);
    var r := FromLba(n);
    ToLbaInjective(r.value, x);
  }

  // Packed BCD: the high nibble holds the tens digit and the low nibble the units.

  function HighNibble(b: uint8): nat { b / 16 }
  function LowNibble(b: uint8): nat { b % 16 }

  /** Both nibbles are decimal digits (`(b & 0xf0) <= 0x90 && (b & 0x0f) <= 0x09`). */
  predicate IsBcd(b: uint8) {
    HighNibble(b) <= 9 && LowNibble(b) <= 9
  }

  /** `((v / 10) << 4) + (v % 10)` on `u8`: the shift keeps only the low four
      bits of the tens, which is what `(v / 10) % 16` writes out. */
  function ToBcd(v: uint8): (r: uint8)
    ensures v <= 99 ==> IsBcd(r) && HighNibble(r) == v / 10 && LowNibble(r) == v % 10
  {
    var r := ((v / 10) % 16) * 16 + v % 10;
    assert v <= 99 ==> r / 16 == v / 10 && r % 16 == v % 10 by {
      if v <= 99 {
        DivModUnique(r / 16, r % 16, v / 10, v % 10, 16);
      }
    }
    r
  }

  /** `(b >> 4) * 10 + (b & 0x0f)` for a BCD byte. */
  function FromBcd(b: uint8): (r: uint8)
    requires IsBcd(b)
    ensures r <= 99
  {
    HighNibble(b) * 10 + LowNibble(b)
  }

  /** The decoded value has the high nibble as its tens and the low one as its units. */
  lemma FromBcdDigits(b: uint8)
    requires IsBcd(b)
    ensures FromBcd(b) / 10 == HighNibble(b) && FromBcd(b) % 10 == LowNibble(b)
  {
    DivModUnique(FromBcd(b) / 10, FromBcd(b) % 10, HighNibble(b), LowNibble(b), 10);
  }

  /** Decoding a BCD byte and encoding the value gives the byte back. */
  lemma BcdByteRoundTrip(b: uint8)
    requires IsBcd(b)
    ensures ToBcd(FromBcd(b)) == b
  {
    var v := FromBcd(b);
    FromBcdDigits(b);
    assert HighNibble(ToBcd(v)) == HighNibble(b) && LowNibble(ToBcd(v)) == LowNibble(b);
    DivModUnique(ToBcd(v) / 16, ToBcd(v) % 16, b / 16, b % 16, 16);
  }

  /** `to_bcd_values`. */
  function ToBcdValues(x: MsfIndex): (r: (uint8, uint8, uint8))
    ensures x.Valid() ==> IsBcd(r.0) && IsBcd(r.1) && IsBcd(r.2)
  {
    (ToBcd(x.m), ToBcd(x.s), ToBcd(x.f))
  }

  /** `from_bcd_values`: any nibble above 9 is an OutOfRangeError, and so is a
      decoded value outside the address range. */
  function FromBcdValues(mb: uint8, sb: uint8, fb: uint8): (r: Result<MsfIndex, MsfParseError>)
    ensures !(IsBcd(mb) && IsBcd(sb) && IsBcd(fb)) ==> r == Err(OutOfRangeError)
    ensures r.Err? ==> r.error == OutOfRangeError
    ensures r.Ok? ==> r.value.Valid()
  {
    if !(IsBcd(mb) && IsBcd(sb) && IsBcd(fb)) then Err(OutOfRangeError)
    else New(FromBcd(mb), FromBcd(sb), FromBcd(fb))
  }

  /** Encoding a valid address to BCD and decoding it gives it back. */
  lemma BcdRoundTrip(x: MsfIndex)
    requires x.Valid()
    ensures var (mb, sb, fb) := ToBcdValues(x); FromBcdValues(mb, sb, fb) == Ok(x)
  {
    var (mb, sb, fb) := ToBcdValues(x);
    FromBcdDigits(mb);
    FromBcdDigits(sb);
    FromBcdDigits(fb);
    assert FromBcd(mb) == x.m by { DivModUnique(FromBcd(mb) / 10, FromBcd(mb) % 10, x.m / 10, x.m % 10, 10); }
    assert FromBcd(sb) == x.s by { DivModUnique(FromBcd(sb) / 10, FromBcd(sb) % 10, x.s / 10, x.s % 10, 10); }
    assert FromBcd(fb) == x.f by { DivModUnique(FromBcd(fb) / 10, FromBcd(fb) % 10, x.f / 10, x.f % 10, 10); }
  }

  /** Whatever decodes, encodes back to the same three bytes. */
  lemma BcdDecodeInverse(mb: uint8, sb: uint8, fb: uint8)
    requires FromBcdValues(mb, sb, fb).Ok?
    ensures ToBcdValues(FromBcdValues(mb, sb, fb).value) == (mb, sb, fb)
  {
    BcdByteRoundTrip(mb);
    BcdByteRoundTrip(sb);
    BcdByteRoundTrip(fb);
  }

  /** A BCD triple decodes exactly when its seconds and frames are in range. */
  lemma BcdAcceptance(mb: uint8, sb: uint8, fb: uint8)
    requires IsBcd(mb) && IsBcd(sb) && IsBcd(fb)
    ensures FromBcdValues(mb, sb, fb).Ok? <==> FromBcd(sb) <= 59 && FromBcd(fb) <= 74
  {
  }

  /** `try_from_str`: "m:s:f" after trimming, each part a `u8`, then `New`. */
  function TryFromStr(s: string): (r: Result<MsfIndex, MsfParseError>)
    ensures Count(Trim(s), ':') != 2 ==> r == Err(InvalidMsfError)
    ensures r.Ok? <==>
      var p := Split(Trim(s), ':');
      |p| == 3 && ParseU8(p[0]).Some? && ParseU8(p[1]).Some? && ParseU8(p[2]).Some?
      && ParseU8(p[1]).value <= 59 && ParseU8(p[2]).value <= 74
      && ParseU8(p[0]).value <= 99
    ensures r.Ok? ==>
      var p := Split(Trim(s), ':');
      && |p| == 3 && ParseU8(p[0]).Some? && ParseU8(p[1]).Some? && ParseU8(p[2]).Some?
      && r.value == MsfIndex(ParseU8(p[0]).value, ParseU8(p[1]).value, ParseU8(p[2]).value)
    ensures r.Ok? ==> r.value.Valid()
  {
    var pieces := Split(Trim(s), ':');
    if |pieces| == 3 then
      var m :- ParseU8OrErr(pieces[0]);
      var sec :- ParseU8OrErr(pieces[1]);
      var f :- ParseU8OrErr(pieces[2]);
      New(m, sec, f)
    else
      Err(InvalidMsfError)
  }

  /** `str::parse::<u8>()?` inside `try_from_str`. */
  function ParseU8OrErr(s: string): (r: Result<uint8, MsfParseError>)
    ensures r.Ok? <==> ParseU8(s).Some?
    ensures r.Ok? ==> r.value == ParseU8(s).value
    ensures r.Err? ==> r.error == ParseIntError
  {
    match ParseU8(s)
    case Some(v) => Ok(v)
    case None => Err(ParseIntError)
  }

  function Digit(d: nat): (c: char)
    requires d <= 9
    ensures IsDigit(c) && c as int - '0' as int == d
  {
    ('0' as int + d) as char
  }

  /** Two-digit decimal text, as cue sheets write each part of an address. */
  function TwoDigits(v: nat): (r: string)
    requires v <= 99
    ensures |r| == 2 && AllDigits(r) && ':' !in r
  {
    [Digit(v / 10), Digit(v % 10)]
  }

  /** "mm:ss:ff". */
  function Format(x: MsfIndex): string
    requires x.Valid()
  {
    TwoDigits(x.m) + [':'] + TwoDigits(x.s) + [':'] + TwoDigits(x.f)
  }

  lemma ParseTwoDigits(v: uint8)
    requires v <= 99
    ensures ParseU8(TwoDigits(v)) == Some(v)
  {
    var t := TwoDigits(v);
    assert t[..1][..0] == [];
    assert DecimalValue(t[..1]) == v / 10;
    assert DecimalValue(t) == 10 * (v / 10) + v % 10;
  }

  /** Formatting an address and parsing it back gives the address. */
  lemma FormatRoundTrip(x: MsfIndex)
    requires x.Valid()
    ensures TryFromStr(Format(x)) == Ok(x)
  {
    var a, b, c := TwoDigits(x.m), TwoDigits(x.s), TwoDigits(x.f);
    assert Split(Trim(Format(x)), ':') == [a, b, c] by { FormatPieces(x); }
    assert ParseU8(a) == Some(x.m) by { ParseTwoDigits(x.m); }
    assert ParseU8(b) == Some(x.s) by { ParseTwoDigits(x.s); }
    assert ParseU8(c) == Some(x.f) by { ParseTwoDigits(x.f); }
  }

  /** Any three `u8` numerals joined by colons, with any whitespace around
      the whole text, parse to the address `New` makes of their values: a
      valid one exactly when the values are in range, OutOfRangeError otherwise. */
  lemma TryFromStrPieces(w1: string, a: string, b: string, c: string, w2: string)
    requires forall i :: 0 <= i < |w1| ==> IsWhitespace(w1[i])
    requires forall i :: 0 <= i < |w2| ==> IsWhitespace(w2[i])
    requires ParseU8(a).Some? && ParseU8(b).Some? && ParseU8(c).Some?
    ensures TryFromStr(w1 + (a + [':'] + b + [':'] + c) + w2)
              == New(ParseU8(a).value, ParseU8(b).value, ParseU8(c).value)
  {
    var t := a + [':'] + b + [':'] + c;
    NumeralPlain(a);
    NumeralPlain(b);
    NumeralPlain(c);
    assert t[0] == a[0] && t[|t| - 1] == c[|c| - 1];
    TrimPadded(w1, t, w2);
    ColonPieces(a, b, c);
    ParsePieces(w1 + t + w2, a, b, c);
  }

  /** `try_from_str` once the trimmed text is known to split into three numerals. */
  lemma ParsePieces(s: string, a: string, b: string, c: string)
    requires Split(Trim(s), ':') == [a, b, c]
    requires ParseU8(a).Some? && ParseU8(b).Some? && ParseU8(c).Some?
    ensures TryFromStr(s) == New(ParseU8(a).value, ParseU8(b).value, ParseU8(c).value)
  {
  }

  /** Three colon-free pieces joined by colons split back into those pieces. */
  lemma ColonPieces(a: string, b: string, c: string)
    requires ':' !in a && ':' !in b && ':' !in c
    ensures Split(a + [':'] + b + [':'] + c, ':') == [a, b, c]
  {
    SplitNoSep(c, ':');
    SplitCons(b, c, ':');
    SplitCons(a, b + [':'] + c, ':');
    assert a + [':'] + b + [':'] + c == a + [':'] + (b + [':'] + c);
  }

  /** A `u8` numeral holds no colon and starts and ends with no whitespace. */
  lemma NumeralPlain(s: string)
    requires ParseU8(s).Some?
    ensures s != [] && ':' !in s && !IsWhitespace(s[0]) && !IsWhitespace(s[|s| - 1])
  {
    assert forall i :: 0 <= i < |s| ==> s[i] != ':' by {
      forall i | 0 <= i < |s| ensures s[i] != ':' {
        assert IsDigit(s[i]) || s[i] == '+';
      }
    }
  }

  /** The text of an address has no surrounding space and splits at its two colons. */
  lemma FormatPieces(x: MsfIndex)
    requires x.Valid()
    ensures Trim(Format(x)) == Format(x)
    ensures Split(Format(x), ':') == [TwoDigits(x.m), TwoDigits(x.s), TwoDigits(x.f)]
  {
    var a, b, c := TwoDigits(x.m), TwoDigits(x.s), TwoDigits(x.f);
    var t := Format(x);
    assert TrimStart(t) == t;
    assert TrimEnd(t) == t;
    ColonPieces(a, b, c);
  }

  /** Distinct valid addresses have distinct texts. */
  lemma FormatInjective(x: MsfIndex, y: MsfIndex)
    requires x.Valid() && y.Valid() && Format(x) == Format(y)
    ensures x == y
  {
    FormatRoundTrip(x);
    FormatRoundTrip(y);
  }

  lemma {:induction false} SplitNoSep(a: string, sep: char)
    requires sep !in a
    ensures Split(a, sep) == [a]
  {
    if a != [] {
      SplitNoSep(a[1..], sep);
      assert [a[0]] + a[1..] == a;
    }
  }

  lemma {:induction false} SplitCons(a: string, b: string, sep: char)
    requires sep !in a
    ensures Split(a + [sep] + b, sep) == [a] + Split(b, sep)
  {
    if a == [] {
      assert a + [sep] + b == [sep] + b;
      assert ([sep] + b)[1..] == b;
    } else {
      var t := a + [sep] + b;
      assert t[0] == a[0];
      assert t[1..] == a[1..] + [sep] + b;
      SplitCons(a[1..], b, sep);
      assert [a[0]] + a[1..] == a;
    }
  }

  datatype Ordering = Less | Equal | Greater

  /** `Ord::cmp`: addresses compare by their sector numbers. */
  function Cmp(x: MsfIndex, y: MsfIndex): (r: Ordering)
    ensures r == Less <==> ToLba(x) < ToLba(y)
    ensures r == Greater <==> ToLba(y) < ToLba(x)
  {
    if ToLba(x) < ToLba(y) then Less
    else if ToLba(x) == ToLba(y) then Equal
    else Greater
  }

  /** On valid addresses the ordering agrees with equality. */
  lemma CmpEqual(x: MsfIndex, y: MsfIndex)
    requires x.Valid() && y.Valid()
    ensures Cmp(x, y) == Equal <==> x == y
  {
    ToLbaInjective(x, y);
  }

  lemma CmpAntisymmetric(x: MsfIndex, y: MsfIndex)
    ensures Cmp(x, y) == Less <==> Cmp(y, x) == Greater
  {
  }

  lemma CmpTransitive(x: MsfIndex, y: MsfIndex, z: MsfIndex)
    requires Cmp(x, y) == Less && Cmp(y, z) == Less
    ensures Cmp(x, z) == Less
  {
  }

  /** The ordering is lexicographic on (m, s, f) for valid addresses. */
  lemma CmpLexicographic(x: MsfIndex, y: MsfIndex)
    requires x.Valid() && y.Valid()
    ensures Cmp(x, y) == Less <==>
      x.m < y.m || (x.m == y.m && x.s < y.s) || (x.m == y.m && x.s == y.s && x.f < y.f)
  {
    if x.m < y.m {
      assert ToLba(x) < (x.m + 1) * 4500 <= ToLba(y);
    } else if y.m < x.m {
      assert ToLba(y) < (y.m + 1) * 4500 <= ToLba(x);
    } else if x.s < y.s {
      assert x.s * 75 + x.f < (x.s + 1) * 75 <= y.s * 75;
    } else if y.s < x.s {
      assert y.s * 75 + y.f < (y.s + 1) * 75 <= x.s * 75;
    }
  }
}
