/**
 Certificate serial numbers: the base-256 to base-10 conversion of ayane/src/ca.rs
 and the spelling normalisation of ayane/src/service.rs.
 */
module Serial {
  import opened Basics
  import opened Decimal
  import opened Text

  /** Rust's `u16`: arithmetic that left this range would be a verification error. */
  newtype u16 = x: int | 0 <= x < 0x1_0000

  /** The number a big-endian byte string denotes. */
  function Magnitude(bytes: Bytes): nat {
    if bytes == [] then 0 else 256 * Magnitude(bytes[..|bytes| - 1]) + bytes[|bytes| - 1] as nat
  }

  // ----- Little-endian decimal digits -----

  ghost predicate Digits(ds: seq<byte>) {
    forall i :: 0 <= i < |ds| ==> ds[i] < 10
  }

  ghost function LittleValue(ds: seq<byte>): nat {
    if ds == [] then 0 else ds[0] as nat + 10 * LittleValue(ds[1..])
  }

  /** The top digit is non-zero unless it is the only one. */
  ghost predicate NoLeadingZero(ds: seq<byte>) {
    ds != [] && (|ds| > 1 ==> ds[|ds| - 1] != 0)
  }

  ghost function Carry(c: nat): (ds: seq<byte>)
    ensures Digits(ds)
  {
    if c == 0 then [] else [(c % 10) as byte] + Carry(c / 10)
  }

  /** The digits of 256 * ds + c. */
  ghost function MulAdd(ds: seq<byte>, c: nat): (r: seq<byte>)
    requires Digits(ds)
    ensures Digits(r)
  {
    if ds == [] then Carry(c)
    else
      var v := ds[0] as nat * 256 + c;
      [(v % 10) as byte] + MulAdd(ds[1..], v / 10)
  }

  lemma {:induction false} CarryValue(c: nat)
    ensures LittleValue(Carry(c)) == c
    ensures c > 0 ==> Carry(c) != [] && Carry(c)[|Carry(c)| - 1] != 0
  {
    if c > 0 {
      CarryValue(c / 10);
      assert Carry(c)[1..] == Carry(c / 10);
    }
  }

  lemma {:induction false} MulAddValue(ds: seq<byte>, c: nat)
    requires Digits(ds)
    ensures LittleValue(MulAdd(ds, c)) == 256 * LittleValue(ds) + c
  {
    if ds == [] {
      CarryValue(c);
    } else {
      var v := ds[0] as nat * 256 + c;
      MulAddValue(ds[1..], v / 10);
      assert MulAdd(ds, c)[1..] == MulAdd(ds[1..], v / 10);
    }
  }

  lemma {:induction false} MulAddTop(ds: seq<byte>, c: nat)
    requires Digits(ds) && ds != [] && ds[|ds| - 1] != 0
    ensures MulAdd(ds, c) != [] && MulAdd(ds, c)[|MulAdd(ds, c)| - 1] != 0
  {
    var v := ds[0] as nat * 256 + c;
    if |ds| == 1 {
      CarryValue(v / 10);
    } else {
      MulAddTop(ds[1..], v / 10);
    }
  }

  lemma MulAddNoLeadingZero(ds: seq<byte>, c: nat)
    requires Digits(ds) && NoLeadingZero(ds)
    ensures NoLeadingZero(MulAdd(ds, c))
  {
    if ds[|ds| - 1] != 0 {
      MulAddTop(ds, c);
    } else {
      CarryValue(c / 10);
      assert MulAdd(ds, c) == [(c % 10) as byte] + Carry(c / 10);
    }
  }

  /** Most significant digit first, as characters. */
  function Render(ds: seq<byte>): (s: string)
    requires forall i :: 0 <= i < |ds| ==> ds[i] < 10
    ensures AllDigits(s) && |s| == |ds|
  {
    if ds == [] then [] else Render(ds[1..]) + [DigitChar(ds[0] as nat)]
  }

  lemma {:induction false} RenderDenotes(ds: seq<byte>)
    requires Digits(ds)
    ensures Value(Render(ds)) == LittleValue(ds)
    ensures ds != [] ==> Render(ds)[0] == DigitChar(ds[|ds| - 1] as nat)
  {
    if ds != [] {
      RenderDenotes(ds[1..]);
      var s := Render(ds);
      assert s[..|s| - 1] == Render(ds[1..]);
    }
  }

  /** One step of the in-place multiplication: digit `i` is final, the carry moves on. */
  lemma MulStep(ds: seq<byte>, i: nat, c: nat)
    requires Digits(ds) && i < |ds|
    ensures
      var v := ds[i] as nat * 256 + c;
      var after := ds[i := (v % 10) as byte];
      Digits(after) && ds[..i] + MulAdd(ds[i..], c) == after[..i + 1] + MulAdd(after[i + 1..], v / 10)
  {
    var v := ds[i] as nat * 256 + c;
    var after := ds[i := (v % 10) as byte];
    assert after[i + 1..] == ds[i..][1..];
    assert after[..i + 1] == ds[..i] + [(v % 10) as byte];
  }

  /** The body of the outer loop: multiply the digits by 256 in place and add one byte. */
  method MultiplyIn(before: seq<byte>, b: byte) returns (digits: seq<byte>)
    requires Digits(before)
    ensures digits == MulAdd(before, b as nat)
  {
    digits := before;
    var carry: u16 := b as u16;
    var i := 0;
    while i < |digits|
      invariant 0 <= i <= |digits|
      invariant carry <= 255
      invariant Digits(digits)
      invariant digits[..i] + MulAdd(digits[i..], carry as nat) == MulAdd(before, b as nat)
    {
      var v := digits[i] as u16 * 256 + carry;
      assert v <= 2559;
      MulStep(digits, i, carry as nat);
      digits := digits[i := (v % 10) as byte];
      carry := v / 10;
      i := i + 1;
    }
    assert digits[..i] == digits;
    while carry > 0
      invariant digits + Carry(carry as nat) == MulAdd(before, b as nat)
    {
      digits := digits + [(carry % 10) as byte];
      carry := carry / 10;
    }
  }

  /** The decimal numeral of a big-endian magnitude, without overflowing a 16-bit carry. */
  method SerialToDecimal(bytes: Bytes) returns (s: string)
    ensures s == Numeral(Magnitude(bytes))
  {
    var digits: seq<byte> := [0];
    for k := 0 to |bytes|
      invariant Digits(digits) && NoLeadingZero(digits)
      invariant LittleValue(digits) == Magnitude(bytes[..k])
    {
      MulAddValue(digits, bytes[k] as nat);
      MulAddNoLeadingZero(digits, bytes[k] as nat);
      assert bytes[..k + 1][..k] == bytes[..k];
      digits := MultiplyIn(digits, bytes[k]);
    }
    assert bytes[..|bytes|] == bytes;
    s := Render(digits);
    RenderDenotes(digits);
    CanonicalIsNumeral(s);
  }

  // ----- Normalisation -----

  predicate IsHexDigit(c: char) {
    IsDigit(c) || 'a' <= c <= 'f' || 'A' <= c <= 'F'
  }

  function HexDigitValue(c: char): (d: nat)
    requires IsHexDigit(c)
    ensures d < 16
  {
    if IsDigit(c) then DigitValue(c)
    else if 'a' <= c <= 'f' then 10 + (c - 'a') as nat
    else 10 + (c - 'A') as nat
  }

  /** A digit's value is its place in the alphabet, in either case. */
  lemma HexAlphabet(c: char)
    ensures
      var lower, upper := "0123456789abcdef", "0123456789ABCDEF";
      && (IsHexDigit(c) <==> c in lower || c in upper)
      && (IsHexDigit(c) ==> c == lower[HexDigitValue(c)] || c == upper[HexDigitValue(c)])
  {
    var lower, upper := "0123456789abcdef", "0123456789ABCDEF";
    if IsDigit(c) {
      assert lower[(c - '0') as int] == c;
    } else if 'a' <= c <= 'f' {
      assert lower[10 + (c - 'a') as int] == c;
    } else if 'A' <= c <= 'F' {
      assert upper[10 + (c - 'A') as int] == c;
    }
  }

  predicate AllHex(s: string) {
    forall i :: 0 <= i < |s| ==> IsHexDigit(s[i])
  }

  /** `hex::decode`: two hexadecimal digits a byte. */
  function HexDecode(s: string): Option<Bytes> {
    if s == [] then Some([])
    else if |s| == 1 || !IsHexDigit(s[|s| - 2]) || !IsHexDigit(s[|s| - 1]) then None
    else match HexDecode(s[..|s| - 2])
      case None => None
      case Some(front) =>
        Some(front + [(16 * HexDigitValue(s[|s| - 2]) + HexDigitValue(s[|s| - 1])) as byte])
  }

  function StripZeros(s: string): string {
    if s != [] && s[0] == '0' then StripZeros(s[1..]) else s
  }

  function HexBody(trimmed: string): Option<string> {
    match StripPrefix(trimmed, "0x")
    case Some(h) => Some(h)
    case None => StripPrefix(trimmed, "0X")
  }

  datatype BadSerial = InvalidHex | InvalidNumber

  /** Normalise a decimal or 0x-hexadecimal serial to a decimal numeral. */
  function NormalizeSerial(input: string): Result<string, BadSerial> {
    var trimmed := Trim(input);
    match HexBody(trimmed)
    case Some(hex) =>
      var padded := if |hex| % 2 == 1 then "0" + hex else hex;
      (match HexDecode(padded)
       case None => Err(InvalidHex)
       case Some(bytes) => Ok(Numeral(Magnitude(bytes))))
    case None =>
      if trimmed == [] || !AllDigits(trimmed) then Err(InvalidNumber)
      else
        var s := StripZeros(trimmed);
        Ok(if s == [] then "0" else s)
  }

  ghost function HexValue(s: string): nat
    requires AllHex(s)
  {
    if s == [] then 0 else 16 * HexValue(s[..|s| - 1]) + HexDigitValue(s[|s| - 1])
  }

  /** The number an accepted spelling denotes. */
  ghost function Denoted(input: string): Option<nat> {
    var trimmed := Trim(input);
    if |trimmed| >= 2 && trimmed[0] == '0' && (trimmed[1] == 'x' || trimmed[1] == 'X') then
      if AllHex(trimmed[2..]) then Some(HexValue(trimmed[2..])) else None
    else if trimmed != [] && AllDigits(trimmed) then Some(Value(trimmed))
    else None
  }

  lemma {:induction false} HexLeadingZero(s: string)
    requires AllHex(s)
    ensures AllHex("0" + s) && HexValue("0" + s) == HexValue(s)
  {
    var z := "0" + s;
    if s == [] {
      assert z[..0] == [];
    } else {
      assert z[..|z| - 1] == "0" + s[..|s| - 1];
      HexLeadingZero(s[..|s| - 1]);
    }
  }

  lemma {:induction false} HexDecodeDenotes(s: string)
    requires |s| % 2 == 0
    ensures HexDecode(s).Some? <==> AllHex(s)
    ensures AllHex(s) ==> Magnitude(HexDecode(s).value) == HexValue(s)
  {
    if s != [] {
      var n := |s|;
      HexDecodeDenotes(s[..n - 2]);
      assert s[..n - 1][..n - 2] == s[..n - 2];
      if AllHex(s) {
        var bytes := HexDecode(s).value;
        assert bytes[..|bytes| - 1] == HexDecode(s[..n - 2]).value;
      } else if AllHex(s[..n - 2]) {
        assert forall i :: 0 <= i < n - 2 ==> s[i] == s[..n - 2][i];
      }
    }
  }

  lemma {:induction false} StripZerosDenotes(s: string)
    requires AllDigits(s)
    ensures AllDigits(StripZeros(s)) && Value(StripZeros(s)) == Value(s)
    ensures StripZeros(s) != [] ==> StripZeros(s)[0] != '0'
  {
    if s != [] && s[0] == '0' {
      StripZerosDenotes(s[1..]);
      LeadingZero(s[1..]);
      assert s == "0" + s[1..];
    }
  }

  lemma PaddingKeepsBadHex(hex: string)
    requires !AllHex(hex)
    ensures !AllHex("0" + hex)
  {
    var i :| 0 <= i < |hex| && !IsHexDigit(hex[i]);
    assert ("0" + hex)[i + 1] == hex[i];
  }

  /** Normalisation is the canonical numeral of the number denoted, or an error. */
  lemma NormalizeIsNumeral(input: string)
    ensures NormalizeSerial(input).Ok? <==> Denoted(input).Some?
    ensures Denoted(input).Some? ==> NormalizeSerial(input) == Ok(Numeral(Denoted(input).value))
  {
    var trimmed := Trim(input);
    match HexBody(trimmed)
    case Some(hex) =>
      var padded := if |hex| % 2 == 1 then "0" + hex else hex;
      HexDecodeDenotes(padded);
      if AllHex(hex) {
        HexLeadingZero(hex);
      } else {
        PaddingKeepsBadHex(hex);
      }
    case None =>
      if trimmed != [] && AllDigits(trimmed) {
        var s := StripZeros(trimmed);
        StripZerosDenotes(trimmed);
        if s != [] { CanonicalIsNumeral(s); }
      }
  }

  /** Two accepted spellings normalise alike exactly when they denote one number. */
  lemma SpellingsAgree(a: string, b: string)
    requires NormalizeSerial(a).Ok? && NormalizeSerial(b).Ok?
    ensures Denoted(a).Some? && Denoted(b).Some?
    ensures NormalizeSerial(a) == NormalizeSerial(b) <==> Denoted(a) == Denoted(b)
  {
    NormalizeIsNumeral(a);
    NormalizeIsNumeral(b);
    if NormalizeSerial(a) == NormalizeSerial(b) {
      NumeralInjective(Denoted(a).value, Denoted(b).value);
    }
  }

  lemma NumeralDenotesItself(n: nat)
    ensures Denoted(Numeral(n)) == Some(n)
  {
    var s := Numeral(n);
    NumeralDenotes(n);
    TrimKeepsTight(s);
    assert !("0x" <= s) && !("0X" <= s) by {
      if |s| > 1 { assert IsDigit(s[1]); }
    }
  }

  lemma NormalizeIdempotent(a: string)
    requires NormalizeSerial(a).Ok?
    ensures NormalizeSerial(NormalizeSerial(a).value) == NormalizeSerial(a)
  {
    NormalizeIsNumeral(a);
    NumeralDenotesItself(Denoted(a).value);
    NormalizeIsNumeral(NormalizeSerial(a).value);
  }

  /**
   A revocation recorded under any accepted spelling is found by a lookup under the decimal
   serial of the certificate, exactly when the spelling denotes the certificate's serial.
   */
  lemma RevocationKeyMatches(spelling: string, serial: Bytes)
    requires NormalizeSerial(spelling).Ok?
    ensures Denoted(spelling).Some?
    ensures NormalizeSerial(spelling).value == Numeral(Magnitude(serial)) <==> Denoted(spelling).value == Magnitude(serial)
  {
    NormalizeIsNumeral(spelling);
    if NormalizeSerial(spelling).value == Numeral(Magnitude(serial)) {
      NumeralInjective(Denoted(spelling).value, Magnitude(serial));
    }
  }
}
