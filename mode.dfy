/**
 * Requested permission-bit transformations (src/mode.rs).
 *
 * A `ModeChange` is an additive/subtractive pair of bit masks. It is built
 * from an octal numeral and applied to a file's current mode as
 * `(mode & !subtractive) | additive`.
 */
module Modes {
  import opened Wrappers
  import opened Bits

  /**
   * `libc::mode_t`. The source hands its mode to `libc::chmod` through
   * `as u16`, which only type-checks where `mode_t` is 16 bits wide.
   */
  type ModeT = U16

  /** 0o7777: set-user-id, set-group-id, sticky and the nine rwx bits. */
  const PermissionBits: ModeT := 0xFFF

  datatype ModeChange = ModeChange(additive: ModeT, subtractive: ModeT)

  // ---------------------------------------------------------------------
  // Base-8 numerals: a reference definition of what a numeral denotes.
  // ---------------------------------------------------------------------

  predicate IsOctalDigit(c: char) {
    '0' <= c <= '7'
  }

  predicate AllOctal(s: string) {
    forall i :: 0 <= i < |s| ==> IsOctalDigit(s[i])
  }

  function DigitValue(c: char): (d: nat)
    requires IsOctalDigit(c)
    ensures d < 8
  {
    c as int - '0' as int
  }

  /** The value of a string of octal digits, most significant digit first. */
  function NumeralValue(s: string): nat
    requires AllOctal(s)
  {
    if s == [] then 0 else NumeralValue(s[..|s| - 1]) * 8 + DigitValue(s[|s| - 1])
  }

  /** The digits of a numeral: a single leading '+' is a sign, not a digit. */
  function Digits(s: string): string {
    if |s| > 0 && s[0] == '+' then s[1..] else s
  }

  /** An optional '+' followed by one or more octal digits. */
  predicate IsOctalNumeral(s: string) {
    Digits(s) != [] && AllOctal(Digits(s))
  }

  // ---------------------------------------------------------------------
  // `mode_t::from_str_radix(s, 8)` from Rust's standard library.
  // ---------------------------------------------------------------------

  datatype ParseIntError = Empty | InvalidDigit | PosOverflow

  /**
   * The digit loop of `from_str_radix`: left to right, each step
   * multiplies the accumulator by 8 and adds the next digit, and fails on
   * a character that is not a base-8 digit or on a 16-bit overflow.
   */
  function Accumulate(acc: nat, digits: string): (r: Result<nat, ParseIntError>)
    requires acc < 0x1_0000
    ensures r.Ok? ==> r.value < 0x1_0000
    decreases |digits|
  {
    if digits == [] then Ok(acc)
    else if !IsOctalDigit(digits[0]) then Err(InvalidDigit)
    else
      var next := acc * 8 + DigitValue(digits[0]);
      if next >= 0x1_0000 then Err(PosOverflow) else Accumulate(next, digits[1..])
  }

  /** Dropping digits from the end of a numeral never increases its value. */
  lemma {:induction false} NumeralPrefixBound(s: string, k: nat)
    requires AllOctal(s) && k <= |s|
    ensures AllOctal(s[..k]) && NumeralValue(s[..k]) <= NumeralValue(s)
    decreases |s| - k
  {
    if k < |s| {
      var init := s[..|s| - 1];
      NumeralPrefixBound(init, k);
      assert init[..k] == s[..k];
    } else {
      assert s[..k] == s;
    }
  }

  /**
   * Resuming the digit loop after an already-read prefix yields the value
   * of the whole numeral exactly when every remaining character is a digit
   * and that value fits in 16 bits.
   */
  lemma {:induction false} AccumulateMatchesNumeral(prefix: string, digits: string)
    requires AllOctal(prefix) && NumeralValue(prefix) < 0x1_0000
    ensures var r := Accumulate(NumeralValue(prefix), digits);
            && (r.Ok? <==> AllOctal(prefix + digits) && NumeralValue(prefix + digits) < 0x1_0000)
            && (r.Ok? ==> r.value == NumeralValue(prefix + digits))
    decreases |digits|
  {
    var whole := prefix + digits;
    if digits == [] {
      assert whole == prefix;
    } else if !IsOctalDigit(digits[0]) {
      assert whole[|prefix|] == digits[0];
    } else {
      var longer := prefix + [digits[0]];
      assert longer[..|longer| - 1] == prefix;
      assert AllOctal(longer);
      assert NumeralValue(longer) == NumeralValue(prefix) * 8 + DigitValue(digits[0]);
      assert longer + digits[1..] == whole;
      if NumeralValue(longer) >= 0x1_0000 {
        if AllOctal(whole) {
          NumeralPrefixBound(whole, |longer|);
          assert whole[..|longer|] == longer;
        }
      } else {
        AccumulateMatchesNumeral(longer, digits[1..]);
      }
    }
  }

  /**
   * `from_str_radix(src, 8)` for a 16-bit unsigned type: empty input, a
   * lone sign, a non-digit and an overflow are errors; otherwise the value
   * of the numeral.
   */
  function FromStrRadix8(src: string): (r: Result<ModeT, ParseIntError>)
    ensures r.Ok? <==> IsOctalNumeral(src) && NumeralValue(Digits(src)) < 0x1_0000
    ensures r.Ok? ==> r.value == NumeralValue(Digits(src))
  {
    if src == [] then Err(Empty)
    else if src[0] == '+' && |src| == 1 then Err(InvalidDigit)
    else
      var digits := Digits(src);
      AccumulateMatchesNumeral([], digits);
      assert [] + digits == digits;
      match Accumulate(0, digits)
      case Ok(v) => Ok(v)
      case Err(e) => Err(e)
  }

  // ---------------------------------------------------------------------
  // ModeChange::new and ModeChange::apply
  // ---------------------------------------------------------------------

  /**
   * `ModeChange::new`: an octal numeral becomes the additive mask, and the
   * subtractive mask clears every permission bit; anything that does not
   * parse gives no change.
   */
  function New(modeStr: string): (r: Option<ModeChange>)
    ensures r.Some? <==> IsOctalNumeral(modeStr) && NumeralValue(Digits(modeStr)) < 0x1_0000
    ensures r.Some? ==> r.value.additive == NumeralValue(Digits(modeStr))
    ensures r.Some? ==> r.value.subtractive == PermissionBits
  {
    match FromStrRadix8(modeStr)
    case Ok(modeBits) => Some(ModeChange(modeBits, PermissionBits))
    case Err(_) => None
  }

  /**
   * `ModeChange::apply`, `mode & !subtractive | additive`: every additive
   * bit ends up set, every subtractive bit that is not also additive ends
   * up clear, and every other bit is the current mode's.
   */
  function Apply(change: ModeChange, mode: ModeT): (r: ModeT)
    ensures forall i :: Bit(change.additive, i) ==> Bit(r, i)
    ensures forall i :: Bit(change.subtractive, i) && !Bit(change.additive, i) ==> !Bit(r, i)
    ensures forall i :: !Bit(change.subtractive, i) && !Bit(change.additive, i) ==> (Bit(r, i) <==> Bit(mode, i))
  {
    var kept := And(mode, Not(change.subtractive));
    OrU16(kept, change.additive);
    var r := Or(kept, change.additive);
    forall i: nat
      ensures Bit(r, i) == (Bit(change.additive, i) || (Bit(mode, i) && !Bit(change.subtractive, i)))
    {
      BitOr(kept, change.additive, i);
      BitAnd(mode, Not(change.subtractive), i);
      BitNot(change.subtractive, i);
      if 16 <= i {
        Pow2Values();
        BitAbove(mode, 16, i);
      }
    }
    r
  }

  /** The three bit-level properties in Apply's contract determine its result. */
  lemma ApplyDeterminedByBits(change: ModeChange, mode: ModeT, r: nat)
    requires forall i :: Bit(change.additive, i) ==> Bit(r, i)
    requires forall i :: Bit(change.subtractive, i) && !Bit(change.additive, i) ==> !Bit(r, i)
    requires forall i :: !Bit(change.subtractive, i) && !Bit(change.additive, i) ==> (Bit(r, i) <==> Bit(mode, i))
    ensures r == Apply(change, mode)
  {
    BitsDetermine(r, Apply(change, mode));
  }

  /** Applying a change to its own result changes nothing more. */
  lemma ApplyIdempotent(change: ModeChange, mode: ModeT)
    ensures Apply(change, Apply(change, mode)) == Apply(change, mode)
  {
    var once := Apply(change, mode);
    BitsDetermine(Apply(change, once), once);
  }

  /** Bit `i` of 0o7777 is set exactly for the twelve permission bits. */
  lemma PermissionBit(i: nat)
    ensures Bit(PermissionBits, i) == (i < 12)
  {
    Pow2Values();
    BitOfZero(i);
    BitComplement(12, 0, i);
  }

  /** One bit of the identity behind NewReplacesPermissionBits. */
  lemma ReplacedBit(change: ModeChange, mode: ModeT, i: nat)
    requires change.subtractive == PermissionBits
    ensures Bit(Apply(change, mode), i)
            == Bit(Or(mode / 0x1000, change.additive / 0x1000) * 0x1000 + change.additive % 0x1000, i)
  {
    var high := Or(mode / 0x1000, change.additive / 0x1000);
    Pow2Values();
    PermissionBit(i);
    BitsOfSum(high, change.additive % 0x1000, 12, i);
    if i < 12 {
      BitsOfSum(change.additive / 0x1000, change.additive % 0x1000, 12, i);
    } else {
      BitsOfSum(mode / 0x1000, mode % 0x1000, 12, i);
      BitsOfSum(change.additive / 0x1000, change.additive % 0x1000, 12, i);
      BitOr(mode / 0x1000, change.additive / 0x1000, i - 12);
    }
  }

  /**
   * For a change built by New, the twelve low bits (0o7777) of the result
   * are the numeral's, and the file-type bits above them are the current
   * mode's, joined with whatever the numeral itself sets above 0o7777.
   */
  lemma NewReplacesPermissionBits(modeStr: string, mode: ModeT)
    requires New(modeStr).Some?
    ensures var additive := New(modeStr).value.additive;
            Apply(New(modeStr).value, mode)
            == Or(mode / 0x1000, additive / 0x1000) * 0x1000 + additive % 0x1000
  {
    var change := New(modeStr).value;
    var expected := Or(mode / 0x1000, change.additive / 0x1000) * 0x1000 + change.additive % 0x1000;
    forall i: nat
      ensures Bit(Apply(change, mode), i) == Bit(expected, i)
    {
      ReplacedBit(change, mode, i);
    }
    BitsDetermine(Apply(change, mode), expected);
  }

  /**
   * With a numeral no larger than 0o7777 the permission bits become the
   * numeral and the file-type bits pass through unchanged.
   */
  lemma NewKeepsFileTypeBits(modeStr: string, mode: ModeT)
    requires New(modeStr).Some? && New(modeStr).value.additive <= PermissionBits
    ensures Apply(New(modeStr).value, mode) == mode / 0x1000 * 0x1000 + New(modeStr).value.additive
  {
    NewReplacesPermissionBits(modeStr, mode);
    OrZero(mode / 0x1000);
  }

  // ---------------------------------------------------------------------
  // Octal formatting: the inverse of the parser.
  // ---------------------------------------------------------------------

  function OctalDigitChar(d: nat): (c: char)
    requires d < 8
    ensures IsOctalDigit(c) && DigitValue(c) == d
  {
    ('0' as int + d) as char
  }

  /** The base-8 numeral of `n` without leading zeros (`format!("{:o}", n)`). */
  function Octal(n: nat): (s: string)
    ensures s != [] && AllOctal(s)
    decreases n
  {
    if n < 8 then [OctalDigitChar(n)] else Octal(n / 8) + [OctalDigitChar(n % 8)]
  }

  lemma {:induction false} NumeralValueOfOctal(n: nat)
    ensures NumeralValue(Octal(n)) == n
    decreases n
  {
    if n >= 8 {
      var s := Octal(n);
      assert s[..|s| - 1] == Octal(n / 8);
      NumeralValueOfOctal(n / 8);
    }
  }

  lemma {:induction false} NumeralValueLeadingZero(s: string)
    requires AllOctal(s)
    ensures AllOctal("0" + s) && NumeralValue("0" + s) == NumeralValue(s)
    decreases |s|
  {
    var t := "0" + s;
    if s == [] {
      assert t[..0] == [];
    } else {
      NumeralValueLeadingZero(s[..|s| - 1]);
      assert t[..|t| - 1] == "0" + s[..|s| - 1];
    }
  }

  /** Every 16-bit value survives formatting as octal and parsing back. */
  lemma NewOfOctal(n: ModeT)
    ensures New(Octal(n)) == Some(ModeChange(n, PermissionBits))
  {
    var s := Octal(n);
    NumeralValueOfOctal(n);
    assert Digits(s) == s by { assert IsOctalDigit(s[0]); }
  }

  /** Leading zeros do not change what a numeral parses to. */
  lemma NewIgnoresLeadingZero(modeStr: string)
    requires modeStr != [] && modeStr[0] != '+'
    ensures New("0" + modeStr) == New(modeStr)
  {
    var t := "0" + modeStr;
    assert Digits(t) == t;
    assert t[1..] == modeStr;
    if AllOctal(modeStr) {
      NumeralValueLeadingZero(modeStr);
    } else {
      var i :| 0 <= i < |modeStr| && !IsOctalDigit(modeStr[i]);
      assert t[i + 1] == modeStr[i];
    }
  }

  /** A single leading '+' is accepted as a sign and ignored. */
  lemma NewIgnoresPlusSign(modeStr: string)
    requires modeStr != [] && modeStr[0] != '+'
    ensures New("+" + modeStr) == New(modeStr)
  {
    assert Digits("+" + modeStr) == modeStr;
  }

  /** A character that is neither a digit nor the leading sign makes New fail. */
  lemma NewRejectsNonDigit(modeStr: string, i: nat)
    requires i < |modeStr| && !IsOctalDigit(modeStr[i])
    requires i > 0 || modeStr[0] != '+' || |modeStr| == 1
    ensures New(modeStr) == None
  {
    var digits := Digits(modeStr);
    if |modeStr| > 0 && modeStr[0] == '+' && i > 0 {
      assert digits[i - 1] == modeStr[i];
    }
  }

  /** `test_new_from_octal`: "0644" gives the masks 0o644 and 0o7777. */
  lemma NewFromOctalExample()
    ensures New("0644") == Some(ModeChange(0x1A4, PermissionBits))
  {
  }

  /** `test_new_from_decimal`: "944" is not a base-8 numeral. */
  lemma NewFromDecimalExample()
    ensures New("944") == None
  {
    NewRejectsNonDigit("944", 0);
  }

  /** `test_apply`: "0754" replaces the permission bits and keeps the file type. */
  lemma ApplyExamples()
    ensures New("0754") == Some(ModeChange(0x1EC, PermissionBits))
    ensures Apply(New("0754").value, 0x8FFF) == 0x81EC   // 0o107777 -> 0o100754
    ensures Apply(New("0754").value, 0x41FF) == 0x41EC   // 0o040777 -> 0o040754
    ensures Apply(New("0754").value, 0x81ED) == 0x81EC   // 0o100755 -> 0o100754
    ensures Apply(New("0754").value, 0x11A4) == 0x11EC   // 0o010644 -> 0o010754
    ensures Apply(New("0754").value, 0xF000) == 0xF1EC   // 0o170000 -> 0o170754
  {
    assert New("0754") == Some(ModeChange(0x1EC, PermissionBits));
    NewKeepsFileTypeBits("0754", 0x8FFF);
    assert 0x8FFF / 0x1000 == 8;
    NewKeepsFileTypeBits("0754", 0x41FF);
    assert 0x41FF / 0x1000 == 4;
    NewKeepsFileTypeBits("0754", 0x81ED);
    assert 0x81ED / 0x1000 == 8;
    NewKeepsFileTypeBits("0754", 0x11A4);
    assert 0x11A4 / 0x1000 == 1;
    NewKeepsFileTypeBits("0754", 0xF000);
    assert 0xF000 / 0x1000 == 15;
  }

  /** A numeral above 0o7777 is accepted: "170000" parses to the file-type bits 0o170000. */
  lemma NewAboveMaskExample()
    ensures New("170000") == Some(ModeChange(0xF000, PermissionBits))
  {
  }
}
