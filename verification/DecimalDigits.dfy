/**
 Which characters are decimal digits: general category Nd of Unicode 15.0, the
 version behind `str.isdecimal` in Python 3.12.
 */
module DecimalDigits {
  /** The zeros of the blocks of ten decimal digits. */
  predicate IsZero(z: int) {
    || z == 0x30 || z == 0x660 || z == 0x6F0 || z == 0x7C0 || z == 0x966 || z == 0x9E6 || z == 0xA66
    || z == 0xAE6 || z == 0xB66 || z == 0xBE6 || z == 0xC66 || z == 0xCE6 || z == 0xD66 || z == 0xDE6
    || z == 0xE50 || z == 0xED0 || z == 0xF20 || z == 0x1040 || z == 0x1090 || z == 0x17E0 || z == 0x1810
    || z == 0x1946 || z == 0x19D0 || z == 0x1A80 || z == 0x1A90 || z == 0x1B50 || z == 0x1BB0 || z == 0x1C40
    || z == 0x1C50 || z == 0xA620 || z == 0xA8D0 || z == 0xA900 || z == 0xA9D0 || z == 0xA9F0 || z == 0xAA50
    || z == 0xABF0 || z == 0xFF10 || z == 0x104A0 || z == 0x10D30 || z == 0x11066 || z == 0x110F0
    || z == 0x11136 || z == 0x111D0 || z == 0x112F0 || z == 0x11450 || z == 0x114D0 || z == 0x11650
    || z == 0x116C0 || z == 0x11730 || z == 0x118E0 || z == 0x11950 || z == 0x11C50 || z == 0x11D50
    || z == 0x11DA0 || z == 0x11F50 || z == 0x16A60 || z == 0x16AC0 || z == 0x16B50 || z == 0x1D7CE
    || z == 0x1D7D8 || z == 0x1D7E2 || z == 0x1D7EC || z == 0x1D7F6 || z == 0x1E140 || z == 0x1E2F0
    || z == 0x1E4F0 || z == 0x1E950 || z == 0x1FBF0
  }

  predicate IsDigit(c: char) {
    exists z :: c as int - 10 < z <= c as int && IsZero(z)
  }

  /** A text `str.isdecimal` accepts. */
  predicate IsDecimal(s: string) {
    s != "" && forall i :: 0 <= i < |s| ==> IsDigit(s[i])
  }

  lemma DigitsAreHigh(c: char)
    requires IsDigit(c)
    ensures c >= '0'
  {
  }

  lemma AsciiDigits(c: char)
    requires '0' <= c <= '9'
    ensures IsDigit(c)
  {
    assert IsZero(0x30);
  }
}
