/** Printed identifiers. */
module Uuid {

  predicate IsHexDigit(c: char) {
    'a' <= c <= 'f' || '0' <= c <= '9'
  }

  /** 8-4-4-4-12 lowercase hexadecimal digits (section 4 of RFC 9562). */
  predicate IsUuid(s: string) {
    |s| == 36 &&
    forall i | 0 <= i < 36 :: if i in {8, 13, 18, 23} then s[i] == '-' else IsHexDigit(s[i])
  }
}
