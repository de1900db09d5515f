/** The spelling of account ids. */
module Identifiers {
  predicate IsHex(c: char) {
    '0' <= c <= '9' || 'a' <= c <= 'f'
  }

  /** A UUID spelled canonically: 8-4-4-4-12 lowercase hexadecimal digits. */
  predicate CanonicalUuid(id: string) {
    && |id| == 36
    && (forall i :: 0 <= i < 36 ==> if i == 8 || i == 13 || i == 18 || i == 23 then id[i] == '-' else IsHex(id[i]))
  }
}
