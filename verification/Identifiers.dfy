/** The identifier grammar shared by clusters, keys, policies, protector
    profiles and recovery packages. */
module Identifiers {

  predicate IsDigit(c: char) {
    '0' <= c <= '9'
  }

  predicate IsAlphanumeric(c: char) {
    'A' <= c <= 'Z' || 'a' <= c <= 'z' || IsDigit(c)
  }

  predicate IsIdentifierChar(c: char) {
    IsAlphanumeric(c) || c == '.' || c == '_' || c == '-'
  }

  const MAX_IDENTIFIER_LENGTH := 128

  /** One alphanumeric character, then up to 127 identifier characters. */
  predicate ValidIdentifier(raw: string) {
    && 0 < |raw| <= MAX_IDENTIFIER_LENGTH
    && IsAlphanumeric(raw[0])
    && forall i | 0 <= i < |raw| :: IsIdentifierChar(raw[i])
  }

  /** The grammar by character codes: letters and digits, and from the second
      character on also '-', '.' and '_'; 1 to 128 characters. */
  lemma IdentifierGrammar(raw: string)
    ensures ValidIdentifier(raw) <==>
              && 1 <= |raw| <= 128
              && (forall i | 0 <= i < |raw| ::
                    || 48 <= raw[i] as int <= 57 || 65 <= raw[i] as int <= 90 || 97 <= raw[i] as int <= 122
                    || (i > 0 && raw[i] as int in {45, 46, 95}))
  {
  }
}
