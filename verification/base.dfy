/** Names shared by the server and the desktop. */
module Base {
  datatype Option<+T> = None | Some(value: T)

  /** A credential id; one id names one generation of the guest password. */
  type Id = string

  predicate IdChar(c: char) {
    'A' <= c <= 'Z' || 'a' <= c <= 'z' || '0' <= c <= '9' || c == '_' || c == '-'
  }

  /** The pattern both sides require of a generation: 20 to 64 URL-safe characters. */
  predicate ValidId(s: string) {
    20 <= |s| <= 64 && forall i | 0 <= i < |s| :: IdChar(s[i])
  }

  predicate Digit(c: char) {
    '0' <= c <= '9'
  }

  predicate AllDigits(s: string) {
    s != [] && forall i | 0 <= i < |s| :: Digit(s[i])
  }
}
