/** What the atomic and the interleaved view of the session manager have in common. */
module TokenIndex {

  /** No session can be added; a cap of zero or less is none. */
  predicate AtCap(maxSessions: int, held: nat) {
    maxSessions > 0 && held >= maxSessions
  }

  /** The index without a token; a session that was never given one has the empty token. */
  function Without<V>(index: map<string, V>, token: string): map<string, V> {
    if token == "" then index else index - {token}
  }
}
