/** The login deadline: milliseconds on the server, truncated seconds on the desktop, clocks that disagree. */
module Deadline {
  const SHORTEST_TTL := 60_000
  const LONGEST_TTL := 86_400_000
  const WINDOW := 86_460

  function ExpiresAt(reserved: int, ttl: int): int {
    reserved + ttl
  }

  /** Whole seconds; the division truncates. */
  function Seconds(ms: int): int {
    if ms >= 0 then ms / 1000 else -(-ms / 1000)
  }

  /** What the server sends with an issue command. */
  function DeadlineOf(expires: int): int {
    Seconds(expires)
  }

  /** The check both sides make, at their own second `now`, before they accept a deadline. */
  predicate InWindow(deadline: int, now: int) {
    now < deadline <= now + WINDOW
  }

  /** Every configured lifetime passes the check on any clock from 60 s behind to 59 s ahead of the reservation. */
  lemma DeadlineAccepted(reserved: int, ttl: int, clock: int)
    requires SHORTEST_TTL <= ttl <= LONGEST_TTL
    requires 0 <= reserved && 0 <= clock && reserved - 60_000 <= clock <= reserved + 59_000
    ensures InWindow(DeadlineOf(ExpiresAt(reserved, ttl)), Seconds(clock))
  {
  }

  /** The margins are exact in whole seconds: one second more on either side, some lifetime is refused. */
  lemma MarginsAreTight(reserved: int)
    requires reserved >= 61_000
    ensures !InWindow(DeadlineOf(ExpiresAt(reserved, SHORTEST_TTL)), Seconds(reserved + 60_000))
    ensures !InWindow(DeadlineOf(ExpiresAt(reserved, LONGEST_TTL)), Seconds(reserved - 61_000))
  {
  }

  /** A second before the deadline begins, and under an expiry that is a time also ends, before the expiry. */
  lemma SecondsEndBefore(second: int, expires: int)
    requires second < DeadlineOf(expires)
    ensures second * 1000 < expires && (0 <= expires ==> second * 1000 + 999 < expires)
  {
  }

  /** A login the desktop accepts on the common clock falls strictly before the server's expiry. */
  lemma LoginsEndBeforeExpiry(reserved: int, ttl: int, login: int)
    requires 0 <= login && Seconds(login) < DeadlineOf(ExpiresAt(reserved, ttl))
    ensures login < ExpiresAt(reserved, ttl)
  {
  }
}
