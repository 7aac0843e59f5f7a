/** Millisecond durations offered to callers for TTLs (CacheLinkTime). */
module CacheLinkTime {

  const Seconds: nat := 1000
  const Minutes: nat := 60000
  const Hours: nat := 3600000
  const Days: nat := 86400000
  const Weeks: nat := 604800000

  /** Each unit is the previous one times the number of those in it,
      starting from one thousand milliseconds in a second. */
  lemma UnitsChain()
    ensures Seconds == 1000
    ensures Minutes == 60 * Seconds
    ensures Hours == 60 * Minutes
    ensures Days == 24 * Hours
    ensures Weeks == 7 * Days
  {
  }
}
