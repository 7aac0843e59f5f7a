/** Constants shared by every cache implementation (CacheLinkInterface), and
    the acknowledgement the stand-in backends return for every write. */
module CacheLinkInterface {
  import opened PhpValues

  /** Clear every association level below the named keys. */
  const ClearLevelsAll: string := "all"
  /** Seconds to wait for the coordination service. */
  const DefaultTimeout: int := 5

  /** The `['background' => true]` answer of the in-memory and bypass caches. */
  const Acknowledged: Value := Dict([Entry("background", Bool(true))])
}
