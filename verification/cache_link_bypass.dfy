/** The cache that stores nothing (CacheLinkBypass): every read misses and
    every write is acknowledged. It keeps no state, so a read can never see
    an earlier write. */
module CacheLinkBypass {
  import opened PhpValues
  import opened CacheLinkInterface

  function Get(key: string): (r: Value)
    ensures r == Null
  {
    Null
  }

  /** One null per requested key. */
  function GetMany(keys: seq<string>): (r: seq<Value>)
    ensures |r| == |keys|
    ensures forall i :: 0 <= i < |r| ==> r[i] == Null
  {
    seq(|keys|, i => Null)
  }

  function Set(key: string, value: Value, millis: int, associations: Value): (r: Value)
    ensures r == Acknowledged
  {
    Acknowledged
  }

  function Clear(keys: seq<string>, levels: string): (r: Value)
    ensures r == Acknowledged
  {
    Acknowledged
  }

  function ClearLater(keys: seq<string>): (r: Value)
    ensures r == Acknowledged
  {
    Acknowledged
  }

  function TriggerClearNow(): (r: Value)
    ensures r == Acknowledged
  {
    Acknowledged
  }
}
