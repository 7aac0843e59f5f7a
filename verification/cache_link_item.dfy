/** A cache entry and its envelope wire format (CacheLinkItem): an item is
    frozen into a tagged five-element list before it is encoded, and thawed
    back from whatever the decoder returns. */
module CacheLinkItem {
  import opened Results
  import opened PhpValues

  /** The tag in the first slot of every frozen item. */
  const ItemIdentifier: string := "[cachelink_php]"

  /** The longest scalar text copied verbatim into a thaw error message. */
  const MaxValLength: nat := 200

  /** A cached entry. `millis`, `associations` and `metadata` are whatever
      PHP values the item was built or thawed from; the getters of the
      source are the field selectors. */
  datatype Item = Item(key: string, value: Value, millis: Value, associations: Value, metadata: Value)

  /** An item holding a value. */
  predicate IsHit(item: Item) {
    item.value != Null
  }

  /** An item holding no value; always the opposite of `IsHit`. */
  predicate IsMiss(item: Item): (b: bool)
    ensures b <==> !IsHit(item)
  {
    item.value == Null
  }

  /** The miss for `key`: null value and TTL, empty associations and metadata. */
  function Miss(key: string): (r: Item)
    ensures r.key == key && IsMiss(r)
    ensures r.millis == Null && r.associations == List([]) && r.metadata == List([])
  {
    Item(key, Null, Null, List([]), List([]))
  }

  /** The envelope shape `thaw` accepts: a five-element list whose first
      element is the identifier tag. */
  predicate IsEnvelope(raw: Value) {
    raw.List? && |raw.items| == 5 && raw.items[0] == Str(ItemIdentifier)
  }

  /** The wire form of an item: always an envelope `thaw` accepts. */
  function Freeze(item: Item): (r: Value)
    ensures IsEnvelope(r)
  {
    List([Str(ItemIdentifier), item.value, item.millis, item.associations, item.metadata])
  }

  /** Rebuilds the item stored under `key` from its wire form: null is a miss,
      an envelope is the item it carries, anything else is an error whose
      message names the key and shows the bad value. */
  function Thaw(key: string, raw: Value): (r: Result<Item, string>)
    ensures raw == Null ==> r == Ok(Miss(key))
    ensures r.Ok? <==> raw == Null || IsEnvelope(raw)
    ensures r.Ok? ==> r.value.key == key
    ensures r.Ok? && raw != Null ==> Freeze(r.value) == raw
    ensures r.Err? ==> r.error == "CacheLink could not thaw " + KeyLabel(key) + " " + StringifyValueForErrorMessage(raw)
  {
    if raw == Null then Ok(Miss(key))
    else if IsEnvelope(raw) then Ok(Item(key, raw.items[1], raw.items[2], raw.items[3], raw.items[4]))
    else Err("CacheLink could not thaw " + KeyLabel(key) + " " + StringifyValueForErrorMessage(raw))
  }

  /** How a thaw error message names the key. */
  function KeyLabel(key: string): string {
    "key:(" + key + ")"
  }

  /** How a thaw error message shows the bad value. */
  function ValueLabel(v: Value): string {
    "value:(" + Snippet(v) + ")"
  }

  /** The bad value as shown in a thaw error: its type and its snippet. */
  function StringifyValueForErrorMessage(v: Value): string {
    "type:(" + TypeName(v) + ") " + ValueLabel(v)
  }

  /** A scalar whose string form is longer than `MaxValLength` is cut to its
      first `MaxValLength - 3` bytes followed by "..."; any other value is
      shown as its JSON encoding. */
  function Snippet(v: Value): string {
    match ScalarString(v)
    case Some(t) =>
      if |t| > MaxValLength then t[..MaxValLength - 3] + "..." else Json(v)
    case None => Json(v)
  }

  /** Thawing a frozen item gives back the item, renamed to the key asked for. */
  lemma ThawFreeze(key: string, item: Item)
    ensures Thaw(key, Freeze(item)) == Ok(item.(key := key))
  {
  }

  /** A thaw failure happens exactly off the envelope shape, and its message
      names the key as `key:(k)` and carries the value's snippet. */
  lemma ThawFailureNamesKey(key: string, raw: Value)
    requires raw != Null && !IsEnvelope(raw)
    ensures Thaw(key, raw).Err?
    ensures Contains(Thaw(key, raw).error, KeyLabel(key))
    ensures Contains(Thaw(key, raw).error, ValueLabel(raw))
  {
    var head := "CacheLink could not thaw ";
    var typed := "type:(" + TypeName(raw) + ") ";
    OccursSecond(head, KeyLabel(key), " ", StringifyValueForErrorMessage(raw));
    OccursLast(head + KeyLabel(key) + " ", typed, ValueLabel(raw));
  }

  /** The second piece of a four-part concatenation occurs in it. */
  lemma OccursSecond(a: string, t: string, b: string, c: string)
    ensures Contains(a + t + b + c, t)
  {
    assert (a + t + b + c)[|a|..|a| + |t|] == t;
    assert OccursAt(a + t + b + c, t, |a|);
  }

  /** The last piece of `a + (b + t)` occurs in it. */
  lemma OccursLast(a: string, b: string, t: string)
    ensures Contains(a + (b + t), t)
  {
    assert (a + (b + t))[|a| + |b|..|a| + |b| + |t|] == t;
    assert OccursAt(a + (b + t), t, |a| + |b|);
  }

  /** A string (or other scalar) longer than the cap is shown as exactly
      `MaxValLength` characters: its first 197 bytes and "...". */
  lemma LongSnippetIsCapped(v: Value, t: string)
    requires ScalarString(v) == Some(t) && |t| > MaxValLength
    ensures |Snippet(v)| == MaxValLength
    ensures Snippet(v) == t[..MaxValLength - 3] + "..."
  {
  }

  /** A string no longer than the cap is shown quoted, as JSON. */
  lemma ShortStringSnippetIsQuoted(s: string)
    requires |s| <= MaxValLength
    ensures Snippet(Str(s)) == JsonString(s)
  {
    assert ScalarString(Str(s)) == Some(s);
  }
}
