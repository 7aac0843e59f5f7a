# cachelink client, modelled in Dafny

The cachelink PHP client sits in front of a cache-coordination service.
Reads go straight to a Redis-style key-value store when a read connection
is configured. Writes go straight to the store only when a write
connection exists and nothing needs the service: no associations, no
broadcast, and no `from_service`. Everything else becomes an HTTP request
to the service. A cached entry travels as a frozen *item*: a five-element
list tagged `[cachelink_php]`, encoded by a pluggable encoder. One such
encoder is an encrypting decorator that writes `keyId:base64(ciphertext)`
and reads the key ID back when decoding. This is what makes key rotation
work. The package also has an in-process map cache with expiry, a cache
that stores nothing, and millisecond unit constants.

The project models these parts as immutable datatypes and pure functions:

| file | module | models |
|---|---|---|
| `results.dfy` | `Results` | `Option` and `Result` (thrown exceptions become `Err`) |
| `php_values.dfy` | `PhpValues` | the PHP values the client handles (null, bool, int, string, list, associative array), `gettype`, `json_encode`, `strpos` |
| `cache_link_item.dfy` | `CacheLinkItem` | items, `freeze`, `thaw` and the thaw error message |
| `cache_link_encoder.dfy` | `CacheLinkEncoder` | the encoder interface as a pair of functions, with its round-trip law |
| `cache_link_encoder_encrypted.dfy` | `CacheLinkEncoderEncrypted` | constructor validation, `encode`, `decode`, `decodeFail` |
| `service_requests.dfy` | `ServiceRequests` | the `request*` builders, `urlencode` and `makeRequest`'s `background` flag |
| `cache_link_client.dfy` | `CacheLinkClient` | key layout, routing, `thawSerialized`, `directGetMany`, `serviceGetMany`, `directSet`, `serviceSet`, `set`, `clear`, `clearLater`, `triggerClearNow`, and the `*Simple` reads |
| `cache_link_memory.dfy` | `CacheLinkMemory` | the in-process cache, with the clock as a parameter |
| `cache_link_bypass.dfy` | `CacheLinkBypass` | the cache that stores nothing |
| `cache_link_interface.dfy` | `CacheLinkInterface` | the interface constants (`all`, timeout 5) and the `['background' => true]` acknowledgement |
| `cache_link_time.dfy` | `CacheLinkTime` | the millisecond unit constants |

Outside effects are parameters:
- The store is a snapshot map from store key to stored string. A direct read takes the snapshot.
- A service read takes the service's decoded answer: a raw string or null for `get`, and a key-to-raw list (or "not an array") for `getMany`.
- A write returns its plan: the store commands, or the HTTP request it would send.
- The memory cache takes `now` in seconds.
- The coordination service is not part of the source, so how it decodes the path of a single get is an assumption. `ServiceRequests.UrlDecode` is form decoding, the exact inverse of `urlencode`. `ServiceRequests.PathDecode` is standard percent-decoding of a path (section 2.1 of RFC 3986), which keeps `+`. The two agree on every key without a space.
- The cipher, base64 and the base encoder are function parameters. Their inverse laws (`Inverts`, `Base64RoundTrips`, `RoundTrips`) are predicates that a lemma requires; none of them is assumed globally.

The source's code, its doc comments and its tests differ in places; the
model follows the code:
- **Snippet cap.** The 200-character cap on the value snippet in a thaw error applies only when the scalar's string form is longer than 200 (`src/CacheLinkItem.php:131`). The JSON form of a shorter string can be longer than 200 after escaping, and is not capped.
- **Test regex.** The item tests look for `value(` in the thaw message. The code writes `value:(` (`src/CacheLinkItem.php:135`), and the model writes `value:(` too.
- **Repeated keys.** When a key is requested twice, `serviceGetMany` fills only its last position (`src/CacheLinkClient.php:264-266`). Earlier positions become misses, while `directGetMany` returns the item at every position. `CacheLinkClient.ServiceGetMany` states this, `CacheLinkClient.ServiceAgreesWithDirect` proves that the two paths agree everywhere else, and `CacheLinkClient.RepeatedKeyDiverges` gives a concrete case where they differ.

## Model

| member | source | states |
|---|---|---|
| CacheLinkItem.IsHit | src/CacheLinkItem.php:43-46 | a hit exactly when the value is not null; no contract of its own, `IsMiss` states it as the complement |
| CacheLinkItem.IsMiss | src/CacheLinkItem.php:43-54 | an item is a miss exactly when it is not a hit, i.e. when its value is null |
| CacheLinkItem.Miss | src/CacheLinkItem.php:108-110 | the miss for a key carries that key, a null value and a null TTL, and empty associations and metadata |
| CacheLinkItem.Freeze | src/CacheLinkItem.php:91-94 | the frozen form is a five-element list tagged with the identifier, which `thaw` accepts |
| CacheLinkItem.Thaw | src/CacheLinkItem.php:106-117 | null thaws to the key's miss; thaw succeeds exactly on null or an envelope; a thawed envelope re-freezes to the input; any other input fails with the message "CacheLink could not thaw key:(k) type:(t) value:(snippet)" |
| CacheLinkItem.ThawFreeze | src/CacheLinkItem.php:91-113 | thawing a frozen item gives back the item (value, TTL, associations, metadata), under the key it is thawed for |
| CacheLinkItem.ThawFailureNamesKey | src/CacheLinkItem.php:111-116 | anything that is neither null nor an envelope fails, and the message contains `key:(k)` and the `value:(…)` snippet |
| CacheLinkItem.StringifyValueForErrorMessage | src/CacheLinkItem.php:127-136 | `type:(t) value:(snippet)`; no contract of its own, `ThawFailureNamesKey` proves the thaw message carries the `value:(…)` part |
| CacheLinkItem.Snippet | src/CacheLinkItem.php:129-133 | the JSON form, or the first 197 characters and "..." for a scalar over 200; no contract of its own, `LongSnippetIsCapped` and `ShortStringSnippetIsQuoted` state both cases |
| CacheLinkItem.LongSnippetIsCapped | src/CacheLinkItem.php:129-133 | a scalar longer than 200 characters is shown as exactly 200: its first 197 and "..." |
| CacheLinkItem.ShortStringSnippetIsQuoted | src/CacheLinkItem.php:129-131 | a string of at most 200 characters is shown as its quoted, escaped JSON form |
| CacheLinkTime.UnitsChain | src/CacheLinkTime.php:7-11 | a second is 1000 ms and each unit is 60, 60, 24 and 7 times the one before |
| CacheLinkBypass.Get | src/CacheLinkBypass.php:10-13 | a read always misses |
| CacheLinkBypass.GetMany | src/CacheLinkBypass.php:18-21 | one null per requested key |
| CacheLinkBypass.Set | src/CacheLinkBypass.php:26-29 | a set is acknowledged as background work and keeps nothing |
| CacheLinkBypass.Clear | src/CacheLinkBypass.php:34-37 | a clear is acknowledged as background work |
| CacheLinkBypass.ClearLater | src/CacheLinkBypass.php:42-45 | a deferred clear is acknowledged as background work |
| CacheLinkBypass.TriggerClearNow | src/CacheLinkBypass.php:50-53 | a clear trigger is acknowledged as background work |
| CacheLinkMemory.WholeSeconds | src/CacheLinkMemory.php:45 | the TTL in whole seconds, truncated toward zero: within one second of the milliseconds and never beyond them |
| CacheLinkMemory.Get | src/CacheLinkMemory.php:13-25 | a live entry (now no later than its timeout) yields its data and leaves the memory alone; otherwise null, and an expired entry is removed while every other entry stays |
| CacheLinkMemory.GetMany | src/CacheLinkMemory.php:30-37 | one value per key, in order, each what `Get` gives for that key; the memory loses exactly the expired entries among the keys |
| CacheLinkMemory.Set | src/CacheLinkMemory.php:42-49 | the key now holds the value until now plus the whole-second TTL; every other entry is unchanged; the answer is the acknowledgement |
| CacheLinkMemory.Clear | src/CacheLinkMemory.php:54-60 | the listed keys are gone and every other entry is unchanged |
| CacheLinkMemory.ClearLater | src/CacheLinkMemory.php:65-68 | acknowledged; every later read sees what it would have seen before |
| CacheLinkMemory.TriggerClearNow | src/CacheLinkMemory.php:73-76 | acknowledged; every later read sees what it would have seen before |
| CacheLinkMemory.SetThenGet | src/CacheLinkMemory.php:13-19 | a value set at `now` reads back up to and including its timeout second, and reads as null after it |
| CacheLinkMemory.LaterSetWins | src/CacheLinkMemory.php:42-49 | a second set of the same key leaves the memory as if the first had never happened |
| CacheLinkEncoderEncrypted.New | src/CacheLinkEncoderEncrypted.php:29-45 | the constructor accepts exactly a colon-free active key ID with a non-empty key entry ("" and "0" count as empty); a colon is reported first, a missing or empty key second; the encoder built holds exactly the given parts, key ID, keys and fallback flag |
| CacheLinkEncoderEncrypted.Encode | src/CacheLinkEncoderEncrypted.php:50-60 | encoding succeeds exactly when the base encoder and the cipher do, and the text before the output's first colon is the active key ID |
| CacheLinkEncoderEncrypted.FirstColonFollowsKeyId | src/CacheLinkEncoderEncrypted.php:56-73 | in `keyId:rest` with a colon-free key ID, decoding's split finds the key ID and the rest |
| CacheLinkEncoderEncrypted.DecodeFail | src/CacheLinkEncoderEncrypted.php:90-96 | with the fallback flag the base codec decodes the whole value, otherwise the message is thrown; no contract of its own, the three `…Fails` lemmas state it at each call site |
| CacheLinkEncoderEncrypted.Decode | src/CacheLinkEncoderEncrypted.php:65-88 | no usable key ID, or one missing from the key map, goes to the failure policy with the source's message; without the fallback flag a decode succeeds only for a value naming a known key ID |
| CacheLinkEncoderEncrypted.MissingKeyIdFails | src/CacheLinkEncoderEncrypted.php:67-72 | a value with no colon or a colon at position 0 fails as "missing key ID", or is decoded whole by the base codec when the fallback flag is set |
| CacheLinkEncoderEncrypted.UnknownKeyIdFails | src/CacheLinkEncoderEncrypted.php:73-78 | a key ID absent from the key map fails with a message naming it, or falls back to the base codec on the whole value |
| CacheLinkEncoderEncrypted.DecryptFailureFails | src/CacheLinkEncoderEncrypted.php:79-86 | a decryption failure goes through the same throw-or-fall-back policy |
| CacheLinkEncoderEncrypted.BaseFailureAfterDecryptIsFinal | src/CacheLinkEncoderEncrypted.php:79-87 | after a successful decryption the base codec's result on the plaintext is final, whatever the fallback flag |
| CacheLinkEncoderEncrypted.RotatedKeyStillDecodes | src/CacheLinkEncoderEncrypted.php:73-87 | a value written under one key decodes under another encoder while that encoder maps the writer's key ID to the same key |
| CacheLinkEncoderEncrypted.EncodeThenDecode | src/CacheLinkEncoderEncrypted.php:50-87 | with lawful base codec, cipher and base64 and a non-empty key ID, decoding an encoding gives the value back |
| CacheLinkEncoderEncrypted.EmptyKeyIdIsAccepted | src/CacheLinkEncoderEncrypted.php:35-40 | the constructor accepts the empty key ID |
| CacheLinkEncoderEncrypted.EmptyKeyIdOutputIsUndecodable | src/CacheLinkEncoderEncrypted.php:56-72 | an encoder with the empty key ID cannot decode its own output: decoding reports a missing key ID, or hands the undecrypted text to the base codec |
| CacheLinkEncoderEncrypted.NewChecked | src/CacheLinkEncoderEncrypted.php:35-40 | the corrected constructor also refuses the empty key ID and otherwise accepts what the original accepts |
| CacheLinkEncoderEncrypted.CheckedEncoderRoundTrips | src/CacheLinkEncoderEncrypted.php:50-87 | every encoder the corrected constructor builds decodes what it encodes |
| CacheLinkEncoderEncrypted.AsCodec | src/CacheLinkEncoderInterface.php:14-23 | the decorator is a lawful encoder when its parts are, so it can stand in for a base encoder |
| ServiceRequests.UrlRoundTrip | src/CacheLinkClient.php:486 | a service that form-decodes its paths recovers every key from its `urlencode`d path segment |
| ServiceRequests.PathRoundTrip | src/CacheLinkClient.php:486 | a service that percent-decodes its paths recovers every key without a space |
| ServiceRequests.SpaceSurvivesOnlyFormDecoding | src/CacheLinkClient.php:486 | the key `a b` travels as `a+b`; percent-decoding reads it back as `a+b`, form decoding as `a b` |
| ServiceRequests.RequestGet | src/CacheLinkClient.php:484-489 | GET with the given timeout, no body and a path that form-decodes back to the key, and percent-decodes back to it when the key has no space |
| ServiceRequests.RequestGetMany | src/CacheLinkClient.php:491-497 | GET `/` with the given timeout, carrying the keys as the query list |
| ServiceRequests.RequestSet | src/CacheLinkClient.php:499-511 | PUT `/` with the given timeout, whose body names the key, data, TTL, associations and broadcast flag |
| ServiceRequests.RequestClear | src/CacheLinkClient.php:513-523 | DELETE `/` with the given timeout, whose body carries the keys, the levels, and `local` as the negation of broadcast |
| ServiceRequests.RequestClearLater | src/CacheLinkClient.php:525-531 | PUT `/clear-later` with the given timeout, whose body carries the keys |
| ServiceRequests.RequestTriggerClearNow | src/CacheLinkClient.php:533-538 | GET `/clear-now` with the given timeout and no body |
| ServiceRequests.MakeRequest | src/CacheLinkClient.php:467-472 | the request is marked background exactly when the caller does not wait; nothing else changes |
| ServiceRequests.KeyList | src/CacheLinkClient.php:518 | the keys as a JSON list, one string per key, in order |
| CacheLinkClient.NewClient | src/CacheLinkClient.php:43-48 | a new client has the given timeout, no store connections, no separate decoder and no handler |
| CacheLinkClient.NewClientDefaultTimeout | src/CacheLinkClient.php:43 | with the timeout omitted, a new client waits 5 seconds for the service |
| CacheLinkClient.NewClientUsesService | src/CacheLinkClient.php:43-48 | a new client sends every read and every set to the service, whatever the options |
| CacheLinkClient.SetupDirectRedis | src/CacheLinkClient.php:59-69 | installs the read and write connections and the prefix and keeps the timeout, handler, encoder and decoder |
| CacheLinkClient.KeyLayout | src/CacheLinkClient.php:64-68 | data keys (`prefix d:`) and marker keys (`prefix i:`) never collide, and each names a single cache key |
| CacheLinkClient.GetDecoder | src/CacheLinkClient.php:99-105 | the separate decoder when one is set, and otherwise the encoder |
| CacheLinkClient.ReadRoute | src/CacheLinkClient.php:390-404 | direct exactly with a read connection and without a literal-true `from_service`; no contract of its own, `DirectIffConfigured` and `OnlyLiteralTrueCounts` state it |
| CacheLinkClient.SetRoute | src/CacheLinkClient.php:416-419 | direct exactly with a write connection, empty associations, and neither `from_service` nor `broadcast` literally true; no contract of its own, `AssociationsOrBroadcastUseService`, `DirectIffConfigured` and `OnlyLiteralTrueCounts` state it |
| CacheLinkClient.AssociationsOrBroadcastUseService | src/CacheLinkClient.php:414-424 | a set with associations or a broadcast always goes to the service |
| CacheLinkClient.DirectIffConfigured | src/CacheLinkClient.php:388-424 | reads are direct exactly when a read connection exists and `from_service` is not literally true; sets are direct when a write connection exists, the associations are empty and neither `from_service` nor `broadcast` is literally true, and only with a write connection |
| CacheLinkClient.OnlyLiteralTrueCounts | src/CacheLinkClient.php:390-419 | an option set to anything but literal `true` routes as if it were absent |
| CacheLinkClient.Unserialize | src/CacheLinkClient.php:150-159 | a null raw value is null without decoding; anything else is what the decoder makes of it |
| CacheLinkClient.ThawSerialized | src/CacheLinkClient.php:171-192 | null is the key's miss; a decode or thaw failure carries the key and raw value, is thrown without a handler, and becomes a reported miss with one |
| CacheLinkClient.StoredItemReadsBack | src/CacheLinkClient.php:171-175 | whatever the encoder wrote for a frozen item thaws back to that item |
| CacheLinkClient.ThawEach | src/CacheLinkClient.php:232-236 | thawing a batch gives item i from raw value i in order, and fails exactly when some key's thaw throws |
| CacheLinkClient.DirectGet | src/CacheLinkClient.php:201-207 | a key the store does not hold is a plain miss; the item carries the key; it throws exactly when the stored value fails to decode or thaw and no handler is set |
| CacheLinkClient.DirectGetEach | src/CacheLinkClient.php:219-221 | item i is what `directGet` gives for key i, and the batch succeeds exactly when every key does |
| CacheLinkClient.MGet | src/CacheLinkClient.php:224-231 | one stored value per key, read from the key's data key |
| CacheLinkClient.DirectGetMany | src/CacheLinkClient.php:216-237 | item i is what a direct get of key i gives, on both the single-node and the cluster path; the batch succeeds exactly when every key does |
| CacheLinkClient.ClusterMatchesSingleNode | src/CacheLinkClient.php:218-236 | for a list of keys, one get per key and one multi-get give the same result |
| CacheLinkClient.IndexByKey | src/CacheLinkClient.php:263-266 | every requested key is indexed, at the last position where it occurs |
| CacheLinkClient.IndexExtends | src/CacheLinkClient.php:263-266 | writing a key's position over its earlier entry keeps the index pointing at the last occurrence of every key |
| CacheLinkClient.FillOne | src/CacheLinkClient.php:270-277 | one answer entry fills at most its own key's last position, and only when its value is non-null; filled positions stay filled; a throw needs a missing handler |
| CacheLinkClient.FillOneKeeps | src/CacheLinkClient.php:270-277 | an entry that thaws to the expected item succeeds, keeps every filled slot expected, and fills its key's last position when non-null |
| CacheLinkClient.FillSlots | src/CacheLinkClient.php:270-278 | only positions of requested keys with non-null answers are filled, each at the last position of its key; a throw needs a missing handler |
| CacheLinkClient.ServiceGetMany | src/CacheLinkClient.php:261-288 | one item per key with that key; a key's earlier positions are misses; keys with no or a null answer are misses; a non-array answer gives all misses; with a handler that returns it never throws |
| CacheLinkClient.FillSlotsFails | src/CacheLinkClient.php:270-278 | filling the slots throws exactly when some non-null answer for a requested key fails to thaw without a handler |
| CacheLinkClient.FillSlotsFromStore | src/CacheLinkClient.php:270-278 | when the answer comes from the store, each filled slot holds what a direct get returns, and each last position of an answered key is filled |
| CacheLinkClient.ServiceThrowsIffDirectThrows | src/CacheLinkClient.php:216-288 | for a list of keys, on the same data the direct multi-get throws exactly when the service multi-get throws |
| CacheLinkClient.ServiceAgreesWithDirect | src/CacheLinkClient.php:216-288 | for a list of keys, on the same data the service and direct multi-gets agree at the last position of every key, and the service gives a miss everywhere else |
| CacheLinkClient.RepeatedKeyDiverges | src/CacheLinkClient.php:264-266 | for keys ["a","a"] the service path misses at position 0 where the direct path hits |
| CacheLinkClient.ServiceGetRequest | src/CacheLinkClient.php:246-252 | a single service read waits, uses the client's timeout and asks for the key's path |
| CacheLinkClient.ServiceGetManyRequest | src/CacheLinkClient.php:261-268 | a service multi-get waits, uses the client's timeout and asks for exactly the keys |
| CacheLinkClient.Get | src/CacheLinkClient.php:388-396 | a read goes to the store or to the service as the route says, and returns an item for the key asked |
| CacheLinkClient.GetMany | src/CacheLinkClient.php:401-409 | a multi-get goes where the route says and returns one item per key, in order; with a handler that returns it never throws |
| CacheLinkClient.GetSimple | src/CacheLinkClient.php:367-370 | the value of the item `get` returns |
| CacheLinkClient.GetManySimple | src/CacheLinkClient.php:375-383 | one value per key, in order, the values of `getMany`'s items |
| CacheLinkClient.DirectSet | src/CacheLinkClient.php:300-328 | two commands: set the data key with the TTL as PX, then delete the marker key; pipelined on a single node only; it fails exactly when encoding fails |
| CacheLinkClient.DirectSetThenGet | src/CacheLinkClient.php:300-312 | with a positive TTL, after the commands run a direct get returns the item that was set (value, TTL, metadata, no associations) and the marker is gone; with a TTL the store refuses, the data key is untouched, the marker is deleted only when pipelined, and a direct get reads what it read before |
| CacheLinkClient.DirectSetReport | src/CacheLinkClient.php:329-336 | success exactly when the first reply is status OK; always `directSet` and zero cleared associations |
| CacheLinkClient.ServiceSet | src/CacheLinkClient.php:354-362 | a PUT to `/` whose body carries the key, the encoded frozen item with its associations, the TTL and the broadcast flag; the client's timeout; background exactly when not waiting; it fails exactly when encoding fails |
| CacheLinkClient.ServiceSetReadsBack | src/CacheLinkClient.php:354-362 | the `data` a service set sends thaws, under the key it names, back to the item with its associations |
| CacheLinkClient.Set | src/CacheLinkClient.php:414-424 | the direct route is `directSet` of the item without associations, the service route is `serviceSet` with broadcast and wait as their literal-true readings |
| CacheLinkClient.SetThenDirectGet | src/CacheLinkClient.php:414-424 | after a `set` with a positive TTL that the route sends to the store, a `get` that reads the store returns the item: value, TTL and metadata, no associations; with a TTL the store refuses, the `get` reads what it read before |
| CacheLinkClient.Clear | src/CacheLinkClient.php:429-435 | a DELETE of `/` with the client's timeout; the body is local exactly when `broadcast` is literally false; levels and keys pass through; background unless `wait` is literally true |
| CacheLinkClient.ClearDefaults | src/CacheLinkClient.php:429-435 | a clear with the default arguments clears level `all` in every data center, in the background |
| CacheLinkClient.ClearLater | src/CacheLinkClient.php:440-445 | a PUT to `/clear-later` with the keys and the client's timeout; background unless `wait` is literally true |
| CacheLinkClient.TriggerClearNow | src/CacheLinkClient.php:450-455 | a GET of `/clear-now` with no body and the client's timeout; background unless `wait` is literally true |
| PhpValues.FirstIndexOf | src/CacheLinkEncoderEncrypted.php:67 | `strpos` of a character: no result exactly when the character is absent, otherwise its first position |

## Left out

- HTTP transport is not modelled: Guzzle, `json_decode` of the response, and the wrapping of server errors. The service's decoded answer is a parameter.
- Store commands are applied to a snapshot. Expiry itself is not modelled: a key set with a positive PX stays until it is overwritten or deleted. `isRedisCluster` is a topology field of the configuration.
- CacheLinkClient.DirectSetThenGet: the store refuses `SET ... PX n` for n <= 0 and leaves the key as it was; pipelined, the `DEL` of the marker still runs, one by one it does not. Predis then throws the error reply, which the model does not return: `DirectSet` yields the write plan, and the lemma states the store after it.
- CacheLinkClient.SetThenDirectGet: for a TTL the store refuses it states only that the read is unchanged, for the reason above.
- The AES-256-CBC encoder and its random IV are not modelled. The cipher is a deterministic pair of functions with an inverse law.
- base64 is a function pair with a round-trip law.
- The standard encoder (`serialize`/`unserialize`) is any codec that satisfies the round-trip law.
- `iconv` conversion is not modelled: the working encoding is taken to be UTF-8.
- Exception classes and their numeric codes are not modelled. Failures are `Err` values that carry a message, and for unserialize failures the key and the raw value.
- The unserialize handler's side effects are not modelled. The model records that the handler was called, and with which error.
- Floats and objects are not among the modelled PHP values.
- Item getters are the datatype's field selectors, so they return the constructor arguments by construction.
- CacheLinkItem.Thaw: PHP throws a TypeError when slot 3 or 4 of an envelope is not an array. The model accepts any value there.
- PhpValues.Json: `json_encode` escapes non-ASCII UTF-8 as `\u` sequences and yields `false` on invalid UTF-8. The model copies such characters through; this matters only for the exact snippet text of a thaw error.
- ServiceRequests.UrlEncodeChar: strings are byte strings in PHP. A character above 0xFF has no PHP counterpart and is passed through unchanged.
- CacheLinkMemory.Get: the clock is one `now` parameter per call, not `time()`.
- CacheLinkMemory.Set: the associations and options arguments are ignored by the source, so they are not parameters.
- CacheLinkClient.Get: a single service read takes the answer as a raw string or null. An answer of another JSON type is not modelled.
- ServiceRequests.UrlRoundTrip: holds only for a service that form-decodes its paths. The service is not part of the source. Under standard percent-decoding a key with a space is read back with `+` in its place (`SpaceSurvivesOnlyFormDecoding`).
- CacheLinkClient.DirectGetMany: for an empty key list on a single node the model returns an empty result. The source sends `MGET` with no keys, which the store rejects as a wrong number of arguments, and Predis throws that reply before any thaw. Store error replies are not modelled, so `ClusterMatchesSingleNode` also covers this input.
- CacheLinkClient.GetMany: "with a handler it never throws" does not cover store errors, such as the empty single-node `MGET` above.
- CacheLinkClient.GetMany: key arrays are taken to be lists, with keys 0 to n-1, and are modelled as sequences. PHP accepts any array, such as `[1 => 'a']` from `array_filter`. For such an array the cluster path's `array_map` keeps the caller's keys (`src/CacheLinkClient.php:223`), the `MGET` path reads `$keys[$index]` at offsets that may be undefined and so builds items with a null key (`:233`), and `serviceGetMany` indexes by the array's own keys (`:264-265`, `:282`).
- CacheLinkClient.DirectGetMany: proved for list-shaped key arrays only; see the `CacheLinkClient.GetMany` line above for what the source does with other arrays.
- CacheLinkClient.ServiceGetMany: proved for list-shaped key arrays only, as above.
- CacheLinkClient.ClusterMatchesSingleNode: holds for list-shaped key arrays only. For other arrays the two PHP paths give results under different keys, and the `MGET` path reads undefined offsets.
- CacheLinkClient.ServiceAgreesWithDirect: holds for list-shaped key arrays only, for the same reason.
- CacheLinkClient.ServiceThrowsIffDirectThrows: holds for list-shaped key arrays only, for the same reason. Which error each path throws is not compared: the direct path throws for the first failing key in request order, the service path for the first in the answer's order.
- CacheLinkClient.ThawSerialized: the unserialize handler is assumed to return normally. A handler that throws propagates out of `thawSerialized` (`src/CacheLinkClient.php:185-187`), and so out of `get` and `getMany`. The "never throws with a handler" clauses of `ThawSerialized`, `ServiceGetMany` and `GetMany` hold only for such a handler.
- PhpValues.ScalarString: PHP 7 is assumed, where `strlen` of an array yields null with a warning. On PHP 8 it throws a TypeError in the thaw error path (`src/CacheLinkItem.php:131`), which the `catch (\Exception)` of `thawSerialized` does not catch.
- PhpValues.Value: PHP turns an array key that is a decimal integer string into an int. The model keeps `Dict` names as strings, apart from list positions. So a `Dict` named "0" to "4" is a different value from the five-element list, and `Thaw` rejects it, while PHP treats the two as the same array. Likewise `serviceGetMany` gives a requested key such as "42" an int key in PHP, while the model keeps the string.
- CacheLinkMemory.WholeSeconds: exact truncation toward zero. PHP divides in floating point when the milliseconds are not a multiple of 1000, which matches only below about 2^53 ms. `time()` plus the seconds also turns into a float beyond `PHP_INT_MAX`. Neither limit is modelled.
- The server-side nested clear results are passed through by the source, and are not modelled.

## Findings

| source | as written | input that shows it | evidently intended | confidence | as-written member | corrected member |
|---|---|---|---|---|---|---|
| src/CacheLinkEncoderEncrypted.php:35-40, 67-72 | the constructor accepts the empty active key ID, so every encoded value starts with `:`, and `decode`'s `!$colon` test reads a colon at position 0 as a missing key ID | active key ID `""` with keys `{"": "k"}`: `decode(encode(x))` throws "missing key ID" (or, with the fallback flag, base-decodes the ciphertext) | the constructor refuses an empty key ID, so every encoder it builds round-trips | high, not executed | CacheLinkEncoderEncrypted.EmptyKeyIdOutputIsUndecodable | CacheLinkEncoderEncrypted.NewChecked |
