/** The routing client (CacheLinkClient). Reads go straight to the key-value
    store when a read connection is configured, writes when a write
    connection is configured and nothing needs the coordination service;
    everything else becomes a request to the service. The store and the
    service are outside the model: a direct read takes a snapshot of the
    store, a service read takes the service's answer, and a write returns
    the commands or the request it would issue. */
module CacheLinkClient {
  import opened Results
  import opened PhpValues
  import opened CacheLinkItem
  import opened CacheLinkEncoder
  import opened ServiceRequests
  import opened CacheLinkInterface

  /** Whether a store connection is a single node or a cluster. */
  datatype Topology = SingleNode | Cluster

  /** The client's configuration: service timeout, optional read and write
      store connections, the store key prefix, the encoder, an optional
      separate decoder, and whether an unserialize handler is registered. */
  datatype Config = Config(
    timeout: int,
    read: Option<Topology>,
    write: Option<Topology>,
    prefix: string,
    encoder: Codec,
    decoder: Option<Codec>,
    hasHandler: bool)

  /** `setupDirectRedis`: installs the store connections and the prefix. */
  function SetupDirectRedis(cfg: Config, read: Option<Topology>, write: Option<Topology>, prefix: string)
    : (r: Config)
    ensures r.read == read && r.write == write && r.prefix == prefix
    ensures r.timeout == cfg.timeout && r.hasHandler == cfg.hasHandler
    ensures r.encoder == cfg.encoder && r.decoder == cfg.decoder
  {
    cfg.(read := read, write := write, prefix := prefix)
  }

  /** `new CacheLinkClient($url, $timeout)`: the given timeout (5 seconds
      when omitted), no store connections, no separate decoder and no
      unserialize handler; every call therefore goes to the service. */
  function NewClient(encoder: Codec, timeout: int := DefaultTimeout): (r: Config)
    ensures r.timeout == timeout && r.encoder == encoder
    ensures r.read.None? && r.write.None? && r.decoder.None? && !r.hasHandler
  {
    Config(timeout, None, None, "", encoder, None, false)
  }

  /** Omitting the timeout gives the interface's default of 5 seconds. */
  lemma NewClientDefaultTimeout(encoder: Codec)
    ensures NewClient(encoder).timeout == 5
  {
  }

  /** Where the store keeps the value of `key`. */
  function DataKey(cfg: Config, key: string): string {
    cfg.prefix + "d:" + key
  }

  /** Where the store keeps the pending-invalidation marker of `key`. */
  function InKey(cfg: Config, key: string): string {
    cfg.prefix + "i:" + key
  }

  /** The two key spaces never meet, and each names one cache key. */
  lemma KeyLayout(cfg: Config, k1: string, k2: string)
    ensures DataKey(cfg, k1) != InKey(cfg, k2)
    ensures DataKey(cfg, k1) == DataKey(cfg, k2) ==> k1 == k2
    ensures InKey(cfg, k1) == InKey(cfg, k2) ==> k1 == k2
  {
    var p := |cfg.prefix|;
    assert DataKey(cfg, k1)[p] == 'd';
    assert InKey(cfg, k2)[p] == 'i';
    assert DataKey(cfg, k1)[p + 2..] == k1;
    assert DataKey(cfg, k2)[p + 2..] == k2;
    assert InKey(cfg, k1)[p + 2..] == k1;
    assert InKey(cfg, k2)[p + 2..] == k2;
  }

  /** The decoder: the separate one if set, otherwise the encoder. */
  function GetDecoder(cfg: Config): (c: Codec)
    ensures cfg.decoder.None? ==> c == cfg.encoder
    ensures cfg.decoder.Some? ==> c == cfg.decoder.value
  {
    cfg.decoder.GetOr(cfg.encoder)
  }

  /** The decoder reads back everything the encoder writes. */
  ghost predicate DecoderInvertsEncoder(cfg: Config) {
    forall v :: cfg.encoder.encode(v).Ok? ==> GetDecoder(cfg).decode(cfg.encoder.encode(v).value) == Ok(v)
  }

  // ---------------------------------------------------------------------
  // Per-call options and routing

  /** The options array of a call. */
  type Options = map<string, Value>

  /** An option counts only when it is literally `true`. */
  predicate OptionIsTrue(opts: Options, name: string) {
    name in opts && opts[name] == Bool(true)
  }

  /** ...or, for `broadcast` of a clear, literally `false`. */
  predicate OptionIsFalse(opts: Options, name: string) {
    name in opts && opts[name] == Bool(false)
  }

  datatype Route = Direct | Service

  /** `get` and `getMany` read the store directly unless there is no read
      connection or the caller forces the service. */
  function ReadRoute(cfg: Config, opts: Options): Route {
    if cfg.read.Some? && !OptionIsTrue(opts, "from_service") then Direct else Service
  }

  /** `set` writes the store directly only with a write connection, without
      `from_service`, without associations and without `broadcast`. */
  function SetRoute(cfg: Config, associations: Value, opts: Options): Route {
    if cfg.write.Some? && !OptionIsTrue(opts, "from_service") && IsEmptyArray(associations)
       && !OptionIsTrue(opts, "broadcast")
    then Direct else Service
  }

  /** Associations and broadcasts need the service: such a set is never
      direct, whatever connections are configured. */
  lemma AssociationsOrBroadcastUseService(cfg: Config, associations: Value, opts: Options)
    requires !IsEmptyArray(associations) || OptionIsTrue(opts, "broadcast")
    ensures SetRoute(cfg, associations, opts) == Service
  {
  }

  /** A direct read or write happens exactly when the connection exists and
      no literal `true` forces the service. */
  lemma DirectIffConfigured(cfg: Config, associations: Value, opts: Options)
    ensures ReadRoute(cfg, opts) == Direct <==> cfg.read.Some? && !OptionIsTrue(opts, "from_service")
    ensures SetRoute(cfg, associations, opts) == Direct ==> cfg.write.Some? && !OptionIsTrue(opts, "from_service")
    ensures (&& cfg.write.Some? && IsEmptyArray(associations)
             && !OptionIsTrue(opts, "from_service") && !OptionIsTrue(opts, "broadcast"))
            ==> SetRoute(cfg, associations, opts) == Direct
  {
  }

  /** An option set to anything but `true` (the string "true", 1, ...)
      routes exactly as if it were absent. */
  lemma OnlyLiteralTrueCounts(cfg: Config, associations: Value, opts: Options, name: string, v: Value)
    requires v != Bool(true)
    ensures ReadRoute(cfg, opts[name := v]) == ReadRoute(cfg, opts - {name})
    ensures SetRoute(cfg, associations, opts[name := v]) == SetRoute(cfg, associations, opts - {name})
  {
  }

  /** A freshly constructed client has no store connections, so every read
      and every set goes to the service, whatever the options say. */
  lemma NewClientUsesService(encoder: Codec, associations: Value, opts: Options)
    ensures ReadRoute(NewClient(encoder), opts) == Service
    ensures SetRoute(NewClient(encoder), associations, opts) == Service
  {
  }

  // ---------------------------------------------------------------------
  // Unserializing and thawing

  /** The error handed to the unserialize handler or thrown: message, key and
      the raw value that failed. */
  datatype UnserializeError = UnserializeError(message: string, key: string, raw: Option<string>)

  /** A thawed item and, when the handler absorbed a failure, the error it
      was called with. */
  datatype Thawed = Thawed(item: Item, report: Option<UnserializeError>)

  /** A raw null is null without decoding; anything else goes through the
      decoder. */
  function Unserialize(cfg: Config, raw: Option<string>): (r: Result<Value, string>)
    ensures raw.None? ==> r == Ok(Null)
    ensures raw.Some? ==> r == GetDecoder(cfg).decode(raw.value)
  {
    match raw
    case None => Ok(Null)
    case Some(s) => GetDecoder(cfg).decode(s)
  }

  /** Decoding or thawing `raw` fails. */
  predicate ThawFails(cfg: Config, key: string, raw: Option<string>) {
    match Unserialize(cfg, raw)
    case Err(_) => true
    case Ok(v) => Thaw(key, v).Err?
  }

  const ThawSerializedLabel: string := "Aol\\CacheLink\\CacheLinkClient::thawSerialized: CacheLink could not thaw data: "

  /** Decodes and thaws the raw value of `key`. A failure becomes an
      UnserializeError carrying the key and the raw value: with a handler it
      is reported and the key reads as a miss, without one it is thrown. */
  function ThawSerialized(cfg: Config, key: string, raw: Option<string>): (r: Result<Thawed, UnserializeError>)
    ensures raw.None? ==> r == Ok(Thawed(Miss(key), None))
    ensures r.Ok? ==> r.value.item.key == key
    ensures r.Err? <==> ThawFails(cfg, key, raw) && !cfg.hasHandler
    ensures r.Ok? && r.value.report.Some? <==> ThawFails(cfg, key, raw) && cfg.hasHandler
    ensures r.Ok? && r.value.report.Some? ==> r.value.item == Miss(key)
    ensures r.Ok? && r.value.report.Some? ==> r.value.report.value.key == key && r.value.report.value.raw == raw
    ensures r.Err? ==> r.error.key == key && r.error.raw == raw
  {
    match Unserialize(cfg, raw)
    case Err(m) => Recover(cfg, key, raw, m)
    case Ok(v) =>
      match Thaw(key, v)
      case Ok(item) => Ok(Thawed(item, None))
      case Err(m) => Recover(cfg, key, raw, m)
  }

  function Recover(cfg: Config, key: string, raw: Option<string>, message: string)
    : Result<Thawed, UnserializeError>
  {
    var ex := UnserializeError(ThawSerializedLabel + message, key, raw);
    if cfg.hasHandler then Ok(Thawed(Miss(key), Some(ex))) else Err(ex)
  }

  /** What the encoder wrote for a frozen item thaws back to that item under
      the key it is read for. */
  lemma StoredItemReadsBack(cfg: Config, key: string, item: Item, s: string)
    requires DecoderInvertsEncoder(cfg)
    requires cfg.encoder.encode(Freeze(item)) == Ok(s)
    ensures ThawSerialized(cfg, key, Some(s)) == Ok(Thawed(item.(key := key), None))
  {
    ThawFreeze(key, item);
  }

  /** The item of a read that did not throw. */
  function ItemOf(t: Result<Thawed, UnserializeError>, key: string): Item {
    if t.Ok? then t.value.item else Miss(key)
  }

  // ---------------------------------------------------------------------
  // Direct reads

  /** A snapshot of the store: key to stored string. */
  type Store = map<string, string>

  function StoreGet(store: Store, k: string): Option<string> {
    if k in store then Some(store[k]) else None
  }

  /** The items of a multi-get and the errors the handler was called with,
      in call order. */
  datatype Fetched = Fetched(items: seq<Item>, reports: seq<UnserializeError>)

  function ReportList(report: Option<UnserializeError>): seq<UnserializeError> {
    if report.Some? then [report.value] else []
  }

  /** `directGet`: thaws what the store holds at the key's data key. */
  function DirectGet(cfg: Config, key: string, store: Store): (r: Result<Thawed, UnserializeError>)
    ensures DataKey(cfg, key) !in store ==> r == Ok(Thawed(Miss(key), None))
    ensures r.Ok? ==> r.value.item.key == key
    ensures r.Err? <==> DataKey(cfg, key) in store && ThawFails(cfg, key, Some(store[DataKey(cfg, key)])) && !cfg.hasHandler
  {
    ThawSerialized(cfg, key, StoreGet(store, DataKey(cfg, key)))
  }

  /** Thaws the raw values of `keys` in order; the first thrown error ends
      the batch. */
  function ThawEach(cfg: Config, keys: seq<string>, raws: seq<Option<string>>): (r: Result<Fetched, UnserializeError>)
    requires |keys| == |raws|
    ensures r.Ok? ==> |r.value.items| == |keys|
    ensures r.Ok? ==> forall i :: 0 <= i < |keys| ==>
              ThawSerialized(cfg, keys[i], raws[i]).Ok? && r.value.items[i] == ThawSerialized(cfg, keys[i], raws[i]).value.item
    ensures r.Err? ==> exists i :: 0 <= i < |keys| && ThawSerialized(cfg, keys[i], raws[i]) == Err(r.error)
    ensures (forall i :: 0 <= i < |keys| ==> ThawSerialized(cfg, keys[i], raws[i]).Ok?) ==> r.Ok?
    decreases |keys|
  {
    if |keys| == 0 then Ok(Fetched([], []))
    else
      match ThawSerialized(cfg, keys[0], raws[0])
      case Err(ex) => Err(ex)
      case Ok(t) =>
        match ThawEach(cfg, keys[1..], raws[1..])
        case Err(ex) => Err(ex)
        case Ok(f) => Ok(Fetched([t.item] + f.items, ReportList(t.report) + f.reports))
  }

  /** `mget` of the data keys: one stored string or null per key. */
  function MGet(cfg: Config, keys: seq<string>, store: Store): (r: seq<Option<string>>)
    ensures |r| == |keys|
    ensures forall i :: 0 <= i < |keys| ==> r[i] == StoreGet(store, DataKey(cfg, keys[i]))
  {
    seq(|keys|, i requires 0 <= i < |keys| => StoreGet(store, DataKey(cfg, keys[i])))
  }

  /** The cluster path: one `directGet` per key, in order. */
  function DirectGetEach(cfg: Config, keys: seq<string>, store: Store): (r: Result<Fetched, UnserializeError>)
    ensures r.Ok? ==> |r.value.items| == |keys|
    ensures r.Ok? ==> forall i :: 0 <= i < |keys| ==>
              DirectGet(cfg, keys[i], store).Ok? && r.value.items[i] == DirectGet(cfg, keys[i], store).value.item
    ensures r.Ok? <==> forall i :: 0 <= i < |keys| ==> DirectGet(cfg, keys[i], store).Ok?
    decreases |keys|
  {
    if |keys| == 0 then Ok(Fetched([], []))
    else
      match DirectGet(cfg, keys[0], store)
      case Err(ex) => Err(ex)
      case Ok(t) =>
        match DirectGetEach(cfg, keys[1..], store)
        case Err(ex) => Err(ex)
        case Ok(f) => Ok(Fetched([t.item] + f.items, ReportList(t.report) + f.reports))
  }

  /** `directGetMany`: one `mget` on a single node, one get per key on a
      cluster. Either way item i is what `directGet` gives for key i. */
  function DirectGetMany(cfg: Config, keys: seq<string>, store: Store): (r: Result<Fetched, UnserializeError>)
    requires cfg.read.Some?
    ensures r.Ok? ==> |r.value.items| == |keys|
    ensures r.Ok? ==> forall i :: 0 <= i < |keys| ==>
              DirectGet(cfg, keys[i], store).Ok? && r.value.items[i] == DirectGet(cfg, keys[i], store).value.item
    ensures r.Ok? <==> forall i :: 0 <= i < |keys| ==> DirectGet(cfg, keys[i], store).Ok?
  {
    if cfg.read == Some(Cluster) then
      ClusterMatchesSingleNode(cfg, keys, store);
      DirectGetEach(cfg, keys, store)
    else
      ThawEach(cfg, keys, MGet(cfg, keys, store))
  }

  /** The per-key cluster path and the `mget` path give the same result. */
  lemma {:induction false} ClusterMatchesSingleNode(cfg: Config, keys: seq<string>, store: Store)
    ensures DirectGetEach(cfg, keys, store) == ThawEach(cfg, keys, MGet(cfg, keys, store))
    decreases |keys|
  {
    if |keys| > 0 {
      ClusterMatchesSingleNode(cfg, keys[1..], store);
      assert MGet(cfg, keys, store)[1..] == MGet(cfg, keys[1..], store);
    }
  }

  // ---------------------------------------------------------------------
  // Service reads

  /** One `key => raw` pair of the service's multi-get answer. */
  datatype RawEntry = RawEntry(key: string, raw: Option<string>)

  /** The decoded answer of a multi-get: not an array (an error body, an
      empty answer), or the keyed raw values in answer order. */
  datatype KeyedRaws = NotAnArray | Keyed(entries: seq<RawEntry>)

  /** No later position holds the same key as position i. */
  predicate IsLastIndex(keys: seq<string>, i: int)
    requires 0 <= i < |keys|
  {
    forall j :: i < j < |keys| ==> keys[j] != keys[i]
  }

  /** `index` maps exactly the requested keys, each to its last position. */
  ghost predicate IndexesLast(keys: seq<string>, index: map<string, nat>) {
    && (forall k :: k in index <==> k in keys)
    && (forall k :: k in index ==> index[k] < |keys| && keys[index[k]] == k && IsLastIndex(keys, index[k]))
  }

  /** The key => position index built by `serviceGetMany`: a key that occurs
      more than once keeps its last position. */
  function IndexByKey(keys: seq<string>): (index: map<string, nat>)
    ensures IndexesLast(keys, index)
    decreases |keys|
  {
    if |keys| == 0 then map[]
    else
      var n := |keys| - 1;
      var earlier := IndexByKey(keys[..n]);
      IndexExtends(keys, earlier);
      earlier[keys[n] := n]
  }

  /** Indexing one more key moves that key to the new last position. */
  lemma IndexExtends(keys: seq<string>, earlier: map<string, nat>)
    requires |keys| > 0 && IndexesLast(keys[..|keys| - 1], earlier)
    ensures IndexesLast(keys, earlier[keys[|keys| - 1] := |keys| - 1])
  {
    var n := |keys| - 1;
    var pre := keys[..n];
    var index := earlier[keys[n] := n];
    assert forall k :: k in keys <==> k in pre || k == keys[n];
    forall k | k in index
      ensures index[k] < |keys| && keys[index[k]] == k && IsLastIndex(keys, index[k])
    {
      if k != keys[n] {
        var p := earlier[k];
        assert pre[p] == k && IsLastIndex(pre, p);
        forall j | p < j < |keys|
          ensures keys[j] != keys[p]
        {
          if j < n {
            assert keys[j] == pre[j];
          }
        }
      }
    }
  }

  /** The per-position slots being filled, and the handler reports so far. */
  datatype Filled = Filled(slots: seq<Option<Item>>, reports: seq<UnserializeError>)

  /** Every filled slot holds an item for the key at its position, and only
      last positions are filled. */
  predicate SlotsFit(keys: seq<string>, slots: seq<Option<Item>>) {
    |slots| == |keys| &&
    forall j :: 0 <= j < |slots| && slots[j].Some? ==> slots[j].value.key == keys[j] && IsLastIndex(keys, j)
  }

  /** One entry of the answer: a non-null raw value for a requested key is
      thawed into that key's (last) position; anything else changes nothing. */
  function FillOne(cfg: Config, keys: seq<string>, index: map<string, nat>, e: RawEntry, acc: Filled)
    : (r: Result<Filled, UnserializeError>)
    requires IndexesLast(keys, index)
    requires SlotsFit(keys, acc.slots)
    ensures r.Ok? ==> SlotsFit(keys, r.value.slots)
    ensures r.Ok? ==> forall j :: 0 <= j < |keys| && acc.slots[j].Some? ==> r.value.slots[j].Some?
    ensures r.Ok? ==> forall j :: 0 <= j < |keys| && r.value.slots[j].Some? && acc.slots[j].None? ==>
              e.key == keys[j] && e.raw.Some?
    ensures r.Err? ==> !cfg.hasHandler
  {
    if e.raw.Some? && e.key in index then
      match ThawSerialized(cfg, e.key, e.raw)
      case Err(ex) => Err(ex)
      case Ok(t) => Ok(Filled(acc.slots[index[e.key] := Some(t.item)], acc.reports + ReportList(t.report)))
    else Ok(acc)
  }

  /** Walks the answer in its own order, filling one entry at a time. */
  function FillSlots(cfg: Config, keys: seq<string>, index: map<string, nat>, entries: seq<RawEntry>, acc: Filled)
    : (r: Result<Filled, UnserializeError>)
    requires IndexesLast(keys, index)
    requires SlotsFit(keys, acc.slots)
    ensures r.Ok? ==> SlotsFit(keys, r.value.slots)
    ensures r.Ok? ==> forall j :: 0 <= j < |keys| && acc.slots[j].Some? ==> r.value.slots[j].Some?
    ensures r.Ok? ==> forall j :: 0 <= j < |keys| && r.value.slots[j].Some? && acc.slots[j].None? ==>
              !NoValueFor(entries, keys[j])
    ensures r.Err? ==> !cfg.hasHandler
    decreases |entries|
  {
    if |entries| == 0 then Ok(acc)
    else
      match FillOne(cfg, keys, index, entries[0], acc)
      case Err(ex) => Err(ex)
      case Ok(next) =>
        assert forall x :: x in entries[1..] ==> x in entries;
        assert entries[0] in entries;
        FillSlots(cfg, keys, index, entries[1..], next)
  }

  /** The answer carries no non-null raw value for `key`. */
  predicate NoValueFor(entries: seq<RawEntry>, key: string) {
    forall e :: e in entries && e.key == key ==> e.raw.None?
  }

  /** `serviceGetMany`: one item per requested key, in request order. A
      position the answer did not fill is a miss; with a key requested twice
      only its last position can be filled. */
  function ServiceGetMany(cfg: Config, keys: seq<string>, answer: KeyedRaws): (r: Result<Fetched, UnserializeError>)
    ensures r.Ok? ==> |r.value.items| == |keys|
    ensures r.Ok? ==> forall i :: 0 <= i < |keys| ==> r.value.items[i].key == keys[i]
    ensures r.Ok? ==> forall i :: 0 <= i < |keys| && !IsLastIndex(keys, i) ==> r.value.items[i] == Miss(keys[i])
    ensures answer.NotAnArray? ==>
              && r.Ok? && r.value.reports == []
              && forall i :: 0 <= i < |keys| ==> r.value.items[i] == Miss(keys[i])
    ensures answer.Keyed? && r.Ok? ==>
              forall i :: 0 <= i < |keys| && NoValueFor(answer.entries, keys[i]) ==> r.value.items[i] == Miss(keys[i])
    ensures cfg.hasHandler ==> r.Ok?
  {
    var index := IndexByKey(keys);
    var start := Filled(seq(|keys|, i => None), []);
    var filled := match answer
      case NotAnArray => Ok(start)
      case Keyed(entries) => FillSlots(cfg, keys, index, entries, start);
    match filled
    case Err(ex) => Err(ex)
    case Ok(f) =>
      Ok(Fetched(seq(|keys|, i requires 0 <= i < |keys| => if f.slots[i].Some? then f.slots[i].value else Miss(keys[i])),
                 f.reports))
  }

  /** The service answered from the same store the direct path reads: an
      entry for a requested key carries what the store holds for it, and
      every requested key the store holds has an entry. */
  ghost predicate AnswersFrom(cfg: Config, store: Store, keys: seq<string>, entries: seq<RawEntry>) {
    && (forall e :: e in entries && e.key in keys ==> e.raw == StoreGet(store, DataKey(cfg, e.key)))
    && (forall k :: k in keys && StoreGet(store, DataKey(cfg, k)).Some? ==> exists e :: e in entries && e.key == k)
  }

  /** What `directGet` returns for each key (a miss where it throws). */
  function DirectItems(cfg: Config, keys: seq<string>, store: Store): (r: seq<Item>)
    ensures |r| == |keys|
    ensures forall i :: 0 <= i < |keys| ==> r[i] == ItemOf(DirectGet(cfg, keys[i], store), keys[i])
  {
    seq(|keys|, i requires 0 <= i < |keys| => ItemOf(DirectGet(cfg, keys[i], store), keys[i]))
  }

  /** Every filled slot holds the item wanted at its position. */
  predicate SlotsHold(slots: seq<Option<Item>>, want: seq<Item>) {
    |slots| == |want| && forall j :: 0 <= j < |slots| && slots[j].Some? ==> slots[j].value == want[j]
  }

  /** An entry whose thawed item is the wanted one for its key's position
      keeps every filled slot as wanted, and fills that position. */
  lemma FillOneKeeps(cfg: Config, keys: seq<string>, index: map<string, nat>, want: seq<Item>, e: RawEntry, acc: Filled)
    requires IndexesLast(keys, index)
    requires SlotsFit(keys, acc.slots) && SlotsHold(acc.slots, want)
    requires e.raw.Some? && e.key in index ==>
               ThawSerialized(cfg, e.key, e.raw).Ok? && ThawSerialized(cfg, e.key, e.raw).value.item == want[index[e.key]]
    ensures FillOne(cfg, keys, index, e, acc).Ok?
    ensures SlotsHold(FillOne(cfg, keys, index, e, acc).value.slots, want)
    ensures forall j :: 0 <= j < |keys| && IsLastIndex(keys, j) && keys[j] == e.key && e.raw.Some? ==>
              FillOne(cfg, keys, index, e, acc).value.slots[j].Some?
  {
    if e.raw.Some? && e.key in index {
      FillHit(cfg, keys, index, want, e, acc);
    } else {
      FillSkip(cfg, keys, index, e, acc);
    }
  }

  lemma FillHit(cfg: Config, keys: seq<string>, index: map<string, nat>, want: seq<Item>, e: RawEntry, acc: Filled)
    requires IndexesLast(keys, index)
    requires SlotsFit(keys, acc.slots) && SlotsHold(acc.slots, want)
    requires e.raw.Some? && e.key in index
    requires ThawSerialized(cfg, e.key, e.raw).Ok? && ThawSerialized(cfg, e.key, e.raw).value.item == want[index[e.key]]
    ensures FillOne(cfg, keys, index, e, acc).Ok?
    ensures FillOne(cfg, keys, index, e, acc).value.slots == acc.slots[index[e.key] := Some(want[index[e.key]])]
  {
  }

  lemma FillSkip(cfg: Config, keys: seq<string>, index: map<string, nat>, e: RawEntry, acc: Filled)
    requires IndexesLast(keys, index)
    requires SlotsFit(keys, acc.slots)
    requires !(e.raw.Some? && e.key in index)
    ensures FillOne(cfg, keys, index, e, acc) == Ok(acc)
    ensures e.raw.Some? ==> forall j :: 0 <= j < |keys| ==> keys[j] != e.key
  {
    if e.raw.Some? {
      forall j | 0 <= j < |keys|
        ensures keys[j] != e.key
      {
        assert keys[j] in keys;
      }
    }
  }

  /** An entry the store backs thaws to what `directGet` reads at its key's
      indexed position. */
  lemma EntryThawsAsWanted(cfg: Config, store: Store, keys: seq<string>, index: map<string, nat>, want: seq<Item>,
                           e: RawEntry)
    requires IndexesLast(keys, index)
    requires want == DirectItems(cfg, keys, store)
    requires e.key in keys ==> e.raw == StoreGet(store, DataKey(cfg, e.key))
    requires forall i :: 0 <= i < |keys| ==> DirectGet(cfg, keys[i], store).Ok?
    ensures e.raw.Some? && e.key in index ==>
              ThawSerialized(cfg, e.key, e.raw).Ok? && ThawSerialized(cfg, e.key, e.raw).value.item == want[index[e.key]]
  {
    if e.raw.Some? && e.key in index {
      var p := index[e.key];
      assert keys[p] == e.key;
      assert ThawSerialized(cfg, e.key, e.raw) == DirectGet(cfg, keys[p], store);
    }
  }

  /** Filling slots from an answer taken from the store puts into each slot
      exactly what `directGet` reads for its key, and fills the last
      position of every key the answer has a value for. */
  lemma {:induction false} FillSlotsFromStore(cfg: Config, store: Store, keys: seq<string>, index: map<string, nat>,
                                              want: seq<Item>, entries: seq<RawEntry>, acc: Filled)
    requires IndexesLast(keys, index)
    requires want == DirectItems(cfg, keys, store)
    requires SlotsFit(keys, acc.slots) && SlotsHold(acc.slots, want)
    requires forall e :: e in entries && e.key in keys ==> e.raw == StoreGet(store, DataKey(cfg, e.key))
    requires forall i :: 0 <= i < |keys| ==> DirectGet(cfg, keys[i], store).Ok?
    ensures FillSlots(cfg, keys, index, entries, acc).Ok?
    ensures SlotsHold(FillSlots(cfg, keys, index, entries, acc).value.slots, want)
    ensures forall j :: 0 <= j < |keys| && IsLastIndex(keys, j) && !NoValueFor(entries, keys[j]) ==>
              FillSlots(cfg, keys, index, entries, acc).value.slots[j].Some?
    decreases |entries|
  {
    if |entries| > 0 {
      var e := entries[0];
      assert forall x :: x in entries[1..] ==> x in entries;
      EntryThawsAsWanted(cfg, store, keys, index, want, e);
      FillOneKeeps(cfg, keys, index, want, e, acc);
      var next := FillOne(cfg, keys, index, e, acc).value;
      FillSlotsFromStore(cfg, store, keys, index, want, entries[1..], next);
      var f := FillSlots(cfg, keys, index, entries[1..], next).value;
      forall j | 0 <= j < |keys| && IsLastIndex(keys, j) && !NoValueFor(entries, keys[j])
        ensures f.slots[j].Some?
      {
        if keys[j] != e.key || e.raw.None? {
          assert !NoValueFor(entries[1..], keys[j]);
        }
      }
    }
  }

  /** The two read paths agree on the same data: at the last position of
      every requested key the service path returns what the direct path
      returns; an earlier position of a repeated key is a miss on the
      service path. */
  lemma ServiceAgreesWithDirect(cfg: Config, keys: seq<string>, store: Store, entries: seq<RawEntry>)
    requires cfg.read.Some?
    requires AnswersFrom(cfg, store, keys, entries)
    requires forall i :: 0 <= i < |keys| ==> DirectGet(cfg, keys[i], store).Ok?
    ensures DirectGetMany(cfg, keys, store).Ok? && ServiceGetMany(cfg, keys, Keyed(entries)).Ok?
    ensures forall i :: 0 <= i < |keys| && IsLastIndex(keys, i) ==>
              ServiceGetMany(cfg, keys, Keyed(entries)).value.items[i] == DirectGetMany(cfg, keys, store).value.items[i]
    ensures forall i :: 0 <= i < |keys| && !IsLastIndex(keys, i) ==>
              ServiceGetMany(cfg, keys, Keyed(entries)).value.items[i] == Miss(keys[i])
  {
    var index := IndexByKey(keys);
    var want := DirectItems(cfg, keys, store);
    var start := Filled(seq(|keys|, i => None), []);
    FillSlotsFromStore(cfg, store, keys, index, want, entries, start);
    var f := FillSlots(cfg, keys, index, entries, start).value;
    var service := ServiceGetMany(cfg, keys, Keyed(entries)).value;
    var direct := DirectGetMany(cfg, keys, store).value;
    forall i | 0 <= i < |keys| && IsLastIndex(keys, i)
      ensures service.items[i] == direct.items[i]
    {
      if f.slots[i].None? {
        assert NoValueFor(entries, keys[i]);
        assert StoreGet(store, DataKey(cfg, keys[i])).None?;
      }
    }
  }

  /** Some entry of the answer carries a value for a requested key that
      fails to thaw, and no handler takes the failure. */
  ghost predicate SomeEntryThrows(cfg: Config, index: map<string, nat>, entries: seq<RawEntry>) {
    exists e :: e in entries && e.raw.Some? && e.key in index && ThawSerialized(cfg, e.key, e.raw).Err?
  }

  /** Filling slots fails exactly when some entry of the answer throws. */
  lemma {:induction false} FillSlotsFails(cfg: Config, keys: seq<string>, index: map<string, nat>,
                                          entries: seq<RawEntry>, acc: Filled)
    requires IndexesLast(keys, index)
    requires SlotsFit(keys, acc.slots)
    ensures FillSlots(cfg, keys, index, entries, acc).Err? <==> SomeEntryThrows(cfg, index, entries)
    decreases |entries|
  {
    if |entries| > 0 {
      var e := entries[0];
      assert forall x :: x in entries <==> x == e || x in entries[1..];
      match FillOne(cfg, keys, index, e, acc)
      case Err(_) =>
        assert e in entries;
      case Ok(next) =>
        FillSlotsFails(cfg, keys, index, entries[1..], next);
    }
  }

  /** On the same data the two read paths throw together: a batch read
      fails directly exactly when the service answer fails to thaw. */
  lemma ServiceThrowsIffDirectThrows(cfg: Config, keys: seq<string>, store: Store, entries: seq<RawEntry>)
    requires cfg.read.Some?
    requires AnswersFrom(cfg, store, keys, entries)
    ensures DirectGetMany(cfg, keys, store).Ok? <==> ServiceGetMany(cfg, keys, Keyed(entries)).Ok?
  {
    var index := IndexByKey(keys);
    var start := Filled(seq(|keys|, i => None), []);
    FillSlotsFails(cfg, keys, index, entries, start);
    if DirectGetMany(cfg, keys, store).Ok? {
      forall e | e in entries && e.raw.Some? && e.key in index
        ensures ThawSerialized(cfg, e.key, e.raw).Ok?
      {
        var p := index[e.key];
        assert keys[p] == e.key && keys[p] in keys;
        assert ThawSerialized(cfg, e.key, e.raw) == DirectGet(cfg, keys[p], store);
      }
    } else {
      var i :| 0 <= i < |keys| && DirectGet(cfg, keys[i], store).Err?;
      assert keys[i] in keys;
      var e :| e in entries && e.key == keys[i];
      assert ThawSerialized(cfg, e.key, e.raw) == DirectGet(cfg, keys[i], store);
    }
  }

  /** A key requested twice: the service path leaves the first position a
      miss while the direct path returns the hit at both. */
  lemma RepeatedKeyDiverges()
    ensures var stored := List([Str(ItemIdentifier), Str("v"), Int(1), List([]), List([])]);
            var codec := Codec(v => Ok("x"), s => Ok(stored));
            var cfg := Config(5, Some(SingleNode), None, "", codec, None, false);
            var keys := ["a", "a"];
            var store := map[DataKey(cfg, "a") := "x"];
            && ServiceGetMany(cfg, keys, Keyed([RawEntry("a", Some("x"))])).Ok?
            && IsMiss(ServiceGetMany(cfg, keys, Keyed([RawEntry("a", Some("x"))])).value.items[0])
            && DirectGetMany(cfg, keys, store).Ok?
            && IsHit(DirectGetMany(cfg, keys, store).value.items[0])
  {
    var stored := List([Str(ItemIdentifier), Str("v"), Int(1), List([]), List([])]);
    var codec := Codec(v => Ok("x"), s => Ok(stored));
    var cfg := Config(5, Some(SingleNode), None, "", codec, None, false);
    var item := Item("a", Str("v"), Int(1), List([]), List([]));
    assert ThawSerialized(cfg, "a", Some("x")) == Ok(Thawed(item, None));
    RepeatedKeyServiceSide(cfg, item);
    RepeatedKeyDirectSide(cfg, item);
  }

  /** The service side of `RepeatedKeyDiverges`: the first slot stays empty. */
  lemma RepeatedKeyServiceSide(cfg: Config, item: Item)
    requires ThawSerialized(cfg, "a", Some("x")) == Ok(Thawed(item, None))
    ensures ServiceGetMany(cfg, ["a", "a"], Keyed([RawEntry("a", Some("x"))])).Ok?
    ensures IsMiss(ServiceGetMany(cfg, ["a", "a"], Keyed([RawEntry("a", Some("x"))])).value.items[0])
  {
    var keys := ["a", "a"];
    assert keys[1] == keys[0];
    assert !IsLastIndex(keys, 0);
  }

  /** The direct side of `RepeatedKeyDiverges`: both positions read the stored item. */
  lemma RepeatedKeyDirectSide(cfg: Config, item: Item)
    requires cfg.read.Some? && item.value != Null
    requires ThawSerialized(cfg, "a", Some("x")) == Ok(Thawed(item, None))
    ensures DirectGetMany(cfg, ["a", "a"], map[DataKey(cfg, "a") := "x"]).Ok?
    ensures IsHit(DirectGetMany(cfg, ["a", "a"], map[DataKey(cfg, "a") := "x"]).value.items[0])
  {
    var keys := ["a", "a"];
    var store := map[DataKey(cfg, "a") := "x"];
    assert StoreGet(store, DataKey(cfg, "a")) == Some("x");
    assert forall i :: 0 <= i < |keys| ==> DirectGet(cfg, keys[i], store) == Ok(Thawed(item, None));
  }

  // ---------------------------------------------------------------------
  // Client reads

  /** The request `serviceGet` sends: reads always wait. */
  function ServiceGetRequest(cfg: Config, key: string): (r: Request)
    ensures r.verb == GET && !r.background && |r.path| >= 1 && UrlDecode(r.path[1..]) == key
    ensures r.timeout == cfg.timeout
  {
    MakeRequest(RequestGet(cfg.timeout, key), true)
  }

  /** The request `serviceGetMany` sends. */
  function ServiceGetManyRequest(cfg: Config, keys: seq<string>): (r: Request)
    ensures r.verb == GET && !r.background && r.keysQuery == Some(keys) && r.timeout == cfg.timeout
  {
    MakeRequest(RequestGetMany(cfg.timeout, keys), true)
  }

  /** `get`: the store's value on the direct route, the service's answer
      `serviceRaw` on the service route, thawed for `key` either way. */
  function Get(cfg: Config, key: string, opts: Options, store: Store, serviceRaw: Option<string>)
    : (r: Result<Thawed, UnserializeError>)
    ensures ReadRoute(cfg, opts) == Direct ==> r == DirectGet(cfg, key, store)
    ensures ReadRoute(cfg, opts) == Service ==> r == ThawSerialized(cfg, key, serviceRaw)
    ensures r.Ok? ==> r.value.item.key == key
  {
    if ReadRoute(cfg, opts) == Direct then DirectGet(cfg, key, store)
    else ThawSerialized(cfg, key, serviceRaw)
  }

  /** `getMany`: one item per key, in key order, on either route. */
  function GetMany(cfg: Config, keys: seq<string>, opts: Options, store: Store, answer: KeyedRaws)
    : (r: Result<Fetched, UnserializeError>)
    ensures ReadRoute(cfg, opts) == Direct ==> r == DirectGetMany(cfg, keys, store)
    ensures ReadRoute(cfg, opts) == Service ==> r == ServiceGetMany(cfg, keys, answer)
    ensures r.Ok? ==> |r.value.items| == |keys| && forall i :: 0 <= i < |keys| ==> r.value.items[i].key == keys[i]
    ensures cfg.hasHandler ==> r.Ok?
  {
    if ReadRoute(cfg, opts) == Direct then DirectGetMany(cfg, keys, store)
    else ServiceGetMany(cfg, keys, answer)
  }

  /** `getSimple`: the value of `get`'s item. */
  function GetSimple(cfg: Config, key: string, opts: Options, store: Store, serviceRaw: Option<string>)
    : (r: Result<Value, UnserializeError>)
    ensures r.Ok? <==> Get(cfg, key, opts, store, serviceRaw).Ok?
    ensures r.Ok? ==> r.value == Get(cfg, key, opts, store, serviceRaw).value.item.value
  {
    match Get(cfg, key, opts, store, serviceRaw)
    case Err(ex) => Err(ex)
    case Ok(t) => Ok(t.item.value)
  }

  /** `getManySimple`: the values of `getMany`'s items, in key order (null
      for a miss). */
  function GetManySimple(cfg: Config, keys: seq<string>, opts: Options, store: Store, answer: KeyedRaws)
    : (r: Result<seq<Value>, UnserializeError>)
    ensures r.Ok? <==> GetMany(cfg, keys, opts, store, answer).Ok?
    ensures r.Ok? ==> |r.value| == |keys|
    ensures r.Ok? ==> forall i :: 0 <= i < |keys| ==> r.value[i] == GetMany(cfg, keys, opts, store, answer).value.items[i].value
  {
    match GetMany(cfg, keys, opts, store, answer)
    case Err(ex) => Err(ex)
    case Ok(f) => Ok(seq(|f.items|, i requires 0 <= i < |f.items| => f.items[i].value))
  }

  // ---------------------------------------------------------------------
  // Writes

  /** A store command: SET with a PX expiry, or DEL. */
  datatype Command = SetPx(key: string, value: string, millis: int) | Del(key: string)

  /** The store's reply to the first command of a direct set. */
  datatype Reply = Status(payload: string) | OtherReply

  /** A write either runs store commands (pipelined on a single node, one by
      one on a cluster) or sends a request to the service. */
  datatype WritePlan = DirectWrite(commands: seq<Command>, pipelined: bool) | ServiceWrite(request: Request)

  /** The store after the commands ran (expiry itself not modelled). The
      store refuses a SET whose PX is not positive and leaves the key as it
      was; pipelined, the commands after it still run, one by one the error
      is thrown and the rest never run. */
  function Apply(store: Store, commands: seq<Command>, pipelined: bool): Store
    decreases |commands|
  {
    if |commands| == 0 then store
    else match commands[0]
      case SetPx(k, v, millis) =>
        if millis > 0 then Apply(store[k := v], commands[1..], pipelined)
        else if pipelined then Apply(store, commands[1..], pipelined)
        else store
      case Del(k) => Apply(store - {k}, commands[1..], pipelined)
  }

  /** `directSet`: stores the frozen item, without associations, at the data
      key with the TTL as PX and deletes the key's invalidation marker. */
  function DirectSet(cfg: Config, key: string, value: Value, millis: int, metadata: Value)
    : (r: Result<WritePlan, string>)
    requires cfg.write.Some?
    ensures r.Ok? <==> cfg.encoder.encode(Freeze(Item(key, value, Int(millis), List([]), metadata))).Ok?
    ensures r.Ok? ==> r.value.DirectWrite? && (r.value.pipelined <==> cfg.write == Some(SingleNode))
    ensures r.Ok? ==> |r.value.commands| == 2 && r.value.commands[1] == Del(InKey(cfg, key))
    ensures r.Ok? ==> r.value.commands[0].SetPx? && r.value.commands[0].key == DataKey(cfg, key)
                      && r.value.commands[0].millis == millis
  {
    match cfg.encoder.encode(Freeze(Item(key, value, Int(millis), List([]), metadata)))
    case Err(m) => Err(m)
    case Ok(s) =>
      Ok(DirectWrite([SetPx(DataKey(cfg, key), s, millis), Del(InKey(cfg, key))], cfg.write == Some(SingleNode)))
  }

  /** A direct set with a positive TTL is read back by a direct get: the
      item with its value, TTL and metadata and no associations, and the
      marker is gone. With a TTL the store refuses, the read is what it was
      before; pipelined the marker is still deleted, one by one nothing
      changes. */
  lemma DirectSetThenGet(cfg: Config, key: string, value: Value, millis: int, metadata: Value, store: Store)
    requires cfg.write.Some? && DecoderInvertsEncoder(cfg)
    requires DirectSet(cfg, key, value, millis, metadata).Ok?
    ensures var plan := DirectSet(cfg, key, value, millis, metadata).value;
            var after := Apply(store, plan.commands, plan.pipelined);
            && (millis > 0 ==>
                  && DirectGet(cfg, key, after) == Ok(Thawed(Item(key, value, Int(millis), List([]), metadata), None))
                  && InKey(cfg, key) !in after)
            && (millis <= 0 ==> DirectGet(cfg, key, after) == DirectGet(cfg, key, store))
            && (millis <= 0 && plan.pipelined ==> after == store - {InKey(cfg, key)})
            && (millis <= 0 && !plan.pipelined ==> after == store)
  {
    var item := Item(key, value, Int(millis), List([]), metadata);
    var s := cfg.encoder.encode(Freeze(item)).value;
    var plan := DirectSet(cfg, key, value, millis, metadata).value;
    var commands := plan.commands;
    KeyLayout(cfg, key, key);
    if millis > 0 {
      var written := store[DataKey(cfg, key) := s];
      assert Apply(store, commands, plan.pipelined) == Apply(written, commands[1..], plan.pipelined);
      assert Apply(written, commands[1..], plan.pipelined) == Apply(written - {InKey(cfg, key)}, [], plan.pipelined);
      StoredItemReadsBack(cfg, key, item, s);
    } else if plan.pipelined {
      var after := store - {InKey(cfg, key)};
      assert Apply(store, commands, true) == Apply(store, commands[1..], true);
      assert commands[1..][1..] == [];
      assert Apply(store, commands[1..], true) == after;
      assert StoreGet(after, DataKey(cfg, key)) == StoreGet(store, DataKey(cfg, key));
      assert DirectGet(cfg, key, after) == DirectGet(cfg, key, store);
    } else {
      assert commands[0].SetPx? && commands[0].millis <= 0;
      assert Apply(store, commands, false) == store;
    }
  }

  /** The result `directSet` reports: success exactly when the first reply is
      the status OK, always `directSet` and no cleared associations. */
  function DirectSetReport(first: Reply): (r: Value)
    ensures Lookup(r, "success") == Some(Bool(first == Status("OK")))
    ensures Lookup(r, "cacheSet") == Some(if first == Status("OK") then Str("OK") else Bool(false))
    ensures Lookup(r, "clearAssocIn") == Some(Int(0))
    ensures Lookup(r, "broadcastResult") == Some(Null)
    ensures Lookup(r, "directSet") == Some(Bool(true))
  {
    var success := first == Status("OK");
    var fields := [
      Entry("cacheSet", if success then Str("OK") else Bool(false)),
      Entry("clearAssocIn", Int(0)),
      Entry("success", Bool(success)),
      Entry("broadcastResult", Null),
      Entry("directSet", Bool(true))];
    LookupFindsFirst(fields, 0);
    LookupFindsFirst(fields, 1);
    LookupFindsFirst(fields, 2);
    LookupFindsFirst(fields, 3);
    LookupFindsFirst(fields, 4);
    Dict(fields)
  }

  /** `serviceSet`: sends the encoded frozen item, with its associations. */
  function ServiceSet(cfg: Config, key: string, value: Value, millis: int, associations: Value, metadata: Value,
                      broadcast: bool, wait: bool)
    : (r: Result<WritePlan, string>)
    ensures r.Ok? <==> cfg.encoder.encode(Freeze(Item(key, value, Int(millis), associations, metadata))).Ok?
    ensures r.Ok? ==> r.value.ServiceWrite? && r.value.request.verb == PUT && r.value.request.path == "/"
    ensures r.Ok? ==> (r.value.request.background <==> !wait) && r.value.request.timeout == cfg.timeout
    ensures r.Ok? ==> r.value.request.body.Some?
    ensures r.Ok? ==> Lookup(r.value.request.body.value, "key") == Some(Str(key))
    ensures r.Ok? ==> Lookup(r.value.request.body.value, "millis") == Some(Int(millis))
    ensures r.Ok? ==>
              Lookup(r.value.request.body.value, "data") == Some(Str(cfg.encoder.encode(Freeze(Item(key, value, Int(millis), associations, metadata))).value))
    ensures r.Ok? ==> Lookup(r.value.request.body.value, "broadcast") == Some(Bool(broadcast))
    ensures r.Ok? ==> Lookup(r.value.request.body.value, "associations") == Some(associations)
  {
    match cfg.encoder.encode(Freeze(Item(key, value, Int(millis), associations, metadata)))
    case Err(m) => Err(m)
    case Ok(s) => Ok(ServiceWrite(MakeRequest(RequestSet(cfg.timeout, key, s, millis, associations, broadcast), wait)))
  }

  /** What a service set sends is read back by a service get of the same
      key: the `data` field thaws to the item with its associations. */
  lemma ServiceSetReadsBack(cfg: Config, key: string, value: Value, millis: int, associations: Value, metadata: Value,
                            broadcast: bool, wait: bool)
    requires DecoderInvertsEncoder(cfg)
    requires ServiceSet(cfg, key, value, millis, associations, metadata, broadcast, wait).Ok?
    ensures var body := ServiceSet(cfg, key, value, millis, associations, metadata, broadcast, wait).value.request.body.value;
            && Lookup(body, "data").Some? && Lookup(body, "data").value.Str?
            && ThawSerialized(cfg, key, Some(Lookup(body, "data").value.s))
               == Ok(Thawed(Item(key, value, Int(millis), associations, metadata), None))
  {
    var item := Item(key, value, Int(millis), associations, metadata);
    StoredItemReadsBack(cfg, key, item, cfg.encoder.encode(Freeze(item)).value);
  }

  /** `set`: routed as `SetRoute` says; on the service route `broadcast` and
      `wait` count only when literally true. */
  function Set(cfg: Config, key: string, value: Value, millis: int, associations: Value, opts: Options, metadata: Value)
    : (r: Result<WritePlan, string>)
    requires IsArray(associations)
    ensures r.Ok? ==> (r.value.DirectWrite? <==> SetRoute(cfg, associations, opts) == Direct)
    ensures r.Ok? && r.value.ServiceWrite? ==> (r.value.request.background <==> !OptionIsTrue(opts, "wait"))
    ensures r.Ok? && r.value.ServiceWrite? ==> r.value.request.body.Some?
    ensures r.Ok? && r.value.ServiceWrite? ==>
              Lookup(r.value.request.body.value, "broadcast") == Some(Bool(OptionIsTrue(opts, "broadcast")))
    ensures SetRoute(cfg, associations, opts) == Direct ==> r == DirectSet(cfg, key, value, millis, metadata)
    ensures SetRoute(cfg, associations, opts) == Service ==>
              r == ServiceSet(cfg, key, value, millis, associations, metadata,
                              OptionIsTrue(opts, "broadcast"), OptionIsTrue(opts, "wait"))
  {
    if SetRoute(cfg, associations, opts) == Direct then DirectSet(cfg, key, value, millis, metadata)
    else ServiceSet(cfg, key, value, millis, associations, metadata,
                    OptionIsTrue(opts, "broadcast"), OptionIsTrue(opts, "wait"))
  }

  /** A `set` with a positive TTL that goes to the store is read back by a
      `get` that reads the store: the item with its value, TTL and metadata
      and no associations. With a TTL the store refuses, the `get` reads
      what it read before. */
  lemma SetThenDirectGet(cfg: Config, key: string, value: Value, millis: int, associations: Value, opts: Options,
                         metadata: Value, store: Store, readOpts: Options, serviceRaw: Option<string>)
    requires IsArray(associations) && DecoderInvertsEncoder(cfg)
    requires SetRoute(cfg, associations, opts) == Direct && ReadRoute(cfg, readOpts) == Direct
    requires Set(cfg, key, value, millis, associations, opts, metadata).Ok?
    ensures Set(cfg, key, value, millis, associations, opts, metadata).value.DirectWrite?
    ensures var plan := Set(cfg, key, value, millis, associations, opts, metadata).value;
            var after := Apply(store, plan.commands, plan.pipelined);
            && (millis > 0 ==>
                  Get(cfg, key, readOpts, after, serviceRaw) == Ok(Thawed(Item(key, value, Int(millis), List([]), metadata), None)))
            && (millis <= 0 ==> Get(cfg, key, readOpts, after, serviceRaw) == Get(cfg, key, readOpts, store, serviceRaw))
  {
    DirectSetThenGet(cfg, key, value, millis, metadata, store);
  }

  /** `clear`: always the service; a broadcast unless `broadcast` is
      literally false, so the body is local exactly then. */
  function Clear(cfg: Config, keys: seq<string>, levels: string := ClearLevelsAll, opts: Options := map[]): (r: Request)
    ensures r.verb == DELETE && r.path == "/" && r.body.Some? && r.timeout == cfg.timeout
    ensures Lookup(r.body.value, "local") == Some(Bool(OptionIsFalse(opts, "broadcast")))
    ensures Lookup(r.body.value, "levels") == Some(Str(levels))
    ensures Lookup(r.body.value, "key") == Some(KeyList(keys))
    ensures r.background <==> !OptionIsTrue(opts, "wait")
  {
    MakeRequest(RequestClear(cfg.timeout, keys, levels, !OptionIsFalse(opts, "broadcast")), OptionIsTrue(opts, "wait"))
  }

  /** A `clear` with the default arguments clears every association level
      in every data center, in the background. */
  lemma ClearDefaults(cfg: Config, keys: seq<string>)
    ensures Lookup(Clear(cfg, keys).body.value, "levels") == Some(Str("all"))
    ensures Lookup(Clear(cfg, keys).body.value, "local") == Some(Bool(false))
    ensures Clear(cfg, keys).background
  {
  }

  /** `clearLater`: always the service. */
  function ClearLater(cfg: Config, keys: seq<string>, opts: Options): (r: Request)
    ensures r.verb == PUT && r.path == "/clear-later" && r.body.Some? && r.timeout == cfg.timeout
    ensures Lookup(r.body.value, "key") == Some(KeyList(keys))
    ensures r.background <==> !OptionIsTrue(opts, "wait")
  {
    MakeRequest(RequestClearLater(cfg.timeout, keys), OptionIsTrue(opts, "wait"))
  }

  /** `triggerClearNow`: always the service. */
  function TriggerClearNow(cfg: Config, opts: Options): (r: Request)
    ensures r.verb == GET && r.path == "/clear-now" && r.body.None? && r.timeout == cfg.timeout
    ensures r.background <==> !OptionIsTrue(opts, "wait")
  {
    MakeRequest(RequestTriggerClearNow(cfg.timeout), OptionIsTrue(opts, "wait"))
  }
}
