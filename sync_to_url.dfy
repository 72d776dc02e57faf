/**
 The two field-value callbacks of the form demo that mirrors its values in
 the URL: `syncToUrl`, which reshapes the flat value map when it is read
 from (`'get'`) or written to the URL, and the date-range picker's
 `transform`, which splits the picked range into two scalar fields.

 A form's values are a flat map from field name to value. JavaScript's
 `undefined` is an explicit value: writing `key: undefined` in an object
 literal keeps the key, so it is never modelled as deletion.
 */
module SyncToUrl {

  /** A field value: undefined, an array of values (what a range picker
      holds), or any other value, which the callbacks only pass through and
      which is told apart from others only by an opaque tag. */
  datatype Value = Undefined | List(items: seq<Value>) | Other(tag: string)

  type Values = map<string, Value>

  const StartTime: string := "startTime"
  const EndTime: string := "endTime"
  const CreateTimeRanger: string := "createTimeRanger"
  const ExpirationTime: string := "expirationTime"

  /** The kind of synchronisation the form asks for. */
  const GetKind: string := "get"

  /** `values.key`: a missing field reads as undefined. */
  function Field(values: Values, key: string): Value
  {
    if key in values then values[key] else Undefined
  }

  /** `items[i]`: an index past the end reads as undefined. */
  function At(items: seq<Value>, i: nat): Value
  {
    if i < |items| then items[i] else Undefined
  }

  /** Reading a field after setting it gives the value set; reading any other
      field gives what it held before. */
  lemma FieldUpdate(values: Values, k: string, v: Value, k2: string)
    ensures Field(values[k := v], k) == v
    ensures k2 != k ==> Field(values[k := v], k2) == Field(values, k2)
  {
  }

  /** The `syncToUrl` callback. On `'get'` the object is spread and
      `createTimeRanger` set to `[startTime, endTime]`; for any other kind it
      is spread and `expirationTime` set to undefined. */
  function Sync(values: Values, kind: string): (r: Values)
    ensures kind == GetKind ==> r.Keys == values.Keys + {CreateTimeRanger}
    ensures kind == GetKind ==> r[CreateTimeRanger] == List([Field(values, StartTime), Field(values, EndTime)])
    ensures kind != GetKind ==> r.Keys == values.Keys + {ExpirationTime}
    ensures kind != GetKind ==> r[ExpirationTime] == Undefined
    ensures forall k :: k in values && k != (if kind == GetKind then CreateTimeRanger else ExpirationTime)
                        ==> r[k] == values[k]
  {
    if kind == GetKind then
      values[CreateTimeRanger := List([Field(values, StartTime), Field(values, EndTime)])]
    else
      values[ExpirationTime := Undefined]
  }

  /** The range picker's `transform`: `[a, b]` becomes `{startTime: a, endTime: b}`. */
  function Transform(range: seq<Value>): (r: Values)
    ensures r.Keys == {StartTime, EndTime}
    ensures r[StartTime] == At(range, 0) && r[EndTime] == At(range, 1)
    ensures |range| == 2 ==> r == map[StartTime := range[0], EndTime := range[1]]
  {
    map[StartTime := At(range, 0), EndTime := At(range, 1)]
  }

  // ---------------------------------------------------------------------------
  // Properties of the read branch

  /** Reading overwrites a createTimeRanger already present, whatever it held. */
  lemma GetOverwritesRange(values: Values, stale: Value)
    ensures Sync(values[CreateTimeRanger := stale], GetKind) == Sync(values, GetKind)
  {
  }

  /** Reading twice is reading once: the derived field depends only on
      startTime and endTime, which reading leaves alone. */
  lemma GetIdempotent(values: Values)
    ensures Sync(Sync(values, GetKind), GetKind) == Sync(values, GetKind)
  {
  }

  // ---------------------------------------------------------------------------
  // Properties of the write branch

  /** Writing is idempotent. */
  lemma WriteIdempotent(values: Values, kind: string)
    requires kind != GetKind
    ensures Sync(Sync(values, kind), kind) == Sync(values, kind)
  {
  }

  /** Every write kind has the same effect: only whether the kind is `'get'` matters. */
  lemma WriteKindIrrelevant(values: Values, kind1: string, kind2: string)
    requires kind1 != GetKind && kind2 != GetKind
    ensures Sync(values, kind1) == Sync(values, kind2)
  {
  }

  /** Writing the values out and reading them back derives the same date
      range as reading them directly: the write leaves startTime and endTime
      untouched. */
  lemma WriteThenGetKeepsRange(values: Values, kind: string)
    requires kind != GetKind
    ensures Sync(Sync(values, kind), GetKind)[CreateTimeRanger] == Sync(values, GetKind)[CreateTimeRanger]
  {
  }

  // ---------------------------------------------------------------------------
  // transform and the read branch fit together

  /** Splitting a picked range `[a, b]` with `transform` into any value map and
      reading that map back rebuilds `createTimeRanger` as `[a, b]`. */
  lemma TransformThenGetRoundTrip(values: Values, a: Value, b: Value)
    ensures Sync(values + Transform([a, b]), GetKind)[CreateTimeRanger] == List([a, b])
  {
  }

  /** The converse: the range a read derives, split again by `transform`,
      gives back exactly the startTime and endTime it was built from. */
  lemma GetThenTransformRoundTrip(values: Values)
    ensures Transform(Sync(values, GetKind)[CreateTimeRanger].items)
            == map[StartTime := Field(values, StartTime), EndTime := Field(values, EndTime)]
  {
  }

  /** When the map already holds both start and end, splitting the range a
      read derives and merging the halves back into the read map leaves that
      map unchanged. */
  lemma GetThenTransformRestores(values: Values)
    requires StartTime in values && EndTime in values
    ensures var read := Sync(values, GetKind);
            read + Transform(read[CreateTimeRanger].items) == read
  {
  }
}
