/**
 The three engines that overlay managed keys onto a configuration object read from the server:
 one over sorted keys, one over a fixed list of optional fields, one over a map in any order.
 All are proved against the same map overlay.
 */
module Overlay {
  import opened Common
  import opened JsonValues
  import opened Ordering

  /** A `json.RawMessage`: nothing or blank, text that does not parse, or a value. */
  datatype Raw = Absent | Malformed | Value(json: Json)

  type Outcome = Result<(Raw, bool), string>

  /** Whether the trimmed message is empty; the text `null` counts as empty. */
  predicate Trimmed(raw: Raw) {
    raw.Absent? || raw == Value(JNull)
  }

  /** Decoding into a map; an empty message leaves the map empty. */
  function Decode(raw: Raw): (r: Result<Fields, string>) {
    if Trimmed(raw) then Ok(map[])
    else if raw.Value? && raw.json.JObj? then Ok(raw.json.fields)
    else Err("cannot unmarshal into an object")
  }

  /** Some managed key is missing or holds another value. */
  ghost predicate Differs(opts: Fields, managed: Fields) {
    exists k :: k in managed && (k !in opts || opts[k] != managed[k])
  }

  /** What every engine must answer: the managed keys win, the rest is kept, no change is reported as such. */
  ghost function Overlaid(current: Raw, managed: Fields): Outcome {
    var opts :- Decode(current);
    if Differs(opts, managed) then Ok((Value(JObj(opts + managed)), true)) else Ok((current, false))
  }

  /** The loop state of an engine that still has the keys in `rest` to look at. */
  ghost predicate Overlaying(opts: Fields, changed: bool, opts0: Fields, managed: Fields, rest: set<string>) {
    && opts == opts0 + (map k | k in managed && k !in rest :: managed[k])
    && (changed <==> exists k :: k in managed && k !in rest && (k !in opts0 || opts0[k] != managed[k]))
  }

  /** Looking at one key, the way all three engines do. */
  method SetKey(opts: Fields, changed: bool, key: string, val: Json,
                ghost opts0: Fields, ghost managed: Fields, ghost rest: set<string>)
    returns (opts': Fields, changed': bool)
    requires Overlaying(opts, changed, opts0, managed, rest)
    requires key in managed && managed[key] == val && key in rest
    ensures Overlaying(opts', changed', opts0, managed, rest - {key})
  {
    if key in opts && opts[key] == val {
      opts', changed' := opts, changed;
    } else {
      opts', changed' := opts[key := val], true;
      assert key !in rest - {key};
    }
    assert key in opts <==> key in opts0;
    assert key in opts ==> opts[key] == opts0[key];
  }

  method Finish(current: Raw, opts: Fields, changed: bool, ghost managed: Fields) returns (r: Outcome)
    requires Decode(current).Ok? && Overlaying(opts, changed, Decode(current).value, managed, {})
    ensures r == Overlaid(current, managed)
  {
    assert opts == Decode(current).value + managed;
    r := if !changed then Ok((current, false)) else Ok((Value(JObj(opts)), true));
  }

  /** Server configuration and branding: keys in sorted order. */
  method OverlayConfig(current: Raw, managed: Fields) returns (r: Outcome)
    ensures r == Overlaid(current, managed)
  {
    var opts :- Decode(current);
    ghost var opts0 := opts;
    var keys := SortedKeys(managed);
    var changed := false;
    ghost var rest := managed.Keys;
    assert keys[0..] == keys;
    for i := 0 to |keys|
      invariant forall k :: k in rest <==> k in keys[i..]
      invariant Overlaying(opts, changed, opts0, managed, rest)
    {
      StepOverDistinct(keys, i);
      opts, changed := SetKey(opts, changed, keys[i], managed[keys[i]], opts0, managed, rest);
      rest := rest - {keys[i]};
    }
    assert rest == {};
    r := Finish(current, opts, changed, managed);
  }

  lemma StepOverDistinct(keys: seq<string>, i: nat)
    requires Distinct(keys) && i < |keys|
    ensures keys[i] in keys[i..]
    ensures forall k :: k in keys[i + 1..] <==> k in keys[i..] && k != keys[i]
  {
    assert keys[i..] == [keys[i]] + keys[i + 1..];
  }

  method SortedKeys(managed: Fields) returns (keys: seq<string>)
    ensures forall k :: k in keys <==> k in managed
    ensures Distinct(keys) && SortedBy(keys, (k: string) => k)
  {
    keys := [];
    var left := managed.Keys;
    while left != {}
      invariant left <= managed.Keys
      invariant forall k :: k in keys <==> k in managed && k !in left
      invariant Distinct(keys)
      decreases left
    {
      var k :| k in left;
      keys, left := keys + [k], left - {k};
    }
    SortByKeeps(keys, (k: string) => k);
    SortByMembers(keys, (k: string) => k);
    SortKeepsDistinctKeys(keys, (k: string) => k);
    keys := SortBy(keys, (k: string) => k);
  }

  /** The transcode fields the operator manages; `None` leaves the server's value alone. */
  datatype DesiredEncoding = DesiredEncoding(
    enableThrottling: Option<bool>,
    throttleDelaySeconds: Option<int>,
    enableSegmentDeletion: Option<bool>,
    segmentKeepSeconds: Option<int>)
  {
    /** The field behind a configuration key. */
    ghost function Field(key: string): Option<Json> {
      if key == "EnableThrottling" then BoolField(enableThrottling)
      else if key == "ThrottleDelaySeconds" then IntField(throttleDelaySeconds)
      else if key == "EnableSegmentDeletion" then BoolField(enableSegmentDeletion)
      else if key == "SegmentKeepSeconds" then IntField(segmentKeepSeconds)
      else None
    }

    ghost function Managed(): Fields {
      map k | k in ENCODING_KEYS && Field(k).Some? :: Field(k).value
    }
  }

  const ENCODING_KEYS: set<string> :=
    {"EnableThrottling", "ThrottleDelaySeconds", "EnableSegmentDeletion", "SegmentKeepSeconds"}

  /** The keys are told apart by their lengths. */
  lemma FieldsByKey(d: DesiredEncoding)
    ensures |"EnableThrottling"| == 16 && |"ThrottleDelaySeconds"| == 20
    ensures |"EnableSegmentDeletion"| == 21 && |"SegmentKeepSeconds"| == 18
    ensures "EnableThrottling" in ENCODING_KEYS && "ThrottleDelaySeconds" in ENCODING_KEYS - {"EnableThrottling"}
    ensures "EnableSegmentDeletion" in ENCODING_KEYS - {"EnableThrottling"} - {"ThrottleDelaySeconds"}
    ensures ENCODING_KEYS - {"EnableThrottling"} - {"ThrottleDelaySeconds"} - {"EnableSegmentDeletion"} == {"SegmentKeepSeconds"}
    ensures d.Field("EnableThrottling") == BoolField(d.enableThrottling)
    ensures d.Field("ThrottleDelaySeconds") == IntField(d.throttleDelaySeconds)
    ensures d.Field("EnableSegmentDeletion") == BoolField(d.enableSegmentDeletion)
    ensures d.Field("SegmentKeepSeconds") == IntField(d.segmentKeepSeconds)
  {
  }

  lemma ManagedAt(d: DesiredEncoding, key: string)
    requires key in ENCODING_KEYS
    ensures key in d.Managed() <==> d.Field(key).Some?
    ensures key in d.Managed() ==> d.Managed()[key] == d.Field(key).value
  {
  }

  lemma SkipKey(opts: Fields, changed: bool, opts0: Fields, managed: Fields, rest: set<string>, key: string)
    requires Overlaying(opts, changed, opts0, managed, rest) && key !in managed
    ensures Overlaying(opts, changed, opts0, managed, rest - {key})
  {
    assert (map k | k in managed && k !in rest :: managed[k]) == (map k | k in managed && k !in rest - {key} :: managed[k]);
  }

  /** A field that may be unset. */
  method SetIf(opts: Fields, changed: bool, key: string, val: Option<Json>,
               ghost opts0: Fields, ghost desired: DesiredEncoding, ghost rest: set<string>)
    returns (opts': Fields, changed': bool)
    requires Overlaying(opts, changed, opts0, desired.Managed(), rest)
    requires key in rest && key in ENCODING_KEYS && val == desired.Field(key)
    ensures Overlaying(opts', changed', opts0, desired.Managed(), rest - {key})
  {
    ManagedAt(desired, key);
    opts', changed' := opts, changed;
    if val.Some? {
      opts', changed' := SetKey(opts, changed, key, val.value, opts0, desired.Managed(), rest);
    } else {
      SkipKey(opts, changed, opts0, desired.Managed(), rest, key);
    }
  }

  function BoolField(v: Option<bool>): Option<Json> {
    if v.Some? then Some(JBool(v.value)) else None
  }

  function IntField(v: Option<int>): Option<Json> {
    if v.Some? then Some(JNum(v.value)) else None
  }

  method EnforceEncodingOptions(current: Raw, desired: DesiredEncoding) returns (r: Outcome)
    ensures r == Overlaid(current, desired.Managed())
  {
    var opts :- Decode(current);
    ghost var opts0 := opts;
    ghost var rest := ENCODING_KEYS;
    var changed := false;
    FieldsByKey(desired);
    opts, changed := SetIf(opts, changed, "EnableThrottling", BoolField(desired.enableThrottling), opts0, desired, rest);
    rest := rest - {"EnableThrottling"};
    opts, changed := SetIf(opts, changed, "ThrottleDelaySeconds", IntField(desired.throttleDelaySeconds), opts0, desired, rest);
    rest := rest - {"ThrottleDelaySeconds"};
    opts, changed := SetIf(opts, changed, "EnableSegmentDeletion", BoolField(desired.enableSegmentDeletion), opts0, desired, rest);
    rest := rest - {"EnableSegmentDeletion"};
    opts, changed := SetIf(opts, changed, "SegmentKeepSeconds", IntField(desired.segmentKeepSeconds), opts0, desired, rest);
    assert {"SegmentKeepSeconds"} - {"SegmentKeepSeconds"} == {};
    r := Finish(current, opts, changed, desired.Managed());
  }

  /** The options that stop Jellyfin from writing into a read-only media folder. */
  const READ_ONLY_OPTIONS: Fields := map[
    "SaveLocalMetadata" := JBool(false),
    "MetadataSavers" := JArr([]),
    "SaveSubtitlesWithMedia" := JBool(false),
    "SaveLyricsWithMedia" := JBool(false),
    "SaveTrickplayWithMedia" := JBool(false)]

  /** The table is a Go map, so its keys come in any order. */
  method EnforceReadOnlyOptions(current: Raw) returns (r: Outcome)
    ensures r == Overlaid(current, READ_ONLY_OPTIONS)
  {
    var opts :- Decode(current);
    ghost var opts0 := opts;
    var changed := false;
    var rest := READ_ONLY_OPTIONS.Keys;
    while rest != {}
      invariant rest <= READ_ONLY_OPTIONS.Keys
      invariant Overlaying(opts, changed, opts0, READ_ONLY_OPTIONS, rest)
      decreases rest
    {
      var k :| k in rest;
      opts, changed := SetKey(opts, changed, k, READ_ONLY_OPTIONS[k], opts0, READ_ONLY_OPTIONS, rest);
      rest := rest - {k};
    }
    r := Finish(current, opts, changed, READ_ONLY_OPTIONS);
  }

  /**
   What a caller gets from any engine: managed keys hold the desired values, other keys are kept,
   the change flag is exact, and applying it again to the answer reports no change.
   */
  lemma OverlayContract(current: Raw, managed: Fields)
    requires Overlaid(current, managed).Ok?
    ensures
      var (out, changed) := Overlaid(current, managed).value;
      && Decode(current).Ok? && Decode(out).Ok?
      && (forall k :: k in managed ==> k in Decode(out).value && Decode(out).value[k] == managed[k])
      && (forall k :: k !in managed ==> (k in Decode(out).value <==> k in Decode(current).value))
      && (forall k :: k in Decode(current).value && k !in managed ==> Decode(out).value[k] == Decode(current).value[k])
      && (changed <==> Decode(out).value != Decode(current).value)
      && (!changed ==> out == current)
      && Overlaid(out, managed) == Ok((out, false))
  {
    var opts := Decode(current).value;
    if Differs(opts, managed) {
      var k :| k in managed && (k !in opts || opts[k] != managed[k]);
      assert (opts + managed)[k] == managed[k];
      assert opts + managed != opts;
    } else {
      assert forall k :: k in managed ==> k in opts && opts[k] == managed[k];
    }
  }

  /**
   The same, told by what is read: an absent or null configuration counts as the empty object, an object is
   overlaid, and anything else is an error.
   */
  lemma OverlayReads(current: Raw, managed: Fields)
    ensures
      match current
      case Absent => Overlaid(current, managed).Ok? && Decode(Overlaid(current, managed).value.0) == Ok(managed)
      case Malformed => Overlaid(current, managed).Err?
      case Value(JNull) => Overlaid(current, managed).Ok? && Decode(Overlaid(current, managed).value.0) == Ok(managed)
      case Value(JObj(f)) => Overlaid(current, managed).Ok? && Overlaid(current, managed).value.0 == Value(JObj(f + managed))
      case Value(_) => Overlaid(current, managed).Err?
  {
    if current.Value? && current.json.JObj? {
      var f := current.json.fields;
      if !Differs(f, managed) {
        assert f + managed == f;
      }
    } else if Trimmed(current) {
      assert map[] + managed == managed;
      if !Differs(map[], managed) {
        assert managed == map[];
      }
    }
  }

  /** A configuration key holds the value asked for, or with none asked for what it held before. */
  ghost predicate Holds(out: Fields, before: Fields, key: string, asked: Option<Json>) {
    if asked.Some? then key in out && out[key] == asked.value
    else (key in out <==> key in before) && (key in out ==> out[key] == before[key])
  }

  /** What the transcode step leaves, key by key. */
  lemma EncodingKeys(f: Fields, d: DesiredEncoding)
    ensures
      var r := Overlaid(Value(JObj(f)), d.Managed());
      && r.Ok? && r.value.0.Value? && r.value.0.json.JObj?
      && var out := r.value.0.json.fields;
      && Holds(out, f, "EnableThrottling", if d.enableThrottling.Some? then Some(JBool(d.enableThrottling.value)) else None)
      && Holds(out, f, "ThrottleDelaySeconds", if d.throttleDelaySeconds.Some? then Some(JNum(d.throttleDelaySeconds.value)) else None)
      && Holds(out, f, "EnableSegmentDeletion", if d.enableSegmentDeletion.Some? then Some(JBool(d.enableSegmentDeletion.value)) else None)
      && Holds(out, f, "SegmentKeepSeconds", if d.segmentKeepSeconds.Some? then Some(JNum(d.segmentKeepSeconds.value)) else None)
  {
    OverlayReads(Value(JObj(f)), d.Managed());
    FieldsByKey(d);
    ManagedAt(d, "EnableThrottling");
    ManagedAt(d, "ThrottleDelaySeconds");
    ManagedAt(d, "EnableSegmentDeletion");
    ManagedAt(d, "SegmentKeepSeconds");
  }

  /** And it leaves every other key alone. */
  lemma EncodingOthers(f: Fields, d: DesiredEncoding, k: string)
    requires k != "EnableThrottling" && k != "ThrottleDelaySeconds" && k != "EnableSegmentDeletion" && k != "SegmentKeepSeconds"
    ensures
      var r := Overlaid(Value(JObj(f)), d.Managed());
      r.Ok? && r.value.0.Value? && r.value.0.json.JObj? && Holds(r.value.0.json.fields, f, k, None)
  {
    OverlayReads(Value(JObj(f)), d.Managed());
    assert k !in d.Managed();
  }
}
