/**
 Library options: the deep merge of declared options by way of heap objects, its composition with
 the read-only table, and the fixpoint that composition reaches after one pass.
 */
module LibraryOptions {
  import opened Common
  import opened JsonValues
  import opened DeepMerge
  import opened Overlay

  /** `json.Unmarshal` into `map[string]any`: a fresh tree of objects. */
  method Unmarshal(f: Fields) returns (o: JsonObject)
    ensures o.Valid() && fresh(o.repr) && o.View() == f
    decreases JObj(f), 0
  {
    o := new JsonObject();
    ghost var feet: map<string, set<JsonObject>>, view: Fields := map[], map[];
    var rest := f.Keys;
    while rest != {}
      invariant rest <= f.Keys
      invariant Shape(o, feet, view) && fresh(o.repr)
      invariant forall k :: k in view <==> k in f && k !in rest
      invariant forall k :: k in view ==> view[k] == f[k]
      decreases rest
    {
      var k :| k in rest;
      var v, foot := UnmarshalValue(f[k]);
      Store(o, k, v, false, foot, f[k], feet, view);
      feet, view, rest := feet[k := foot], view[k := f[k]], rest - {k};
    }
    ValidOfShape(o, feet, view);
    assert view == f;
  }

  method UnmarshalValue(j: Json) returns (v: Member, ghost foot: set<JsonObject>)
    ensures Denotes(v, foot, j) && fresh(foot)
    decreases j, 1
  {
    if j.JObj? {
      var o := Unmarshal(j.fields);
      v, foot := Ref(o), o.repr;
    } else {
      v, foot := Leaf(j), {};
    }
  }

  /** `json.Marshal` of such a tree. */
  method Marshal(o: JsonObject) returns (f: Fields)
    requires o.Valid()
    ensures f == o.View()
    decreases o.repr
  {
    f := map[];
    var rest := o.members.Keys;
    while rest != {}
      invariant rest <= o.members.Keys
      invariant forall k :: k in f <==> k in o.members && k !in rest
      invariant forall k :: k in f ==> f[k] == o.View()[k]
      decreases rest
    {
      var k :| k in rest;
      var j;
      match o.members[k] {
        case Leaf(l) => j := l;
        case Ref(c) =>
          var m := Marshal(c);
          j := JObj(m);
      }
      f, rest := f[k := j], rest - {k};
    }
  }

  /** Decoding the declared options: blank text never gets here. */
  function Declared(desired: Raw): Result<Fields, string> {
    if desired.Value? && desired.json.JObj? then Ok(desired.json.fields)
    else Err("cannot unmarshal into an object")
  }

  /** The value-level answer of a merge of declared options. */
  ghost function Merged(current: Raw, desired: Raw): Outcome {
    if Trimmed(desired) then Ok((current, false))
    else
      var cur :- Decode(current);
      var des :- Declared(desired);
      if Merge(cur, des) == cur then Ok((current, false)) else Ok((Value(JObj(Merge(cur, des))), true))
  }

  /** Decodes both objects into fresh trees, merges in place, and encodes the result. */
  method MergeDecoded(cur: Fields, des: Fields) returns (merged: Fields)
    ensures merged == Merge(cur, des)
  {
    var curMap := Unmarshal(cur);
    var desMap := Unmarshal(des);
    assert curMap.repr !! desMap.repr && curMap.View() == cur;
    MergeInPlace(curMap, desMap);
    merged := Marshal(curMap);
  }

  method MergeLibraryOptions(current: Raw, desired: Raw) returns (r: Outcome)
    ensures r == Merged(current, desired)
  {
    if Trimmed(desired) {
      return Ok((current, false));
    }
    var cur :- Decode(current);
    var des :- Declared(desired);
    var merged := MergeDecoded(cur, des);
    var changed := merged != cur;
    r := if !changed then Ok((current, false)) else Ok((Value(JObj(merged)), true));
  }

  /** What one pass makes of a library's options, and whether it posts them. */
  ghost function Enforced(current: Raw, preventWrites: bool, options: Raw): Outcome {
    var (closed, c1) :- if preventWrites then Overlaid(current, READ_ONLY_OPTIONS) else Ok((current, false));
    var (merged, c2) :- if options.Absent? then Ok((closed, false)) else Merged(closed, options);
    Ok((merged, c1 || c2))
  }

  /** The object the declared options contribute; nothing when they are absent or null. */
  ghost function DeclaredFields(options: Raw): Fields {
    if options.Value? && options.json.JObj? then options.json.fields else map[]
  }

  /** The declared options ask for something else than the read-only table on one of its keys. */
  ghost predicate Contradicts(options: Raw) {
    var des := DeclaredFields(options);
    exists k :: k in READ_ONLY_OPTIONS && k in des && des[k] != READ_ONLY_OPTIONS[k]
  }

  ghost function Closed(opts: Fields, preventWrites: bool): Fields {
    if preventWrites then opts + READ_ONLY_OPTIONS else opts
  }

  /** The value a successful pass leaves, whichever way it got there. */
  lemma EnforcedValue(current: Raw, preventWrites: bool, options: Raw)
    requires Decode(current).Ok? && Enforced(current, preventWrites, options).Ok?
    ensures
      var (out, changed) := Enforced(current, preventWrites, options).value;
      && Decode(out).Ok?
      && var cur, des := Decode(current).value, DeclaredFields(options);
      && Decode(out).value == Merge(Closed(cur, preventWrites), des)
      && (if changed then out == Value(JObj(Merge(Closed(cur, preventWrites), des))) else out == current)
      && (changed <==> Closed(cur, preventWrites) != cur
                       || Merge(Closed(cur, preventWrites), des) != Closed(cur, preventWrites))
  {
    var cur, des := Decode(current).value, DeclaredFields(options);
    var closed := if preventWrites then Overlaid(current, READ_ONLY_OPTIONS).value.0 else current;
    if preventWrites {
      OverlayContract(current, READ_ONLY_OPTIONS);
      assert Decode(closed).value == Closed(cur, true);
    }
    if Trimmed(options) {
      assert Merge(Closed(cur, preventWrites), des) == Closed(cur, preventWrites);
    }
  }

  /** Merging declared options over a closed object is stable under closing it again. */
  lemma CloseAndMergeStable(cur: Fields, preventWrites: bool, des: Fields)
    ensures
      var b := Merge(Closed(cur, preventWrites), des);
      Merge(Closed(b, preventWrites), des) == b
  {
    var a := Closed(cur, preventWrites);
    var b := Merge(a, des);
    var m := Merge(Closed(b, preventWrites), des);
    MergeIdempotent(a, des);
    assert forall k :: k in READ_ONLY_OPTIONS ==> !READ_ONLY_OPTIONS[k].JObj?;
    forall k | k in m
      ensures k in b && m[k] == b[k]
    {
      if k in READ_ONLY_OPTIONS && preventWrites {
        assert a[k] == READ_ONLY_OPTIONS[k];
      } else {
        assert m[k] == Merge(b, des)[k];
      }
    }
    assert m.Keys == b.Keys;
  }

  /** Closing and merging changes its own result on the way exactly when the declaration contradicts the table. */
  lemma ClosedMergeIsClosedIff(cur: Fields, options: Raw)
    ensures
      var b := Merge(Closed(cur, true), DeclaredFields(options));
      Closed(b, true) != b <==> Contradicts(options)
  {
    var des := DeclaredFields(options);
    var a := Closed(cur, true);
    var b := Merge(a, des);
    assert forall k :: k in READ_ONLY_OPTIONS ==> !READ_ONLY_OPTIONS[k].JObj?;
    forall k | k in READ_ONLY_OPTIONS
      ensures k in b && b[k] == if k in des then des[k] else READ_ONLY_OPTIONS[k]
    {
      assert a[k] == READ_ONLY_OPTIONS[k];
    }
    if Contradicts(options) {
      var k :| k in READ_ONLY_OPTIONS && k in des && des[k] != READ_ONLY_OPTIONS[k];
      assert Closed(b, true)[k] == READ_ONLY_OPTIONS[k];
    } else {
      assert Closed(b, true) == b;
    }
  }

  /**
   One pass reaches the fixpoint: a second pass computes the same options, and it posts them again
   exactly when the folder is read-only and the declared options contradict the table.
   */
  lemma SecondPass(current: Raw, preventWrites: bool, options: Raw)
    requires Enforced(current, preventWrites, options).Ok?
    ensures
      var out := Enforced(current, preventWrites, options).value.0;
      Enforced(out, preventWrites, options) == Ok((out, preventWrites && Contradicts(options)))
  {
    if !Decode(current).Ok? {
      assert !preventWrites && Enforced(current, preventWrites, options) == Ok((current, false));
    } else {
      var (out, changed) := Enforced(current, preventWrites, options).value;
      EnforcedValue(current, preventWrites, options);
      var b := Decode(out).value;
      EnforcedOkIff(current, preventWrites, options);
      EnforcedOkIff(out, preventWrites, options);
      EnforcedValue(out, preventWrites, options);
      CloseAndMergeStable(Decode(current).value, preventWrites, DeclaredFields(options));
      if preventWrites {
        ClosedMergeIsClosedIff(Decode(current).value, options);
      }
      if !changed {
        assert b == Decode(current).value == Closed(b, preventWrites);
      }
    }
  }

  /** Declared options win, undeclared keys of the table hold its values, everything else is kept. */
  lemma EnforcedPrecedence(current: Raw, preventWrites: bool, options: Raw, k: string)
    requires Decode(current).Ok? && Enforced(current, preventWrites, options).Ok?
    ensures
      var out := Decode(Enforced(current, preventWrites, options).value.0);
      var cur, des := Decode(current), DeclaredFields(options);
      && out.Ok? && Subsumes(out.value, des)
      && (preventWrites && k in READ_ONLY_OPTIONS && k !in des ==>
            k in out.value && out.value[k] == READ_ONLY_OPTIONS[k])
      && (k !in des && !(preventWrites && k in READ_ONLY_OPTIONS) ==>
            (k in out.value <==> k in cur.value) && (k in cur.value ==> out.value[k] == cur.value[k]))
  {
    EnforcedValue(current, preventWrites, options);
    MergeEstablishes(Closed(Decode(current).value, preventWrites), DeclaredFields(options));
  }

  /** Options that can be merged into: absent, null, or an object. */
  predicate Readable(current: Raw) {
    match current
    case Absent => true
    case Malformed => false
    case Value(j) => j.JNull? || j.JObj?
  }

  /** A pass over a library's options goes through exactly when all it has to read can be read. */
  lemma EnforcedOkIff(current: Raw, preventWrites: bool, options: Raw)
    ensures Enforced(current, preventWrites, options).Ok? <==>
      && (preventWrites ==> Readable(current))
      && (options != Absent && options != Value(JNull) ==> Readable(current) && options.Value? && options.json.JObj?)
  {
    if preventWrites {
      OverlayReads(current, READ_ONLY_OPTIONS);
      if Readable(current) {
        OverlayContract(current, READ_ONLY_OPTIONS);
      }
    }
  }

  /** The declared options say something about `key`. */
  predicate Mentions(options: Raw, key: string) {
    options.Value? && options.json.JObj? && key in options.json.fields
  }

  /** Unless the declared options speak of `key`, it holds `j`. */
  ghost predicate Forced(out: Fields, options: Raw, key: string, j: Json) {
    !Mentions(options, key) ==> key in out && out[key] == j
  }

  /**
   What a pass over a read-only library leaves: wherever the declared options do not say otherwise, Jellyfin
   saves no local metadata, subtitles, lyrics or trickplay images next to the media and runs no metadata savers.
   */
  lemma ReadOnlyStopsWrites(current: Raw, options: Raw)
    requires Enforced(current, true, options).Ok?
    ensures
      var out := Enforced(current, true, options).value.0;
      && out.Value? && out.json.JObj?
      && Forced(out.json.fields, options, "SaveLocalMetadata", JBool(false))
      && Forced(out.json.fields, options, "SaveSubtitlesWithMedia", JBool(false))
      && Forced(out.json.fields, options, "SaveLyricsWithMedia", JBool(false))
      && Forced(out.json.fields, options, "SaveTrickplayWithMedia", JBool(false))
      && Forced(out.json.fields, options, "MetadataSavers", JArr([]))
  {
    AnswerIsObject(current, options);
    EnforcedOkIff(current, true, options);
    EnforcedPrecedence(current, true, options, "SaveLocalMetadata");
    EnforcedPrecedence(current, true, options, "SaveSubtitlesWithMedia");
    EnforcedPrecedence(current, true, options, "SaveLyricsWithMedia");
    EnforcedPrecedence(current, true, options, "SaveTrickplayWithMedia");
    EnforcedPrecedence(current, true, options, "MetadataSavers");
  }

  /** It leaves alone every other key that the declared options do not speak of. */
  lemma ReadOnlyKeepsOthers(f: Fields, options: Raw, k: string)
    requires Enforced(Value(JObj(f)), true, options).Ok? && !Mentions(options, k)
    requires k != "SaveLocalMetadata" && k != "MetadataSavers" && k != "SaveSubtitlesWithMedia"
    requires k != "SaveLyricsWithMedia" && k != "SaveTrickplayWithMedia"
    ensures
      var out := Enforced(Value(JObj(f)), true, options).value.0;
      && out.Value? && out.json.JObj?
      && (k in out.json.fields <==> k in f) && (k in f ==> out.json.fields[k] == f[k])
  {
    AnswerIsObject(Value(JObj(f)), options);
    assert k !in READ_ONLY_OPTIONS;
    EnforcedPrecedence(Value(JObj(f)), true, options, k);
  }

  /** The answer for a read-only library is an object. */
  lemma AnswerIsObject(current: Raw, options: Raw)
    requires Enforced(current, true, options).Ok?
    ensures
      var out := Enforced(current, true, options).value.0;
      Decode(out).Ok? && out == Value(JObj(Decode(out).value))
  {
    EnforcedOkIff(current, true, options);
    OverlayReads(current, READ_ONLY_OPTIONS);
    EnforcedValue(current, true, options);
    if Trimmed(current) {
      assert Closed(map[], true) == READ_ONLY_OPTIONS != map[] by { assert "MetadataSavers" in READ_ONLY_OPTIONS; }
    }
  }
}
