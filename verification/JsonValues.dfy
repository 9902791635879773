/**
 JSON at the level of decoded values, deep merging of objects, and its relation to the merge
 patches of RFC 7396. Numbers are opaque: nothing here computes with them.
 */
module JsonValues {
  import opened Common

  datatype Json =
    | JNull
    | JBool(b: bool)
    | JNum(n: int)
    | JStr(s: string)
    | JArr(items: seq<Json>)
    | JObj(fields: Fields)

  type Fields = map<string, Json>

  /** The value-level meaning of a deep merge: objects on both sides recurse, otherwise `src` wins. */
  function Merge(dst: Fields, src: Fields): Fields
    decreases JObj(src)
  {
    map k | k in dst.Keys + src.Keys ::
      if k !in src then dst[k]
      else if k in dst && dst[k].JObj? && src[k].JObj? then
        JObj(Merge(dst[k].fields, src[k].fields))
      else src[k]
  }

  /** What a merge stores under a key that `src` has. */
  function MergeValue(dv: Option<Json>, sv: Json): Json {
    if dv.Some? && dv.value.JObj? && sv.JObj? then JObj(Merge(dv.value.fields, sv.fields)) else sv
  }

  /** Everything `src` declares, down to its leaves, already holds in `dst`. */
  ghost predicate Subsumes(dst: Fields, src: Fields)
    decreases JObj(src)
  {
    forall k :: k in src ==>
      && k in dst
      && if dst[k].JObj? && src[k].JObj?
         then Subsumes(dst[k].fields, src[k].fields)
         else dst[k] == src[k]
  }

  /** Merging establishes what was declared. */
  lemma {:induction false} MergeEstablishes(dst: Fields, src: Fields)
    ensures Subsumes(Merge(dst, src), src)
    decreases JObj(src)
  {
    var m := Merge(dst, src);
    forall k | k in src && m[k].JObj? && src[k].JObj?
      ensures Subsumes(m[k].fields, src[k].fields)
    {
      if k in dst && dst[k].JObj? {
        MergeEstablishes(dst[k].fields, src[k].fields);
      } else {
        SubsumesItself(src[k].fields);
      }
    }
  }

  lemma {:induction false} SubsumesItself(src: Fields)
    ensures Subsumes(src, src)
    decreases JObj(src)
  {
    forall k | k in src && src[k].JObj?
      ensures Subsumes(src[k].fields, src[k].fields)
    {
      SubsumesItself(src[k].fields);
    }
  }

  /** A merge is a no-op exactly when everything declared is already there. */
  lemma {:induction false} MergeNoOpIff(dst: Fields, src: Fields)
    ensures Merge(dst, src) == dst <==> Subsumes(dst, src)
    decreases JObj(src)
  {
    var m := Merge(dst, src);
    forall k | k in dst && k in src && dst[k].JObj? && src[k].JObj?
      ensures m[k] == dst[k] <==> Subsumes(dst[k].fields, src[k].fields)
    {
      MergeNoOpIff(dst[k].fields, src[k].fields);
    }
    if Subsumes(dst, src) {
      forall k | k in m
        ensures k in dst && m[k] == dst[k]
      {
      }
      assert m.Keys == dst.Keys;
    } else {
      var k :| k in src && !(k in dst && if dst[k].JObj? && src[k].JObj?
                                         then Subsumes(dst[k].fields, src[k].fields)
                                         else dst[k] == src[k]);
      assert k in m;
    }
  }

  /** Merging the same declaration again changes nothing. */
  lemma MergeIdempotent(dst: Fields, src: Fields)
    ensures Merge(Merge(dst, src), src) == Merge(dst, src)
  {
    MergeEstablishes(dst, src);
    MergeNoOpIff(Merge(dst, src), src);
  }

  /** MergePatch of section 2 of RFC 7396; `None` is the undefined target of the pseudocode. */
  function MergePatch(target: Option<Json>, patch: Json): Json
    decreases patch
  {
    if !patch.JObj? then patch
    else
      var base := if target.Some? && target.value.JObj? then target.value.fields else map[];
      JObj(map k | k in base.Keys + patch.fields.Keys && !(k in patch.fields && patch.fields[k].JNull?) ::
             if k !in patch.fields then base[k]
             else MergePatch(if k in base then Some(base[k]) else None, patch.fields[k]))
  }

  /** No object inside `j` has a member whose value is null; nulls inside arrays are allowed. */
  ghost predicate NoNullMembers(j: Json) {
    j.JObj? ==> forall k :: k in j.fields ==> !j.fields[k].JNull? && NoNullMembers(j.fields[k])
  }

  /** On a target that is not an object, a patch is its own result exactly when it has no null member. */
  lemma {:induction false} PatchReplaces(target: Option<Json>, patch: Json)
    requires !(target.Some? && target.value.JObj?)
    ensures MergePatch(target, patch) == patch <==> NoNullMembers(patch)
    decreases patch
  {
    if patch.JObj? {
      var r := MergePatch(target, patch).fields;
      forall k | k in patch.fields && !patch.fields[k].JNull?
        ensures k in r && (r[k] == patch.fields[k] <==> NoNullMembers(patch.fields[k]))
      {
        PatchReplaces(None, patch.fields[k]);
      }
      if NoNullMembers(patch) {
        assert r.Keys == patch.fields.Keys;
        assert r == patch.fields;
      }
    }
  }

  /**
   The operator's merge is a JSON merge patch exactly when the declared options contain no null
   member: RFC 7396 deletes such a member, the operator writes the null.
   */
  lemma {:induction false} MergeIsMergePatchIff(dst: Fields, src: Fields)
    ensures JObj(Merge(dst, src)) == MergePatch(Some(JObj(dst)), JObj(src)) <==> NoNullMembers(JObj(src))
    decreases JObj(src)
  {
    var m, r := Merge(dst, src), MergePatch(Some(JObj(dst)), JObj(src)).fields;
    forall k | k in src && !src[k].JNull?
      ensures k in r && k in m && (m[k] == r[k] <==> NoNullMembers(src[k]))
    {
      var t := if k in dst then Some(dst[k]) else None;
      assert r[k] == MergePatch(t, src[k]);
      if k in dst && dst[k].JObj? {
        if src[k].JObj? {
          MergeIsMergePatchIff(dst[k].fields, src[k].fields);
          assert dst[k] == JObj(dst[k].fields) && src[k] == JObj(src[k].fields);
        }
      } else {
        PatchReplaces(t, src[k]);
      }
    }
    if NoNullMembers(JObj(src)) {
      assert m.Keys == r.Keys;
      assert m == r;
    } else {
      var k :| k in src && (src[k].JNull? || !NoNullMembers(src[k]));
      assert k in m;
    }
  }
}
