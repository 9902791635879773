/**
 The in-place deep merge over Go's `map[string]any` objects: nested objects are heap references,
 so merging can make the destination share subtrees with the source.
 */
module DeepMerge {
  import opened Common
  import opened JsonValues

  /** A value stored under a key: another object, or anything the merge never looks into. */
  datatype Member = Leaf(json: Json) | Ref(o: JsonObject)

  /** A `map[string]any`. `repr` is the set of objects of the tree below it. */
  class JsonObject {
    var members: map<string, Member>
    ghost var repr: set<JsonObject>

    /** An empty object. */
    constructor ()
      ensures members == map[] && repr == {this}
    {
      members, repr := map[], {this};
    }

    /** The object is the root of a tree: no cycles and no sharing between siblings. */
    ghost predicate Valid()
      reads this, repr
      decreases repr
    {
      && this in repr
      && (forall k :: k in members ==> match members[k]
            case Leaf(j) => !j.JObj?
            case Ref(o) => o in repr && o.repr <= repr - {this} && o.Valid())
      && (forall k, k' :: k in members && k' in members && k != k' && members[k].Ref? && members[k'].Ref? ==>
            members[k].o.repr !! members[k'].o.repr)
    }

    /** The JSON object this heap object stands for. */
    ghost function View(): Fields
      reads this, repr
      requires Valid()
      decreases repr
    {
      map k | k in members ::
        match members[k]
        case Leaf(j) => j
        case Ref(o) => JObj(o.View())
    }
  }

  /** The member `v` stands for `j`, and its objects lie within `foot`. */
  ghost predicate Denotes(v: Member, foot: set<JsonObject>, j: Json)
    reads foot
  {
    match v
    case Leaf(l) => !l.JObj? && l == j
    case Ref(o) => o in foot && o.repr <= foot && o.Valid() && j == JObj(o.View())
  }

  /** `d` is a tree whose members lie in the pairwise disjoint footprints `feet` and stand for `view`. */
  ghost predicate Shape(d: JsonObject, feet: map<string, set<JsonObject>>, view: Fields)
    reads d, d.repr
  {
    && d in d.repr
    && d.members.Keys == feet.Keys == view.Keys
    && (forall k :: k in feet ==> feet[k] <= d.repr - {d})
    && (forall k :: k in feet ==> Denotes(d.members[k], feet[k], view[k]))
    && (forall k, k' :: k in feet && k' in feet && k != k' ==> feet[k] !! feet[k'])
  }

  ghost function Feet(d: JsonObject): map<string, set<JsonObject>>
    requires d.Valid()
    reads d, d.repr
  {
    map k | k in d.members :: if d.members[k].Ref? then d.members[k].o.repr else {}
  }

  lemma ShapeOfValid(d: JsonObject)
    requires d.Valid()
    ensures Shape(d, Feet(d), d.View())
  {
  }

  lemma ValidOfShape(d: JsonObject, feet: map<string, set<JsonObject>>, view: Fields)
    requires Shape(d, feet, view)
    ensures d.Valid() && d.View() == view
  {
    forall k | k in d.members
      ensures Denotes(d.members[k], feet[k], view[k])
    {
    }
  }

  lemma ShapeWith(d: JsonObject, feet: map<string, set<JsonObject>>, view: Fields,
                  k: string, foot: set<JsonObject>, j: Json)
    requires d in d.repr && feet.Keys == view.Keys && d.members.Keys == feet.Keys + {k}
    requires forall k' :: k' in feet && k' != k ==> feet[k'] <= d.repr - {d} && Denotes(d.members[k'], feet[k'], view[k'])
    requires forall k', k'' :: k' in feet && k'' in feet && k' != k'' ==> feet[k'] !! feet[k'']
    requires foot <= d.repr - {d} && Denotes(d.members[k], foot, j)
    requires forall k' :: k' in feet && k' != k ==> feet[k'] !! foot
    ensures Shape(d, feet[k := foot], view[k := j])
  {
  }

  /**
   A merge in flight, as values: the trees `feet`/`view` it started from, the source it reads, and
   the objects of either side.
   */
  datatype Goal = Goal(feet: map<string, set<JsonObject>>, view: Fields, pool: set<JsonObject>,
                             srcFeet: map<string, set<JsonObject>>, srcView: Fields, srcPool: set<JsonObject>)
  {
    ghost predicate Valid() {
      && (forall k :: k in feet <==> k in view)
      && (forall k :: k in srcFeet <==> k in srcView)
    }

    /** The two sides share no object, and neither do two members of the source. */
    ghost predicate Apart() {
      && pool !! srcPool
      && (forall k :: k in feet ==> feet[k] <= pool)
      && (forall k :: k in srcFeet ==> srcFeet[k] <= srcPool)
      && (forall k, k' :: k in srcFeet && k' in srcFeet && k != k' ==> srcFeet[k] !! srcFeet[k'])
    }

    /** What key `k` must finally hold. */
    ghost function Want(k: string): Json
      requires Valid() && k in srcView
    {
      MergeValue(if k in view then Some(view[k]) else None, srcView[k])
    }

    /** Keys in `rest` and keys the source lacks are as they were; the others are merged. */
    ghost predicate Progress(feet': map<string, set<JsonObject>>, view': Fields, rest: set<string>)
      requires Valid()
    {
      && (forall k :: k in feet' <==> k in view')
      && (forall k :: k in feet' <==> k in feet || (k in srcFeet && k !in rest))
      && (forall k :: k in feet' && (k in rest || k !in srcFeet) ==> feet'[k] == feet[k] && view'[k] == view[k])
      && (forall k :: k in srcFeet && k !in rest ==>
            view'[k] == Want(k) && feet'[k] <= (if k in feet then feet[k] else {}) + srcFeet[k])
    }

    lemma ProgressStep(feet': map<string, set<JsonObject>>, view': Fields, rest: set<string>,
                       k: string, foot: set<JsonObject>)
      requires Valid() && Progress(feet', view', rest) && k in rest && k in srcFeet
      requires foot <= (if k in feet then feet[k] else {}) + srcFeet[k]
      ensures k in feet' ==> view'[k] == view[k]
      ensures Progress(feet'[k := foot], view'[k := Want(k)], rest - {k})
    {
    }

    lemma ProgressDone(feet': map<string, set<JsonObject>>, view': Fields)
      requires Valid() && Progress(feet', view', {})
      ensures view' == Merge(view, srcView)
    {
    }

    /** A source member still to be merged overlaps nothing the destination holds. */
    lemma PendingIsApart(feet': map<string, set<JsonObject>>, view': Fields, rest: set<string>, k: string)
      requires Valid() && Apart() && Progress(feet', view', rest) && k in rest && k in srcFeet
      ensures forall k' :: k' in feet' ==> feet'[k'] !! srcFeet[k]
    {
    }
  }

  /** The merge towards `g` has the keys `rest` left. */
  ghost predicate Merging(d: JsonObject, g: Goal, feet: map<string, set<JsonObject>>, view: Fields, rest: set<string>)
    reads d, d.repr
  {
    g.Valid() && g.Apart() && g.Progress(feet, view, rest) && Shape(d, feet, view) && d.repr <= g.pool + g.srcPool
  }

  /** The member under `k` now stands for `j`: its objects join the tree of `d`. */
  ghost method Adopt(d: JsonObject, k: string, foot: set<JsonObject>, j: Json,
                     feet: map<string, set<JsonObject>>, view: Fields)
    requires d in d.repr && feet.Keys == view.Keys && d.members.Keys == feet.Keys + {k}
    requires forall k' :: k' in feet && k' != k ==> feet[k'] <= d.repr - {d} && Denotes(d.members[k'], feet[k'], view[k'])
    requires forall k', k'' :: k' in feet && k'' in feet && k' != k'' ==> feet[k'] !! feet[k'']
    requires Denotes(d.members[k], foot, j) && d !in foot
    requires forall k' :: k' in feet && k' != k ==> feet[k'] !! foot
    modifies d
    ensures d.members == old(d.members) && d.repr == old(d.repr) + foot
    ensures Shape(d, feet[k := foot], view[k := j])
  {
    d.repr := d.repr + foot;
    forall k' | k' in feet && k' != k
      ensures Denotes(d.members[k'], feet[k'], view[k'])
    {
      assert old(Denotes(d.members[k'], feet[k'], view[k']));
    }
    ShapeWith(d, feet, view, k, foot, j);
  }

  /** `d[k] = v`, where `v` stands for `j`; `again` when that is what `d` holds already. */
  method Store(d: JsonObject, k: string, v: Member, ghost again: bool, ghost foot: set<JsonObject>, ghost j: Json,
               ghost feet: map<string, set<JsonObject>>, ghost view: Fields)
    requires again ==> k in d.members && d.members[k] == v
    requires !again ==> Shape(d, feet, view) && Denotes(v, foot, j) && d !in foot
    requires !again ==> forall k' :: k' in feet && k' != k ==> feet[k'] !! foot
    modifies d
    ensures again ==> unchanged(d)
    ensures !again ==> d.repr == old(d.repr) + foot && Shape(d, feet[k := foot], view[k := j])
  {
    assert again ==> d.members[k := v] == d.members;
    d.members := d.members[k := v];
    if !again {
      forall k' | k' in feet && k' != k
        ensures Denotes(d.members[k'], feet[k'], view[k'])
      {
        assert old(Denotes(d.members[k'], feet[k'], view[k']));
      }
      Adopt(d, k, foot, j, feet, view);
    }
  }

  /** Merging `sv` into key `k` of `d` has nothing left to do. */
  ghost predicate Holds(d: JsonObject, k: string, sv: Member)
    reads d, d.repr
    reads if sv.Ref? then {sv.o} + sv.o.repr else {}
  {
    && d.Valid() && k in d.members
    && if d.members[k].Ref? && sv.Ref?
       then sv.o.Valid() && Subsumes(d.members[k].o.View(), sv.o.View())
       else d.members[k] == sv
  }

  lemma HoldsFromSubsumes(dst: JsonObject, src: JsonObject, g: Goal, k: string)
    requires Shape(dst, g.feet, g.view) && Shape(src, g.srcFeet, g.srcView)
    requires Subsumes(g.view, g.srcView) && k in src.members
    ensures Holds(dst, k, src.members[k])
  {
    ValidOfShape(dst, g.feet, g.view);
    assert k in g.view && k in g.srcView;
    assert Denotes(dst.members[k], g.feet[k], g.view[k]) && Denotes(src.members[k], g.srcFeet[k], g.srcView[k]);
  }

  /** One key of the merge loop; `feet` and `view` are what `dst` looks like before it. */
  method MergeMember(dst: JsonObject, k: string, sv: Member, ghost again: bool, ghost srcFoot: set<JsonObject>, ghost sj: Json,
                     ghost feet: map<string, set<JsonObject>>, ghost view: Fields)
    returns (ghost foot: set<JsonObject>)
    requires Denotes(sv, srcFoot, sj)
    requires again ==> Holds(dst, k, sv)
    requires !again ==> Shape(dst, feet, view) && dst !in srcFoot && forall k' :: k' in feet ==> feet[k'] !! srcFoot
    modifies {dst} + (if again then dst.repr else if k in feet then feet[k] else {})
    ensures again ==> unchanged(dst) && unchanged(dst.repr)
    ensures !again ==> dst.repr == old(dst.repr) + srcFoot && foot <= (if k in feet then feet[k] else {}) + srcFoot
    ensures !again ==> Shape(dst, feet[k := foot], view[k := MergeValue(if k in view then Some(view[k]) else None, sj)])
    decreases srcFoot, 3
  {
    if k in dst.members && dst.members[k].Ref? && sv.Ref? {
      foot := if again then srcFoot else feet[k] + srcFoot;
      MergeChild(dst, k, sv.o, again, srcFoot, sj, feet, view);
    } else {
      foot := srcFoot;
      assert !again && k in feet ==> Denotes(dst.members[k], feet[k], view[k]);
      Store(dst, k, sv, again, srcFoot, sj, feet, view);
    }
  }

  /** An object on both sides: it is merged where it stands. */
  method MergeChild(dst: JsonObject, k: string, src: JsonObject, ghost again: bool, ghost srcFoot: set<JsonObject>, ghost sj: Json,
                    ghost feet: map<string, set<JsonObject>>, ghost view: Fields)
    requires k in dst.members && dst.members[k].Ref? && Denotes(Ref(src), srcFoot, sj)
    requires again ==> Holds(dst, k, Ref(src))
    requires !again ==> Shape(dst, feet, view) && dst !in srcFoot && forall k' :: k' in feet ==> feet[k'] !! srcFoot
    modifies {dst} + (if again then dst.repr else if k in feet then feet[k] else {})
    ensures again ==> unchanged(dst) && unchanged(dst.repr)
    ensures !again ==> dst.repr == old(dst.repr) + srcFoot
    ensures !again ==> Shape(dst, feet[k := feet[k] + srcFoot], view[k := MergeValue(Some(view[k]), sj)])
    decreases srcFoot, 2
  {
    if !again {
      assert Denotes(dst.members[k], feet[k], view[k]);
      assert forall k' :: k' in feet && k' != k ==> feet[k'] !! feet[k] + srcFoot;
    }
    MergeInPlace(dst.members[k].o, src);
    if !again {
      forall k' | k' in feet && k' != k
        ensures Denotes(dst.members[k'], feet[k'], view[k'])
      {
        assert unchanged(feet[k']) && old(Denotes(dst.members[k'], feet[k'], view[k']));
      }
      Adopt(dst, k, feet[k] + srcFoot, MergeValue(Some(view[k]), sj), feet, view);
    }
  }

  /** The merge loop's body: `k` is no longer pending. */
  method MergeNext(dst: JsonObject, k: string, sv: Member, ghost again: bool, ghost g: Goal,
                   ghost feet: map<string, set<JsonObject>>, ghost view: Fields, ghost rest: set<string>)
    returns (ghost feet': map<string, set<JsonObject>>, ghost view': Fields)
    requires k in g.srcFeet && k in g.srcView && Denotes(sv, g.srcFeet[k], g.srcView[k])
    requires again ==> Holds(dst, k, sv)
    requires !again ==> Merging(dst, g, feet, view, rest) && k in rest && dst !in g.srcPool
    modifies {dst} + (if again then dst.repr else if k in g.feet then g.feet[k] else {})
    ensures again ==> unchanged(dst) && unchanged(dst.repr)
    ensures !again ==> Merging(dst, g, feet', view', rest - {k})
    ensures unchanged(g.srcPool)
    decreases g.srcFeet[k], 4
  {
    feet', view' := feet, view;
    if !again {
      g.PendingIsApart(feet, view, rest, k);
    }
    ghost var foot := MergeMember(dst, k, sv, again, g.srcFeet[k], g.srcView[k], feet, view);
    if !again {
      g.ProgressStep(feet, view, rest, k, foot);
      feet', view' := feet[k := foot], view[k := g.Want(k)];
    }
  }

  /**
   The merge itself. The two trees share no object, or `dst` already holds all that `src` declares; so
   the same source may be merged again after it left `dst` sharing some of its objects, and then no
   object of `dst` changes.
   */
  method MergeInPlace(dst: JsonObject, src: JsonObject)
    requires dst.Valid() && src.Valid()
    requires dst.repr !! src.repr || Subsumes(dst.View(), src.View())
    modifies dst.repr
    ensures dst.Valid() && dst.repr <= old(dst.repr) + src.repr
    ensures src.Valid() && src.View() == old(src.View())
    ensures dst.View() == old(Merge(dst.View(), src.View()))
    ensures old(Subsumes(dst.View(), src.View())) ==> unchanged(dst) && unchanged(dst.repr)
    decreases src.repr, 1
  {
    ghost var g := Goal(Feet(dst), dst.View(), dst.repr, Feet(src), src.View(), src.repr);
    ghost var again := Subsumes(g.view, g.srcView);
    ShapeOfValid(dst);
    ShapeOfValid(src);
    ghost var feet, view := MergeMembers(dst, src, again, g);
    ValidOfShape(src, g.srcFeet, g.srcView);
    if again {
      ValidOfShape(dst, g.feet, g.view);
      MergeNoOpIff(g.view, g.srcView);
    } else {
      ValidOfShape(dst, feet, view);
      g.ProgressDone(feet, view);
    }
  }

  /** The merge loop: the keys of a Go map come in any order. */
  method MergeMembers(dst: JsonObject, src: JsonObject, ghost again: bool, ghost g: Goal)
    returns (ghost feet: map<string, set<JsonObject>>, ghost view: Fields)
    requires Shape(dst, g.feet, g.view) && Shape(src, g.srcFeet, g.srcView) && src.repr == g.srcPool
    requires again ==> Subsumes(g.view, g.srcView)
    requires !again ==> Merging(dst, g, g.feet, g.view, g.srcFeet.Keys) && dst.repr !! src.repr
    modifies dst.repr
    ensures Shape(src, g.srcFeet, g.srcView)
    ensures again ==> Shape(dst, g.feet, g.view) && unchanged(dst) && unchanged(dst.repr)
    ensures !again ==> Merging(dst, g, feet, view, {})
    decreases src.repr, 0
  {
    feet, view := g.feet, g.view;
    var rest := src.members.Keys;
    while rest != {}
      invariant rest <= g.srcFeet.Keys
      invariant Shape(src, g.srcFeet, g.srcView) && src.repr == old(src.repr)
      invariant again ==> Shape(dst, g.feet, g.view) && unchanged(dst) && unchanged(dst.repr)
      invariant !again ==> Merging(dst, g, feet, view, rest)
      decreases rest
    {
      var k :| k in rest;
      assert Denotes(src.members[k], g.srcFeet[k], g.srcView[k]);
      if again {
        HoldsFromSubsumes(dst, src, g, k);
      }
      label Before:
      feet, view := MergeNext(dst, k, src.members[k], again, g, feet, view, rest);
      assert unchanged@Before(src) && unchanged@Before(src.repr);
      rest := rest - {k};
    }
  }

  /** Merging a source again, into what a merge of it made of `before`, changes no object. */
  method MergeAgain(dst: JsonObject, src: JsonObject, ghost before: Fields)
    requires dst.Valid() && src.Valid() && dst.View() == Merge(before, src.View())
    modifies dst.repr
    ensures unchanged(dst) && unchanged(dst.repr)
    ensures dst.Valid() && dst.View() == Merge(before, src.View())
  {
    MergeEstablishes(before, src.View());
    MergeInPlace(dst, src);
  }

  /**
   Merging the same source twice, though the first merge left `dst` sharing objects with it: the result is
   that of one merge and the source is as it was.
   */
  method MergeTwice(dst: JsonObject, src: JsonObject)
    requires dst.Valid() && src.Valid() && dst.repr !! src.repr
    modifies dst.repr, src.repr
    ensures unchanged(src) && unchanged(src.repr)
    ensures dst.Valid() && dst.View() == old(Merge(dst.View(), src.View()))
  {
    ghost var before := dst.View();
    MergeInPlace(dst, src);
    MergeAgain(dst, src, before);
  }
}
