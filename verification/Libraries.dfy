/**
 The library diff: what the operator computes from a listing, the set of calls it stands for, and
 the convergence of those calls in any order and from any interruption.
 */
module Libraries {
  import opened Common
  import opened Ordering
  import opened Overlay
  import opened InstanceSpec

  datatype DesiredLibrary = DesiredLibrary(name: string, collectionType: string, paths: seq<string>,
                                           options: Raw, preventWrites: bool)

  datatype VirtualFolder = VirtualFolder(name: string, collectionType: string, locations: seq<string>,
                                         itemId: string, options: Raw)

  datatype LibraryDiff = LibraryDiff(toCreate: seq<DesiredLibrary>,
                                     pathsToAdd: map<string, seq<string>>,
                                     pathsToRemove: map<string, seq<string>>,
                                     toRemove: seq<string>)
  {
    predicate Changed() {
      || |toCreate| > 0 || |toRemove| > 0
      || (exists n :: n in pathsToAdd && |pathsToAdd[n]| > 0)
      || (exists n :: n in pathsToRemove && |pathsToRemove[n]| > 0)
    }
  }

  // ---------- desired libraries ----------

  /** The library a media folder asks for, if any. */
  function LibraryOf(mf: MediaFolder): Option<DesiredLibrary> {
    if mf.library.None? then None
    else
      var lib := mf.library.value;
      Some(DesiredLibrary(if lib.name == "" then mf.name else lib.name, lib.collectionType,
                          [mf.mountPath], lib.options, mf.readOnly))
  }

  ghost function Wanted(media: seq<MediaFolder>): seq<DesiredLibrary> {
    if media == [] then []
    else
      var last := LibraryOf(media[|media| - 1]);
      Wanted(media[..|media| - 1]) + if last.Some? then [last.value] else []
  }

  /** The folder declares `d`: named after the folder unless it has a name, over the folder's mount path. */
  predicate Declares(mf: MediaFolder, d: DesiredLibrary) {
    && mf.library.Some?
    && d.name == (if mf.library.value.name != "" then mf.library.value.name else mf.name)
    && d.collectionType == mf.library.value.collectionType && d.options == mf.library.value.options
    && d.paths == [mf.mountPath] && d.preventWrites == mf.readOnly
  }

  lemma {:induction false} WantedMeaning(media: seq<MediaFolder>)
    ensures forall d :: d in Wanted(media) <==> exists mf :: mf in media && Declares(mf, d)
  {
    if media != [] {
      var init, mf := media[..|media| - 1], media[|media| - 1];
      WantedMeaning(init);
      InitAndLast(media);
      forall d
        ensures d in Wanted(media) <==> exists f :: f in media && Declares(f, d)
      {
        assert Declares(mf, d) <==> LibraryOf(mf) == Some(d);
        assert (exists f :: f in media && Declares(f, d)) <==> (exists f :: f in init && Declares(f, d)) || Declares(mf, d);
      }
    }
  }

  method DesiredLibraries(media: seq<MediaFolder>) returns (out: seq<DesiredLibrary>)
    ensures out == Wanted(media)
    ensures forall d :: d in out <==> exists mf :: mf in media && Declares(mf, d)
  {
    out := [];
    for n := 0 to |media|
      invariant out == Wanted(media[..n])
    {
      assert media[..n + 1][..n] == media[..n];
      var lib := LibraryOf(media[n]);
      if lib.Some? {
        out := out + [lib.value];
      }
    }
    assert media[..|media|] == media;
    WantedMeaning(media);
  }

  /** Writes are prevented for exactly the read-only mounts unless read-only is declared on the NFS source alone. */
  lemma PreventWritesMatchesMountIff(mf: MediaFolder)
    requires mf.library.Some?
    ensures LibraryOf(mf).value.preventWrites == (mf.readOnly || (mf.nfs.Some? && mf.nfs.value.readOnly))
            <==> !(mf.nfs.Some? && mf.nfs.value.readOnly && !mf.readOnly)
  {
  }

  // ---------- the server ----------

  datatype Library = Library(collectionType: string, locations: set<string>, itemId: string, options: Raw)

  type Libs = map<string, Library>

  /** `existing` is a listing of `libs`, in whatever order the server returns it. */
  ghost predicate Lists(existing: seq<VirtualFolder>, libs: Libs) {
    && (forall i, j :: 0 <= i < j < |existing| ==> existing[i].name != existing[j].name)
    && (forall n :: n in libs <==> exists f :: f in existing && f.name == n)
    && (forall f :: f in existing ==>
          && f.name in libs && Distinct(f.locations)
          && libs[f.name] == Library(f.collectionType, ToSet(f.locations), f.itemId, f.options))
  }

  // ---------- the diff ----------

  ghost function Index(existing: seq<VirtualFolder>): map<string, VirtualFolder> {
    if existing == [] then map[]
    else
      var last := existing[|existing| - 1];
      Index(existing[..|existing| - 1])[last.name := last]
  }

  /** The members of `xs` outside `s`, in order. */
  ghost function Outside(xs: seq<string>, s: seq<string>): seq<string> {
    if xs == [] then []
    else
      var last := xs[|xs| - 1];
      Outside(xs[..|xs| - 1], s) + if last in s then [] else [last]
  }

  ghost function Missing(desired: seq<DesiredLibrary>, index: map<string, VirtualFolder>): seq<DesiredLibrary> {
    if desired == [] then []
    else
      var last := desired[|desired| - 1];
      Missing(desired[..|desired| - 1], index) + if last.name in index then [] else [last]
  }

  /** Paths to add to library `n`, over all desired entries of that name. */
  ghost function Additions(desired: seq<DesiredLibrary>, index: map<string, VirtualFolder>, n: string): seq<string> {
    if desired == [] then []
    else
      var last := desired[|desired| - 1];
      Additions(desired[..|desired| - 1], index, n)
      + if last.name == n && n in index then Outside(last.paths, index[n].locations) else []
  }

  ghost function Removals(desired: seq<DesiredLibrary>, index: map<string, VirtualFolder>, n: string): seq<string> {
    if desired == [] then []
    else
      var last := desired[|desired| - 1];
      Removals(desired[..|desired| - 1], index, n)
      + if last.name == n && n in index then Outside(index[n].locations, last.paths) else []
  }

  ghost function Prunable(existing: seq<VirtualFolder>, desired: seq<DesiredLibrary>, managed: seq<string>): seq<string> {
    if existing == [] then []
    else
      var last := existing[|existing| - 1].name;
      Prunable(existing[..|existing| - 1], desired, managed)
      + if last in managed && (forall d :: d in desired ==> d.name != last) then [last] else []
  }

  /** `m` has an entry for exactly the libraries with paths to add, and it is their list. */
  ghost predicate TabulatesAdditions(m: map<string, seq<string>>, desired: seq<DesiredLibrary>,
                                     index: map<string, VirtualFolder>)
  {
    forall n :: (n in m <==> Additions(desired, index, n) != []) && (n in m ==> m[n] == Additions(desired, index, n))
  }

  ghost predicate TabulatesRemovals(m: map<string, seq<string>>, desired: seq<DesiredLibrary>,
                                    index: map<string, VirtualFolder>)
  {
    forall n :: (n in m <==> Removals(desired, index, n) != []) && (n in m ==> m[n] == Removals(desired, index, n))
  }

  /** The diff the source promises, up to the arrangement of equal names by the library sort. */
  ghost predicate IsDiff(diff: LibraryDiff, desired: seq<DesiredLibrary>, existing: seq<VirtualFolder>,
                         managed: seq<string>, prune: bool)
  {
    var index := Index(existing);
    && multiset(diff.toCreate) == multiset(Missing(desired, index)) && SortedBy(diff.toCreate, (d: DesiredLibrary) => d.name)
    && TabulatesAdditions(diff.pathsToAdd, desired, index)
    && TabulatesRemovals(diff.pathsToRemove, desired, index)
    && multiset(diff.toRemove) == multiset(if prune then Prunable(existing, desired, managed) else [])
    && SortedBy(diff.toRemove, (n: string) => n)
  }

  method DiffLibraries(desired: seq<DesiredLibrary>, existing: seq<VirtualFolder>, managed: seq<string>, prune: bool)
    returns (diff: LibraryDiff)
    ensures IsDiff(diff, desired, existing, managed, prune)
  {
    var byName := FoldersByName(existing);
    var create, add, remove := DiffDesired(desired, byName);
    var prunable := [];
    if prune {
      prunable := DiffPrunable(existing, desired, managed);
    }
    SortByKeeps(prunable, (n: string) => n);
    SortByKeeps(create, (d: DesiredLibrary) => d.name);
    diff := LibraryDiff(SortBy(create, (d: DesiredLibrary) => d.name), add, remove, SortBy(prunable, (n: string) => n));
  }

  method FoldersByName(existing: seq<VirtualFolder>) returns (byName: map<string, VirtualFolder>)
    ensures byName == Index(existing)
  {
    byName := map[];
    for i := 0 to |existing|
      invariant byName == Index(existing[..i])
    {
      assert existing[..i + 1][..i] == existing[..i];
      byName := byName[existing[i].name := existing[i]];
    }
    assert existing[..|existing|] == existing;
  }

  /** `r` is `m` with `more` appended under `n`. */
  ghost predicate Appended(r: map<string, seq<string>>, m: map<string, seq<string>>, n: string, more: seq<string>) {
    r == if more == [] then m else m[n := (if n in m then m[n] else []) + more]
  }

  lemma TabulatesStep(add: map<string, seq<string>>, add': map<string, seq<string>>,
                      remove: map<string, seq<string>>, remove': map<string, seq<string>>,
                      desired: seq<DesiredLibrary>, d: DesiredLibrary, index: map<string, VirtualFolder>)
    requires TabulatesAdditions(add, desired, index) && TabulatesRemovals(remove, desired, index)
    requires if d.name in index
             then Appended(add', add, d.name, Outside(d.paths, index[d.name].locations))
               && Appended(remove', remove, d.name, Outside(index[d.name].locations, d.paths))
             else add' == add && remove' == remove
    ensures TabulatesAdditions(add', desired + [d], index) && TabulatesRemovals(remove', desired + [d], index)
  {
    assert (desired + [d])[..|desired|] == desired;
  }

  method DiffDesired(desired: seq<DesiredLibrary>, byName: map<string, VirtualFolder>)
    returns (create: seq<DesiredLibrary>, add: map<string, seq<string>>, remove: map<string, seq<string>>)
    ensures create == Missing(desired, byName)
    ensures TabulatesAdditions(add, desired, byName) && TabulatesRemovals(remove, desired, byName)
  {
    create, add, remove := [], map[], map[];
    for i := 0 to |desired|
      invariant create == Missing(desired[..i], byName)
      invariant TabulatesAdditions(add, desired[..i], byName)
      invariant TabulatesRemovals(remove, desired[..i], byName)
    {
      var d := desired[i];
      assert desired[..i + 1][..i] == desired[..i];
      ghost var add0, remove0 := add, remove;
      if d.name !in byName {
        create := create + [d];
      } else {
        var cur := byName[d.name];
        add := AppendOutside(add, d.name, d.paths, cur.locations);
        remove := AppendOutside(remove, d.name, cur.locations, d.paths);
      }
      assert desired[..i + 1] == desired[..i] + [d];
      TabulatesStep(add0, add, remove0, remove, desired[..i], d, byName);
    }
    assert desired[..|desired|] == desired;
  }

  lemma AppendedOne(r: map<string, seq<string>>, m: map<string, seq<string>>, n: string, more: seq<string>, x: string)
    requires Appended(r, m, n, more)
    ensures Appended(r[n := (if n in r then r[n] else []) + [x]], m, n, more + [x])
  {
    var base := if n in m then m[n] else [];
    assert base + more + [x] == base + (more + [x]);
    assert more == [] ==> base + [x] == base + (more + [x]);
  }

  /** Appends to `m[n]` the members of `xs` that `have` lacks; no entry appears when there are none. */
  method AppendOutside(m: map<string, seq<string>>, n: string, xs: seq<string>, have: seq<string>)
    returns (r: map<string, seq<string>>)
    ensures Appended(r, m, n, Outside(xs, have))
  {
    r := m;
    for i := 0 to |xs|
      invariant Appended(r, m, n, Outside(xs[..i], have))
    {
      assert xs[..i + 1][..i] == xs[..i];
      ghost var more := Outside(xs[..i], have);
      assert Outside(xs[..i + 1], have) == if xs[i] in have then more else more + [xs[i]];
      if xs[i] !in have {
        AppendedOne(r, m, n, Outside(xs[..i], have), xs[i]);
        r := r[n := (if n in r then r[n] else []) + [xs[i]]];
      }
    }
    assert xs[..|xs|] == xs;
  }

  method DiffPrunable(existing: seq<VirtualFolder>, desired: seq<DesiredLibrary>, managed: seq<string>)
    returns (prunable: seq<string>)
    ensures prunable == Prunable(existing, desired, managed)
  {
    prunable := [];
    for i := 0 to |existing|
      invariant prunable == Prunable(existing[..i], desired, managed)
    {
      assert existing[..i + 1][..i] == existing[..i];
      var n := existing[i].name;
      if n in managed && forall d | d in desired :: d.name != n {
        prunable := prunable + [n];
      }
    }
    assert existing[..|existing|] == existing;
  }
}
