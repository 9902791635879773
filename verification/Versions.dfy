/** Versions: parsing, zero-padded comparison, and the server version an image reference carries. */
module Versions {
  import opened Common

  /** White space in the sense of `strings.TrimSpace`. */
  predicate IsSpace(c: char) {
    c == ' ' || '\t' <= c <= '\r' || c == 0x85 as char || c == 0xA0 as char
    || c == 0x1680 as char || 0x2000 as char <= c <= 0x200A as char || c == 0x2028 as char || c == 0x2029 as char
    || c == 0x202F as char || c == 0x205F as char || c == 0x3000 as char
  }

  function TrimSpace(s: string): string {
    if s == [] then s
    else if IsSpace(s[0]) then TrimSpace(s[1..])
    else if IsSpace(s[|s| - 1]) then TrimSpace(s[..|s| - 1])
    else s
  }

  /** `strings.Split(s, ".")`; `part` is the part read so far. */
  function SplitDots(s: string, part: string): seq<string> {
    if s == [] then [part]
    else if s[0] == '.' then [part] + SplitDots(s[1..], "")
    else SplitDots(s[1..], part + [s[0]])
  }

  predicate AllDigits(s: string) {
    forall i :: 0 <= i < |s| ==> '0' <= s[i] <= '9'
  }

  function DigitsValue(s: string): nat
    requires AllDigits(s)
  {
    if s == [] then 0 else 10 * DigitsValue(s[..|s| - 1]) + (s[|s| - 1] as int - '0' as int)
  }

  const TWO_TO_THE_63: int := 0x8000_0000_0000_0000

  /** `strconv.Atoi` on a 64-bit platform: an optional sign, digits, and the range of int64. */
  function Atoi(s: string): Option<int> {
    var signed := s != [] && (s[0] == '+' || s[0] == '-');
    var digits := if signed then s[1..] else s;
    if digits == [] || !AllDigits(digits) then None
    else
      var value: int := DigitsValue(digits);
      var n := if signed && s[0] == '-' then -value else value;
      if -TWO_TO_THE_63 <= n < TWO_TO_THE_63 then Some(n) else None
  }

  type Version = v: seq<int> | |v| == 4 witness [0, 0, 0, 0]

  /** A version component: a number that is not negative. */
  function Component(part: string): Option<int> {
    var n := Atoi(TrimSpace(part));
    if n.Some? && n.value >= 0 then n else None
  }

  /** The version a text stands for: one to four components, the missing ones zero. */
  ghost predicate Denotes(s: string, v: Version) {
    var t := TrimSpace(s);
    var parts := SplitDots(t, "");
    && t != "" && |parts| <= 4
    && (forall i :: 0 <= i < |parts| ==> Component(parts[i]) == Some(v[i]))
    && (forall i :: |parts| <= i < 4 ==> v[i] == 0)
  }

  ghost predicate Parses(s: string) {
    exists v :: Denotes(s, v)
  }

  lemma DenotesOne(s: string, v: Version, w: Version)
    requires Denotes(s, v) && Denotes(s, w)
    ensures v == w
  {
    forall i | 0 <= i < 4
      ensures v[i] == w[i]
    {
      if i < |SplitDots(TrimSpace(s), "")| {
        assert Component(SplitDots(TrimSpace(s), "")[i]) == Some(v[i]);
      }
    }
  }

  method ParseVersion(s: string) returns (v: Option<Version>)
    ensures v.Some? ==> Denotes(s, v.value)
    ensures v.None? ==> !Parses(s)
  {
    var t := TrimSpace(s);
    if t == "" {
      return None;
    }
    var parts := SplitDots(t, "");
    if |parts| > 4 {
      return None;
    }
    var out: Version := [0, 0, 0, 0];
    for i := 0 to |parts|
      invariant forall j :: 0 <= j < i ==> Component(parts[j]) == Some(out[j])
      invariant forall j :: i <= j < 4 ==> out[j] == 0
    {
      var n := Atoi(TrimSpace(parts[i]));
      if n.None? || n.value < 0 {
        assert Component(parts[i]).None?;
        return None;
      }
      out := out[i := n.value];
    }
    v := Some(out);
  }

  lemma {:induction false} SplitLast(a: string, part: string)
    requires '.' !in a
    ensures SplitDots(a, part) == [part + a]
  {
    if a == [] {
      assert part + a == part;
    } else {
      SplitLast(a[1..], part + [a[0]]);
      assert part + [a[0]] + a[1..] == part + a;
    }
  }

  lemma {:induction false} SplitAt(a: string, rest: string, part: string)
    requires '.' !in a
    ensures SplitDots(a + "." + rest, part) == [part + a] + SplitDots(rest, "")
  {
    var s := a + "." + rest;
    if a == [] {
      assert s[0] == '.' && s[1..] == rest && part + a == part;
    } else {
      SplitAt(a[1..], rest, part + [a[0]]);
      assert s[0] == a[0] && s[1..] == a[1..] + "." + rest;
      assert part + [a[0]] + a[1..] == part + a;
    }
  }

  lemma OneDigit(s: string)
    requires |s| == 1 && AllDigits(s)
    ensures Component(s) == Some(s[0] as int - '0' as int)
  {
    assert DigitsValue(s) == s[0] as int - '0' as int by { assert s[..|s| - 1] == []; }
    assert TrimSpace(s) == s;
  }

  lemma TwoDigits(s: string)
    requires |s| == 2 && AllDigits(s)
    ensures TrimSpace(s) == s
    ensures Component(s) == Some(10 * (s[0] as int - '0' as int) + (s[1] as int - '0' as int))
  {
    assert s[..1][..0] == [];
    assert DigitsValue(s[..1]) == s[0] as int - '0' as int;
    assert TrimSpace(s) == s;
  }

  // ---------- comparison ----------

  /** -1, 0 or 1 at the first component that differs from position `i` on. */
  ghost function Order(a: Version, b: Version, i: nat): int
    requires i <= 4
    decreases 4 - i
  {
    if i == 4 then 0
    else if a[i] < b[i] then -1
    else if a[i] > b[i] then 1
    else Order(a, b, i + 1)
  }

  method CompareVersions(a: Version, b: Version) returns (c: int)
    ensures c == Order(a, b, 0)
  {
    for i := 0 to 4
      invariant Order(a, b, 0) == Order(a, b, i)
    {
      if a[i] < b[i] {
        return -1;
      } else if a[i] > b[i] {
        return 1;
      }
    }
    c := 0;
  }

  /** From position `i` on, `a` and `b` first differ at `k`, and there `a` is less. */
  predicate LessAt(a: Version, b: Version, i: nat, k: nat) {
    i <= k < 4 && (forall j :: i <= j < k ==> a[j] == b[j]) && a[k] < b[k]
  }

  /** Where the order is decided: the first difference, if there is one. */
  lemma {:induction false} OrderMeaning(a: Version, b: Version, i: nat)
    requires i <= 4
    ensures Order(a, b, i) == -Order(b, a, i) && -1 <= Order(a, b, i) <= 1
    ensures Order(a, b, i) == 0 <==> a[i..] == b[i..]
    ensures Order(a, b, i) < 0 <==> exists k: nat :: LessAt(a, b, i, k)
    decreases 4 - i
  {
    if i < 4 {
      OrderMeaning(a, b, i + 1);
      TailsEqual(a, b, i);
      var n := i + 1;
      if k: nat :| LessAt(a, b, n, k) && a[i] == b[i] {
        assert LessAt(a, b, i, k);
      }
      if k: nat :| LessAt(a, b, i, k) && a[i] == b[i] {
        assert LessAt(a, b, n, k);
      }
      if a[i] < b[i] {
        assert LessAt(a, b, i, i);
      }
    }
  }

  lemma TailsEqual(a: Version, b: Version, i: nat)
    requires i < 4
    ensures a[i..] == b[i..] <==> a[i] == b[i] && a[i + 1..] == b[i + 1..]
  {
    assert a[i..] == [a[i]] + a[i + 1..] && b[i..] == [b[i]] + b[i + 1..];
  }

  lemma {:induction false} OrderTransitive(a: Version, b: Version, c: Version, i: nat)
    requires i <= 4 && Order(a, b, i) <= 0 && Order(b, c, i) <= 0
    ensures Order(a, c, i) <= 0
    decreases 4 - i
  {
    if i < 4 && a[i] == b[i] == c[i] {
      OrderTransitive(a, b, c, i + 1);
    }
  }

  /** `s` is at most `t`, as version texts. */
  ghost predicate AtMost(s: string, t: string) {
    exists v, w :: Denotes(s, v) && Denotes(t, w) && Order(v, w, 0) <= 0
  }

  /** On texts that parse, zero-padded comparison is a total preorder; ties are texts of one version. */
  lemma VersionPreorder(s: string, t: string, u: string)
    requires Parses(s) && Parses(t) && Parses(u)
    ensures AtMost(s, s)
    ensures AtMost(s, t) || AtMost(t, s)
    ensures AtMost(s, t) && AtMost(t, u) ==> AtMost(s, u)
    ensures AtMost(s, t) && AtMost(t, s) <==> exists v :: Denotes(s, v) && Denotes(t, v)
  {
    var v, w, x :| Denotes(s, v) && Denotes(t, w) && Denotes(u, x);
    OrderMeaning(v, v, 0);
    OrderMeaning(v, w, 0);
    OrderMeaning(w, v, 0);
    assert v[0..] == v && w[0..] == w;
    forall a, b | Denotes(s, a) && Denotes(t, b)
      ensures a == v && b == w
    {
      DenotesOne(s, a, v);
      DenotesOne(t, b, w);
    }
    forall a | Denotes(u, a)
      ensures a == x
    {
      DenotesOne(u, a, x);
    }
    if Order(v, w, 0) <= 0 && Order(w, x, 0) <= 0 {
      OrderTransitive(v, w, x, 0);
    }
  }

  // ---------- image references ----------

  function IndexOf(s: string, c: char): int {
    if s == [] then -1
    else if s[0] == c then 0
    else
      var i := IndexOf(s[1..], c);
      if i < 0 then -1 else i + 1
  }

  function LastIndexOf(s: string, c: char): (i: int)
    ensures -1 <= i < |s|
  {
    if s == [] then -1
    else if s[|s| - 1] == c then |s| - 1
    else LastIndexOf(s[..|s| - 1], c)
  }

  function Before(s: string, c: char): string {
    if s == [] || s[0] == c then "" else [s[0]] + Before(s[1..], c)
  }

  /** The tag of a reference, without digest and without the registry's host and port. */
  function ImageTag(image: string): string {
    NameTag(Before(image, '@'))
  }

  function NameTag(name: string): string {
    SegmentTag(name[LastIndexOf(name, '/') + 1..])
  }

  function SegmentTag(seg: string): string {
    var i := LastIndexOf(seg, ':');
    if i >= 0 then seg[i + 1..] else ""
  }

  predicate IsSuffixMark(c: char) {
    c == '-' || c == '+' || c == '_'
  }

  function UpToMark(s: string): string {
    if s == [] || IsSuffixMark(s[0]) then "" else [s[0]] + UpToMark(s[1..])
  }

  /** The version in a tag, with the conventional "v" dropped; it may still fail to parse. */
  function TagVersion(tag: string): string {
    var ver := UpToMark(tag);
    if ver != "" && ver[0] == 'v' then ver[1..] else ver
  }

  method ServerVersionFromImage(image: string) returns (ver: string)
    ensures ver == "" || Parses(ver)
    ensures Parses(TagVersion(ImageTag(image))) ==> ver == TagVersion(ImageTag(image))
    ensures !Parses(TagVersion(ImageTag(image))) ==> ver == ""
  {
    var tag := ImageTag(image);
    if tag == "" {
      EmptyTagDoesNotParse();
      return "";
    }
    ver := TagVersion(tag);
    var parsed := ParseVersion(ver);
    if parsed.None? {
      return "";
    }
  }

  lemma EmptyTagDoesNotParse()
    ensures !Parses(TagVersion(""))
  {
    EmptyDoesNotParse();
    assert TagVersion("") == "";
  }

  lemma EmptyDoesNotParse()
    ensures !Parses("")
  {
    assert TrimSpace("") == "";
  }

  /** The last occurrence of `c` is after `s` when `c` ends it and does not occur in what follows. */
  lemma {:induction false} LastIndexMeaning(s: string, rest: string, c: char)
    requires c !in rest && (s == [] || s[|s| - 1] == c)
    ensures LastIndexOf(s + rest, c) == |s| - 1
  {
    if rest == [] {
      assert s + rest == s;
    } else {
      assert (s + rest)[..|s + rest| - 1] == s + rest[..|rest| - 1];
      LastIndexMeaning(s, rest[..|rest| - 1], c);
    }
  }

  /** Every text is cut at the last `c`: it ends in `c` (or is empty), and no `c` follows. */
  lemma {:induction false} CutAtLast(s: string, c: char)
    ensures
      var k := LastIndexOf(s, c) + 1;
      (k == 0 || s[k - 1] == c) && c !in s[k..]
  {
    if s != [] && s[|s| - 1] != c {
      var init := s[..|s| - 1];
      CutAtLast(init, c);
      var k := LastIndexOf(init, c) + 1;
      assert s[k..] == init[k..] + [s[|s| - 1]];
    }
  }

  lemma {:induction false} BeforeMeaning(s: string, rest: string, c: char)
    requires c !in s && (rest == [] || rest[0] == c)
    ensures Before(s + rest, c) == s
  {
    if s != [] {
      assert (s + rest)[1..] == s[1..] + rest;
      BeforeMeaning(s[1..], rest, c);
    } else {
      assert s + rest == rest;
    }
  }

  /**
   A tag is found whatever stands before it, ports included, and whatever digest follows: `repo` may be
   any text without `@`.
   */
  lemma TagFound(repo: string, tag: string, digest: string)
    requires '@' !in repo && '@' !in tag && '/' !in tag && ':' !in tag
    requires digest == "" || digest[0] == '@'
    ensures ImageTag(repo + ":" + tag + digest) == tag
  {
    NotInName(repo, tag);
    BeforeMeaning(repo + ":" + tag, digest, '@');
    TagOfName(repo, tag);
  }

  lemma NotInName(repo: string, tag: string)
    requires '@' !in repo && '@' !in tag
    ensures '@' !in repo + ":" + tag
  {
  }

  lemma TagOfName(repo: string, tag: string)
    requires '/' !in tag && ':' !in tag
    ensures NameTag(repo + ":" + tag) == tag
  {
    var k := LastIndexOf(repo, '/') + 1;
    CutAtLast(repo, '/');
    var seg := repo[k..] + ":";
    assert repo + ":" + tag == repo[..k] + (seg + tag);
    TagOfSegment(repo[..k], seg, tag);
  }

  lemma TagOfSegment(host: string, seg: string, tag: string)
    requires '/' !in seg && '/' !in tag && ':' !in tag
    requires seg != [] && seg[|seg| - 1] == ':'
    requires host == [] || host[|host| - 1] == '/'
    ensures NameTag(host + (seg + tag)) == tag
  {
    LastSegment(host, seg + tag);
    LastIndexMeaning(seg, tag, ':');
    Behind(seg, tag);
  }

  lemma LastSegment(host: string, rest: string)
    requires '/' !in rest && (host == [] || host[|host| - 1] == '/')
    ensures NameTag(host + rest) == SegmentTag(rest)
  {
    LastIndexMeaning(host, rest, '/');
    Behind(host, rest);
  }

  lemma Behind(a: string, b: string)
    ensures (a + b)[|a|..] == b
  {
  }

  lemma {:induction false} LastAbsent(s: string, c: char)
    requires c !in s
    ensures LastIndexOf(s, c) == -1
  {
    if s != [] {
      LastAbsent(s[..|s| - 1], c);
    }
  }

  lemma NoNameTag(name: string)
    requires ':' !in name
    ensures NameTag(name) == ""
  {
    LastAbsent(name[LastIndexOf(name, '/') + 1..], ':');
  }

  lemma Untagged(image: string)
    requires '@' !in image && ':' !in image
    ensures ImageTag(image) == ""
  {
    var none: string := [];
    BeforeMeaning(image, none, '@');
    assert image + none == image;
    NoNameTag(image);
  }

  /** A reference whose last path segment has no colon carries no tag, even with a port before it. */
  lemma NoTag(prefix: string, seg: string, digest: string)
    requires '@' !in prefix && '@' !in seg && '/' !in seg && ':' !in seg
    requires prefix == "" || prefix[|prefix| - 1] == '/'
    requires digest == "" || digest[0] == '@'
    ensures ImageTag(prefix + seg + digest) == ""
  {
    BeforeMeaning(prefix + seg, digest, '@');
    LastIndexMeaning(prefix, seg, '/');
    LastIndexMeaning("", seg, ':');
    assert "" + seg == seg;
  }

  // ---------- writing versions ----------

  function Render(n: nat): string {
    if n < 10 then [n as char + '0'] else Render(n / 10) + [(n % 10) as char + '0']
  }

  lemma {:induction false} RenderDigits(n: nat)
    ensures Render(n) != [] && AllDigits(Render(n)) && DigitsValue(Render(n)) == n
  {
    if n >= 10 {
      RenderDigits(n / 10);
      var head, s := Render(n / 10), Render(n);
      assert s[..|s| - 1] == head && s[|s| - 1] == (n % 10) as char + '0';
    } else {
      assert Render(n)[..0] == [];
    }
  }

  lemma {:induction false} NothingToTrim(s: string)
    requires s != [] && !IsSpace(s[0]) && !IsSpace(s[|s| - 1])
    ensures TrimSpace(s) == s
  {
  }

  lemma RenderedComponent(n: nat)
    requires n < TWO_TO_THE_63
    ensures Component(Render(n)) == Some(n) && '.' !in Render(n)
  {
    RenderDigits(n);
    var s := Render(n);
    assert '0' <= s[0] <= '9' && '0' <= s[|s| - 1] <= '9';
    NothingToTrim(s);
  }

  /** Components `i` to `k - 1` of a version, with dots between them. */
  function Dotted(v: Version, i: nat, k: nat): string
    requires i < k <= 4 && forall j :: 0 <= j < 4 ==> v[j] >= 0
    decreases k - i
  {
    if i == k - 1 then Render(v[i]) else Render(v[i]) + "." + Dotted(v, i + 1, k)
  }

  function Parts(v: Version, i: nat, k: nat): (r: seq<string>)
    requires i < k <= 4 && forall j :: 0 <= j < 4 ==> v[j] >= 0
    ensures |r| == k - i && forall j :: 0 <= j < k - i ==> r[j] == Render(v[i + j])
    decreases k - i
  {
    [Render(v[i])] + if i == k - 1 then [] else Parts(v, i + 1, k)
  }

  predicate Framed(s: string) {
    s != [] && '0' <= s[0] <= '9' && '0' <= s[|s| - 1] <= '9'
  }

  lemma {:induction false} DottedParts(v: Version, i: nat, k: nat)
    requires i < k <= 4 && forall j :: 0 <= j < 4 ==> v[j] >= 0
    ensures SplitDots(Dotted(v, i, k), "") == Parts(v, i, k) && Framed(Dotted(v, i, k))
    decreases k - i
  {
    RenderPlain(v[i]);
    var head := Render(v[i]);
    assert "" + head == head;
    if i == k - 1 {
      SplitLast(head, "");
    } else {
      DottedParts(v, i + 1, k);
      SplitAt(head, Dotted(v, i + 1, k), "");
    }
  }

  lemma RenderPlain(n: nat)
    ensures Framed(Render(n)) && '.' !in Render(n)
  {
    RenderDigits(n);
    var s := Render(n);
    assert '0' <= s[0] <= '9' && '0' <= s[|s| - 1] <= '9';
  }

  /** Round trip: a version written with one to four components, the rest zero, is read as that version. */
  lemma WrittenIsRead(v: Version, k: nat)
    requires 1 <= k <= 4 && (forall j :: 0 <= j < 4 ==> 0 <= v[j] < TWO_TO_THE_63) && forall j :: k <= j < 4 ==> v[j] == 0
    ensures Denotes(Dotted(v, 0, k), v)
  {
    DottedParts(v, 0, k);
    NothingToTrim(Dotted(v, 0, k));
    forall i | 0 <= i < k
      ensures Component(Parts(v, 0, k)[i]) == Some(v[i])
    {
      assert Parts(v, 0, k)[i] == Render(v[0 + i]);
      RenderedComponent(v[i]);
    }
    DenotesParts(Dotted(v, 0, k), Parts(v, 0, k), v);
  }

  lemma DenotesParts(s: string, parts: seq<string>, v: Version)
    requires s != "" && TrimSpace(s) == s && SplitDots(s, "") == parts && |parts| <= 4
    requires (forall i :: 0 <= i < |parts| ==> Component(parts[i]) == Some(v[i])) && forall i :: |parts| <= i < 4 ==> v[i] == 0
    ensures Denotes(s, v)
  {
  }

  /** Of two texts that parse, the first is at most the second if at the first difference it is less, or there is none. */
  lemma AtMostMeaning(s: string, t: string, v: Version, w: Version)
    requires Denotes(s, v) && Denotes(t, w)
    ensures AtMost(s, t) <==> v == w || exists k: nat :: k < 4 && (forall j :: 0 <= j < k ==> v[j] == w[j]) && v[k] < w[k]
  {
    OrderMeaning(v, w, 0);
    assert v[0..] == v && w[0..] == w;
    if k: nat :| k < 4 && (forall j :: 0 <= j < k ==> v[j] == w[j]) && v[k] < w[k] {
      assert LessAt(v, w, 0, k);
    }
    forall a, b | Denotes(s, a) && Denotes(t, b)
      ensures a == v && b == w
    {
      DenotesOne(s, a, v);
      DenotesOne(t, b, w);
    }
  }

  // ---------- what a tag says ----------

  /** No dash, plus or underscore. */
  predicate Unmarked(s: string) {
    forall i :: 0 <= i < |s| ==> s[i] != '-' && s[i] != '+' && s[i] != '_'
  }

  /** Nothing, or text that begins with one of them. */
  predicate Suffix(s: string) {
    s == "" || s[0] == '-' || s[0] == '+' || s[0] == '_'
  }

  /** The version ends at the first dash, plus or underscore. */
  lemma {:induction false} UpToMarkIs(ver: string, rest: string)
    requires Unmarked(ver) && Suffix(rest)
    ensures UpToMark(ver + rest) == ver
  {
    if ver == [] {
      assert ver + rest == rest;
    } else {
      assert (ver + rest)[1..] == ver[1..] + rest;
      UpToMarkIs(ver[1..], rest);
    }
  }

  /** Build suffixes and a leading v are ignored. */
  lemma TagSays(ver: string, rest: string)
    requires Unmarked(ver) && Suffix(rest) && (ver == "" || ver[0] != 'v')
    ensures TagVersion(ver + rest) == ver && TagVersion("v" + ver + rest) == ver
  {
    UpToMarkIs(ver, rest);
    UpToMarkIs("v" + ver, rest);
  }

  // ---------- what is refused, and what is ignored ----------

  /** No component of a version is negative. */
  lemma VersionsAreNatural(s: string, v: Version)
    requires Denotes(s, v)
    ensures forall i :: 0 <= i < 4 ==> v[i] >= 0
  {
    var parts := SplitDots(TrimSpace(s), "");
    forall i | 0 <= i < 4
      ensures v[i] >= 0
    {
      if i < |parts| {
        assert Component(parts[i]) == Some(v[i]);
      }
    }
  }

  lemma {:induction false} TrimsOneMore(s: string, c: char)
    requires IsSpace(c)
    ensures TrimSpace(s + [c]) == TrimSpace(s) && TrimSpace([c] + s) == TrimSpace(s)
  {
    assert ([c] + s)[1..] == s;
    if s == [] {
      assert s + [c] == [c] && [c][1..] == [];
    } else if IsSpace(s[0]) {
      assert (s + [c])[1..] == s[1..] + [c];
      TrimsOneMore(s[1..], c);
    } else {
      assert (s + [c])[..|s|] == s;
    }
  }

  /** Blanks around a version, or around one of its components, are ignored. */
  lemma BlanksAreIgnored(s: string, c: char, v: Version)
    requires c == ' ' || c == '\t' || c == '\n' || c == '\r'
    ensures Denotes(s + [c], v) <==> Denotes(s, v)
    ensures Denotes([c] + s, v) <==> Denotes(s, v)
    ensures Component(s + [c]) == Component(s) == Component([c] + s)
  {
    TrimsOneMore(s, c);
  }
}
