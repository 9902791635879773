/**
 Object names: turning arbitrary text into DNS labels (section 2.1 of RFC 1123, in lower case and at
 most 63 characters), and prefixing them. Lower-casing and hashing are calls into Go's libraries; they
 enter as the functions `lower` and `hash`, of which only what `Folds` and `Hashes` say is used.
 */
module Names {
  import opened Common

  const MAX_NAME_LEN: nat := 63

  predicate IsAlnum(c: char) {
    'a' <= c <= 'z' || '0' <= c <= '9'
  }

  predicate AllPlain(s: string) {
    forall i :: 0 <= i < |s| ==> IsAlnum(s[i]) || s[i] == '-'
  }

  /** A DNS label as Kubernetes takes it. */
  predicate IsLabel(s: string) {
    && 1 <= |s| <= MAX_NAME_LEN
    && AllPlain(s)
    && IsAlnum(s[0]) && IsAlnum(s[|s| - 1])
  }

  /** The first eight characters of a digest. */
  type ShortHash = h: string | |h| == 8 witness "00000000"

  predicate Ascii(s: string) {
    forall i :: 0 <= i < |s| ==> s[i] < 128 as char
  }

  function LowerChar(c: char): char {
    if 'A' <= c <= 'Z' then c - 'A' + 'a' else c
  }

  function AsciiLower(s: string): string {
    seq(|s|, i requires 0 <= i < |s| => LowerChar(s[i]))
  }

  /** `strings.ToLower`: all that matters is what it does to ASCII text. */
  ghost predicate Folds(lower: string -> string) {
    forall s :: Ascii(s) ==> lower(s) == AsciiLower(s)
  }

  lemma PlainIsLower(s: string)
    requires AllPlain(s)
    ensures Ascii(s) && AsciiLower(s) == s
  {
  }

  /** The short hash is eight hexadecimal digits. */
  ghost predicate Hashes(hash: string -> ShortHash) {
    forall s, i :: 0 <= i < 8 ==> '0' <= hash(s)[i] <= '9' || 'a' <= hash(s)[i] <= 'f'
  }

  /** `[^a-z0-9]+` replaced by a dash; `inRun` says that the run before `s` was already replaced. */
  function DashRuns(s: string, inRun: bool): string {
    if s == [] then []
    else if IsAlnum(s[0]) then [s[0]] + DashRuns(s[1..], false)
    else if inRun then DashRuns(s[1..], true)
    else "-" + DashRuns(s[1..], true)
  }

  /** `-{2,}` replaced by a dash. */
  function SingleDashes(s: string): string {
    if s == [] then []
    else if s[0] == '-' && |s| > 1 && s[1] == '-' then SingleDashes(s[1..])
    else [s[0]] + SingleDashes(s[1..])
  }

  function TrimLeft(s: string): string {
    if s != [] && s[0] == '-' then TrimLeft(s[1..]) else s
  }

  function TrimRight(s: string): string {
    if s != [] && s[|s| - 1] == '-' then TrimRight(s[..|s| - 1]) else s
  }

  function TrimDashes(s: string): string {
    TrimRight(TrimLeft(s))
  }

  function TruncateName(s: string, hash: string -> ShortHash): string
  {
    if |s| <= MAX_NAME_LEN then s
    else TrimDashes(s[..MAX_NAME_LEN - |hash(s)| - 1]) + "-" + hash(s)
  }

  function Sanitize(s: string, lower: string -> string, hash: string -> ShortHash): string
  {
    var t := TrimDashes(SingleDashes(DashRuns(lower(s), false)));
    if t == "" then "x" + hash(s) else TruncateName(t, hash)
  }

  function Prefixed(prefix: string, name: string, lower: string -> string, hash: string -> ShortHash): string
  {
    TruncateName(prefix + "-" + Sanitize(name, lower, hash), hash)
  }

  // ---------- labels come out ----------

  lemma {:induction false} DashRunsPlain(s: string, inRun: bool)
    ensures AllPlain(DashRuns(s, inRun))
  {
    if s != [] {
      DashRunsPlain(s[1..], !IsAlnum(s[0]));
    }
  }

  lemma {:induction false} SingleDashesPlain(s: string)
    requires AllPlain(s)
    ensures AllPlain(SingleDashes(s))
  {
    if s != [] {
      SingleDashesPlain(s[1..]);
    }
  }

  /** Trimming leaves plain text without a dash at either end. */
  lemma {:induction false} TrimLeftEnds(s: string)
    ensures TrimLeft(s) != [] ==> TrimLeft(s)[0] != '-'
    ensures |TrimLeft(s)| <= |s| && TrimLeft(s) == s[|s| - |TrimLeft(s)|..]
    ensures s != [] && s[0] != '-' ==> TrimLeft(s) == s
  {
    if s != [] && s[0] == '-' {
      TrimLeftEnds(s[1..]);
    }
  }

  lemma {:induction false} TrimRightEnds(s: string)
    ensures TrimRight(s) <= s
    ensures TrimRight(s) != [] ==> TrimRight(s)[|TrimRight(s)| - 1] != '-'
    ensures s != [] && s[0] != '-' ==> TrimRight(s) != []
    ensures s != [] && s[|s| - 1] != '-' ==> TrimRight(s) == s
  {
    if s != [] && s[|s| - 1] == '-' {
      TrimRightEnds(s[..|s| - 1]);
    }
  }

  lemma TrimDashesEnds(s: string)
    requires AllPlain(s)
    ensures AllPlain(TrimDashes(s)) && |TrimDashes(s)| <= |s|
    ensures TrimDashes(s) != [] ==> IsAlnum(TrimDashes(s)[0]) && IsAlnum(TrimDashes(s)[|TrimDashes(s)| - 1])
    ensures s != [] && s[0] != '-' ==> TrimDashes(s) != [] && TrimDashes(s)[0] == s[0]
  {
    TrimLeftEnds(s);
    TrimRightEnds(TrimLeft(s));
  }

  /** Truncation turns plain text that begins and ends well into a label. */
  lemma TruncatedIsLabel(s: string, hash: string -> ShortHash)
    requires Hashes(hash) && AllPlain(s) && s != [] && IsAlnum(s[0]) && IsAlnum(s[|s| - 1])
    ensures IsLabel(TruncateName(s, hash))
  {
    if |s| > MAX_NAME_LEN {
      var kept := s[..MAX_NAME_LEN - 8 - 1];
      TrimDashesEnds(kept);
      var r := TrimDashes(kept) + "-" + hash(s);
      assert r[0] == TrimDashes(kept)[0] && r[|r| - 1] == hash(s)[7];
    }
  }

  /** Any text whatever becomes a DNS label. */
  lemma SanitizeIsLabel(s: string, lower: string -> string, hash: string -> ShortHash)
    requires Hashes(hash)
    ensures IsLabel(Sanitize(s, lower, hash))
  {
    var d := DashRuns(lower(s), false);
    DashRunsPlain(lower(s), false);
    SingleDashesPlain(d);
    TrimDashesEnds(SingleDashes(d));
    var t := TrimDashes(SingleDashes(d));
    if t == "" {
      assert ("x" + hash(s))[8] == hash(s)[7];
    } else {
      TruncatedIsLabel(t, hash);
    }
  }

  /** A label with a label in front is a label again, whatever text follows. */
  lemma PrefixedIsLabel(prefix: string, name: string, lower: string -> string, hash: string -> ShortHash)
    requires Hashes(hash) && IsLabel(prefix)
    ensures IsLabel(Prefixed(prefix, name, lower, hash))
  {
    SanitizeIsLabel(name, lower, hash);
    var s := Sanitize(name, lower, hash);
    var p := prefix + "-" + s;
    assert p[0] == prefix[0] && p[|p| - 1] == s[|s| - 1];
    TruncatedIsLabel(p, hash);
  }

  // ---------- labels stay as they are ----------

  /** No two dashes in a row. */
  predicate NoDoubleDash(s: string) {
    forall i :: 0 < i < |s| ==> !(s[i - 1] == '-' && s[i] == '-')
  }

  lemma {:induction false} DashRunsResult(s: string, inRun: bool)
    ensures NoDoubleDash(DashRuns(s, inRun))
    ensures inRun && DashRuns(s, inRun) != [] ==> DashRuns(s, inRun)[0] != '-'
  {
    if s != [] {
      DashRunsResult(s[1..], !IsAlnum(s[0]));
    }
  }

  lemma {:induction false} DashRunsKeeps(s: string, inRun: bool)
    requires AllPlain(s) && NoDoubleDash(s) && (inRun && s != [] ==> s[0] != '-')
    ensures DashRuns(s, inRun) == s
  {
    if s != [] {
      assert NoDoubleDash(s[1..]) by {
        forall i | 0 < i < |s[1..]|
          ensures !(s[1..][i - 1] == '-' && s[1..][i] == '-')
        {
          assert s[1..][i - 1] == s[(i + 1) - 1] && s[1..][i] == s[i + 1];
        }
      }
      if |s| > 1 {
        assert !(s[1 - 1] == '-' && s[1] == '-');
      }
      DashRunsKeeps(s[1..], !IsAlnum(s[0]));
    }
  }

  lemma {:induction false} SingleDashesKeeps(s: string)
    requires NoDoubleDash(s)
    ensures SingleDashes(s) == s
  {
    if s != [] {
      assert NoDoubleDash(s[1..]) by {
        forall i | 0 < i < |s[1..]|
          ensures !(s[1..][i - 1] == '-' && s[1..][i] == '-')
        {
          assert s[1..][i - 1] == s[(i + 1) - 1] && s[1..][i] == s[i + 1];
        }
      }
      if |s| > 1 {
        assert !(s[1 - 1] == '-' && s[1] == '-');
      }
      SingleDashesKeeps(s[1..]);
    }
  }

  lemma TruncatedHasNoDoubleDash(s: string, hash: string -> ShortHash)
    requires Hashes(hash) && AllPlain(s) && NoDoubleDash(s)
    ensures NoDoubleDash(TruncateName(s, hash))
  {
    if |s| > MAX_NAME_LEN {
      var kept := s[..MAX_NAME_LEN - 8 - 1];
      TrimDashesEnds(kept);
      TrimKeepsNoDoubleDash(kept);
      var head, r := TrimDashes(kept), TruncateName(s, hash);
      forall i | 0 < i < |r|
        ensures !(r[i - 1] == '-' && r[i] == '-')
      {
        if i < |head| {
          assert r[i - 1] == head[i - 1] && r[i] == head[i];
        } else if i == |head| {
          assert r[i - 1] == head[i - 1];
        } else {
          assert r[i] == hash(s)[i - |head| - 1];
        }
      }
    }
  }

  lemma TrimKeepsNoDoubleDash(s: string)
    requires NoDoubleDash(s)
    ensures NoDoubleDash(TrimDashes(s))
  {
    TrimLeftEnds(s);
    TrimRightEnds(TrimLeft(s));
    var l, r := TrimLeft(s), TrimDashes(s);
    SliceKeepsNoDoubleDash(s, |s| - |l|, |s|);
    SliceKeepsNoDoubleDash(l, 0, |r|);
    assert l == s[|s| - |l|..|s|] && r == l[0..|r|];
  }

  lemma SliceKeepsNoDoubleDash(s: string, i: nat, j: nat)
    requires i <= j <= |s| && NoDoubleDash(s)
    ensures NoDoubleDash(s[i..j])
  {
    forall k | 0 < k < j - i
      ensures !(s[i..j][k - 1] == '-' && s[i..j][k] == '-')
    {
      var n := i + k;
      assert s[i..j][k - 1] == s[n - 1] && s[i..j][k] == s[n];
    }
  }

  lemma SanitizeHasNoDoubleDash(s: string, lower: string -> string, hash: string -> ShortHash)
    requires Hashes(hash)
    ensures NoDoubleDash(Sanitize(s, lower, hash))
  {
    var d := DashRuns(lower(s), false);
    DashRunsPlain(lower(s), false);
    DashRunsResult(lower(s), false);
    SingleDashesKeeps(d);
    TrimDashesEnds(d);
    TrimKeepsNoDoubleDash(d);
    var t := TrimDashes(d);
    if t == "" {
      var r := "x" + hash(s);
      forall i | 0 < i < |r|
        ensures r[i] != '-'
      {
        assert r[i] == hash(s)[i - 1];
      }
    } else {
      TruncatedHasNoDoubleDash(t, hash);
    }
  }

  /** Exactly the labels without a double dash are left alone. */
  lemma SanitizeKeepsIff(s: string, lower: string -> string, hash: string -> ShortHash)
    requires Folds(lower) && Hashes(hash)
    ensures Sanitize(s, lower, hash) == s <==> IsLabel(s) && NoDoubleDash(s)
  {
    SanitizeIsLabel(s, lower, hash);
    SanitizeHasNoDoubleDash(s, lower, hash);
    if IsLabel(s) && NoDoubleDash(s) {
      PlainIsLower(s);
      assert lower(s) == s;
      DashRunsKeeps(s, false);
      SingleDashesKeeps(s);
      TrimLeftEnds(s);
      TrimRightEnds(s);
    }
  }

  /** Sanitising a name again changes nothing. */
  lemma SanitizeIdempotent(s: string, lower: string -> string, hash: string -> ShortHash)
    requires Folds(lower) && Hashes(hash)
    ensures Sanitize(Sanitize(s, lower, hash), lower, hash) == Sanitize(s, lower, hash)
  {
    SanitizeIsLabel(s, lower, hash);
    SanitizeHasNoDoubleDash(s, lower, hash);
    SanitizeKeepsIff(Sanitize(s, lower, hash), lower, hash);
  }

  // ---------- what a name says about what it was made from ----------

  /** The letters and digits of a text, in order. */
  function Alnums(s: string): string {
    if s == [] then [] else (if IsAlnum(s[0]) then [s[0]] else []) + Alnums(s[1..])
  }

  lemma {:induction false} DashAtEnd(s: string)
    ensures Alnums(s + ['-']) == Alnums(s)
  {
    if s != [] {
      assert (s + ['-'])[1..] == s[1..] + ['-'];
      DashAtEnd(s[1..]);
    } else {
      assert (s + ['-'])[1..] == [];
    }
  }

  lemma {:induction false} DashRunsAlnums(s: string, inRun: bool)
    ensures Alnums(DashRuns(s, inRun)) == Alnums(s) && |DashRuns(s, inRun)| <= |s|
  {
    if s != [] {
      DashRunsAlnums(s[1..], !IsAlnum(s[0]));
      var rest := DashRuns(s[1..], !IsAlnum(s[0]));
      assert ([s[0]] + rest)[1..] == rest && ("-" + rest)[1..] == rest;
    }
  }

  lemma {:induction false} SingleDashesAlnums(s: string)
    ensures Alnums(SingleDashes(s)) == Alnums(s) && |SingleDashes(s)| <= |s|
  {
    if s != [] {
      SingleDashesAlnums(s[1..]);
      assert ([s[0]] + SingleDashes(s[1..]))[1..] == SingleDashes(s[1..]);
    }
  }

  lemma {:induction false} TrimLeftAlnums(s: string)
    ensures Alnums(TrimLeft(s)) == Alnums(s) && |TrimLeft(s)| <= |s|
  {
    if s != [] && s[0] == '-' {
      TrimLeftAlnums(s[1..]);
    }
  }

  lemma {:induction false} TrimRightAlnums(s: string)
    ensures Alnums(TrimRight(s)) == Alnums(s) && |TrimRight(s)| <= |s|
  {
    if s != [] && s[|s| - 1] == '-' {
      TrimRightAlnums(s[..|s| - 1]);
      InitAndLast(s);
      DashAtEnd(s[..|s| - 1]);
    }
  }

  /**
   A name of at most 63 ASCII characters, with a letter or digit among them, keeps all its letters and digits, in
   lower case and in order; so names that differ only in case become the same.
   */
  lemma SanitizeKeepsLetters(s: string, lower: string -> string, hash: string -> ShortHash)
    requires Folds(lower) && Hashes(hash) && Ascii(s) && |s| <= 63 && Alnums(AsciiLower(s)) != []
    ensures Alnums(Sanitize(s, lower, hash)) == Alnums(AsciiLower(s))
  {
    var a := AsciiLower(s);
    var b := DashRuns(a, false);
    DashRunsAlnums(a, false);
    SingleDashesAlnums(b);
    TrimLeftAlnums(SingleDashes(b));
    TrimRightAlnums(TrimLeft(SingleDashes(b)));
  }

  lemma CaseIsForgotten(s: string, t: string, lower: string -> string, hash: string -> ShortHash)
    requires Folds(lower) && Hashes(hash) && Ascii(s) && Ascii(t) && AsciiLower(s) == AsciiLower(t)
    requires |s| <= 63 && Alnums(AsciiLower(s)) != []
    ensures Sanitize(s, lower, hash) == Sanitize(t, lower, hash)
  {
    var b := DashRuns(AsciiLower(s), false);
    DashRunsAlnums(AsciiLower(s), false);
    SingleDashesAlnums(b);
    TrimLeftAlnums(SingleDashes(b));
    TrimRightAlnums(TrimLeft(SingleDashes(b)));
  }

  /** Names cut short stay apart as long as their hashes do. */
  lemma TruncatedApart(s: string, t: string, hash: string -> ShortHash)
    requires |s| > 63 && |t| > 63 && TruncateName(s, hash) == TruncateName(t, hash)
    ensures hash(s) == hash(t)
  {
    var a, b := TruncateName(s, hash), TruncateName(t, hash);
    assert a[|a| - 8..] == hash(s) && b[|b| - 8..] == hash(t);
  }

  /** Text without a letter or digit is named by its hash, so it too stays apart as long as hashes do. */
  lemma HashedNames(s: string, t: string, lower: string -> string, hash: string -> ShortHash)
    requires Folds(lower) && Hashes(hash) && Ascii(s) && Ascii(t)
    requires Alnums(AsciiLower(s)) == [] && Alnums(AsciiLower(t)) == []
    ensures Sanitize(s, lower, hash) == Sanitize(t, lower, hash) ==> hash(s) == hash(t)
    ensures |Sanitize(s, lower, hash)| == 9 && Sanitize(s, lower, hash)[0] == 'x'
  {
    NoLettersNoName(s, lower, hash);
    NoLettersNoName(t, lower, hash);
    assert ("x" + hash(s))[1..] == hash(s) && ("x" + hash(t))[1..] == hash(t);
  }

  lemma NoLettersNoName(s: string, lower: string -> string, hash: string -> ShortHash)
    requires Folds(lower) && Ascii(s) && Alnums(AsciiLower(s)) == []
    ensures Sanitize(s, lower, hash) == "x" + hash(s)
  {
    var b := DashRuns(AsciiLower(s), false);
    var t := TrimDashes(SingleDashes(b));
    DashRunsAlnums(AsciiLower(s), false);
    SingleDashesAlnums(b);
    TrimLeftAlnums(SingleDashes(b));
    TrimRightAlnums(TrimLeft(SingleDashes(b)));
    DashRunsPlain(AsciiLower(s), false);
    SingleDashesPlain(b);
    TrimDashesEnds(SingleDashes(b));
    StartsAlnum(t);
  }

  lemma StartsAlnum(t: string)
    requires t == "" || IsAlnum(t[0])
    ensures t == "" <==> Alnums(t) == []
  {
  }

  /** A prefixed name that needs no cutting shows its prefix and its name. */
  lemma PrefixShows(prefix: string, name: string, lower: string -> string, hash: string -> ShortHash)
    requires |prefix| + 1 + |Sanitize(name, lower, hash)| <= 63
    ensures Prefixed(prefix, name, lower, hash) == prefix + "-" + Sanitize(name, lower, hash)
  {
  }

  /** Cut or not, it begins with its prefix, as far as fits. */
  lemma PrefixLeads(prefix: string, name: string, lower: string -> string, hash: string -> ShortHash)
    requires IsLabel(prefix) && |prefix| <= 54
    ensures prefix <= Prefixed(prefix, name, lower, hash)
  {
    TruncatedLeads(prefix, "-" + Sanitize(name, lower, hash), hash);
    assert prefix + "-" + Sanitize(name, lower, hash) == prefix + ("-" + Sanitize(name, lower, hash));
  }

  lemma TruncatedLeads(prefix: string, rest: string, hash: string -> ShortHash)
    requires prefix != [] && prefix[0] != '-' && prefix[|prefix| - 1] != '-' && |prefix| <= 54
    ensures prefix <= TruncateName(prefix + rest, hash)
  {
    var s := prefix + rest;
    if |s| > MAX_NAME_LEN {
      assert prefix <= s[..54];
      TrimmedLeads(prefix, s[..54]);
      LeadsOn(prefix, TrimDashes(s[..54]), "-" + hash(s));
    }
  }

  lemma TrimmedLeads(prefix: string, cut: string)
    requires prefix != [] && prefix[0] != '-' && prefix[|prefix| - 1] != '-' && prefix <= cut
    ensures prefix <= TrimDashes(cut)
  {
    assert TrimLeft(cut) == cut;
    TrimRightLeads(prefix, cut);
  }

  lemma LeadsOn(a: string, b: string, c: string)
    requires a <= b
    ensures a <= b + c
  {
  }

  lemma {:induction false} TrimRightLeads(prefix: string, s: string)
    requires prefix != [] && prefix[|prefix| - 1] != '-' && prefix <= s
    ensures prefix <= TrimRight(s)
  {
    if s[|s| - 1] == '-' {
      TrimRightLeads(prefix, s[..|s| - 1]);
    }
  }
}
