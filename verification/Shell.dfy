/**
 Shell quoting, proved against token recognition of the POSIX.1-2017 Shell Command Language: escape
 character (section 2.2.1), single quotes (section 2.2.2), and blanks between words (section 2.3).
 */
module Shell {
  import opened Common

  // ---------- quoting ----------

  /** `strings.ReplaceAll(s, "'", `'\''`)`. */
  function Escaped(s: string): string {
    if s == [] then []
    else (if s[0] == '\'' then "'\\''" else [s[0]]) + Escaped(s[1..])
  }

  function ShellQuote(s: string): string {
    "'" + Escaped(s) + "'"
  }

  function Joined(words: seq<string>): string {
    if words == [] then ""
    else if |words| == 1 then words[0]
    else words[0] + " " + Joined(words[1..])
  }

  ghost function Quoted(tokens: seq<string>): seq<string> {
    seq(|tokens|, i requires 0 <= i < |tokens| => ShellQuote(tokens[i]))
  }

  method ShellJoin(tokens: seq<string>) returns (line: string)
    ensures line == Joined(Quoted(tokens))
  {
    var quoted := [];
    for i := 0 to |tokens|
      invariant |quoted| == i && forall j :: 0 <= j < i ==> quoted[j] == ShellQuote(tokens[j])
    {
      quoted := quoted + [ShellQuote(tokens[i])];
    }
    assert quoted == Quoted(tokens);
    line := Joined(quoted);
  }

  // ---------- token recognition ----------

  /** Blanks separate words. */
  predicate IsBlank(c: char) {
    c == ' ' || c == '\t'
  }

  /** Unquoted, these start operators, expansions, comments, patterns or other quoting, or end the command. */
  predicate IsSpecial(c: char) {
    c in "|&;<>()$`\"*?[#~=%{}!\n" || c == '\0'
  }

  /** Where the lexer is: between words, in a word, or inside single quotes of a word. */
  datatype Mode = Between | Word(w: string) | Single(w: string)

  function Prefixed(w: string, rest: Option<seq<string>>): Option<seq<string>> {
    if rest.Some? then Some([w] + rest.value) else None
  }

  /** What an unquoted or escaped character adds to. */
  function Begun(m: Mode): string {
    if m.Between? then "" else m.w
  }

  /**
   The words of a simple command line, or `None` when it ends inside a quotation or uses anything
   outside the three sections. No character of a shell word is NUL.
   */
  function Lex(s: string, m: Mode): Option<seq<string>>
    decreases |s|
  {
    if m.Single? then
      if s == [] || s[0] == '\0' then None
      else if s[0] == '\'' then Lex(s[1..], Word(m.w))
      else Lex(s[1..], Single(m.w + [s[0]]))
    else if s == [] then Some(if m.Word? then [m.w] else [])
    else if IsBlank(s[0]) then
      var rest := Lex(s[1..], Between);
      if m.Word? then Prefixed(m.w, rest) else rest
    else if s[0] == '\'' then Lex(s[1..], Single(Begun(m)))
    else if s[0] == '\\' then
      if |s| == 1 || s[1] == '\0' then None
      else if s[1] == '\n' then Lex(s[2..], m)    // line continuation
      else Lex(s[2..], Word(Begun(m) + [s[1]]))
    else if IsSpecial(s[0]) then None
    else Lex(s[1..], Word(Begun(m) + [s[0]]))
  }

  function Words(s: string): Option<seq<string>> {
    Lex(s, Between)
  }

  // ---------- the round trip ----------

  ghost predicate NulFree(s: string) {
    '\0' !in s
  }

  /** Inside quotes, the escaped token and its closing quote add exactly the token to the word. */
  /** Out of the quotes, an escaped quote, and in again. */
  lemma QuoteLexed(w: string, tail: string)
    ensures Lex("'\\''" + tail, Single(w)) == Lex(tail, Single(w + ['\'']))
  {
    var s := "'\\''" + tail;
    assert s[1..] == "\\''" + tail && s[1..][2..] == "'" + tail && s[1..][2..][1..] == tail;
    calc {
      Lex(s, Single(w));
      Lex(s[1..], Word(w));
      Lex(s[1..][2..], Word(w + ['\'']));
      Lex(tail, Single(w + ['\'']));
    }
  }

  lemma {:induction false} EscapedLexes(t: string, w: string, rest: string)
    ensures Lex(Escaped(t) + "'" + rest, Single(w)) == if NulFree(t) then Lex(rest, Word(w + t)) else None
    decreases |t|
  {
    if t == [] {
      assert Escaped(t) + "'" + rest == "'" + rest;
      assert ("'" + rest)[1..] == rest && w + t == w;
    } else {
      var tail := Escaped(t[1..]) + "'" + rest;
      assert t == [t[0]] + t[1..];
      assert w + t == (w + [t[0]]) + t[1..];
      EscapedLexes(t[1..], w + [t[0]], rest);
      if t[0] == '\'' {
        assert Escaped(t) + "'" + rest == "'\\''" + tail;
        QuoteLexed(w, tail);
      } else {
        var s := [t[0]] + tail;
        assert Escaped(t) + "'" + rest == s && s[1..] == tail;
      }
    }
  }

  /** A quoted token at the start of a line is read as that token. */
  lemma QuoteLexes(t: string, rest: string)
    ensures Lex(ShellQuote(t) + rest, Between) == if NulFree(t) then Lex(rest, Word(t)) else None
  {
    var s := ShellQuote(t) + rest;
    assert s[1..] == Escaped(t) + "'" + rest;
    EscapedLexes(t, "", rest);
    assert "" + t == t;
  }

  /**
   Round trip: the shell reads the joined line as exactly the tokens, whatever quotes, spaces or
   newlines they contain and even when they are empty, precisely when no token contains NUL.
   */
  lemma {:induction false} RoundTrip(tokens: seq<string>)
    ensures (forall t :: t in tokens ==> NulFree(t)) ==> Words(Joined(Quoted(tokens))) == Some(tokens)
    ensures (exists t :: t in tokens && !NulFree(t)) ==> Words(Joined(Quoted(tokens))) == None
    decreases |tokens|
  {
    var q := Quoted(tokens);
    if |tokens| == 1 {
      assert Joined(q) == ShellQuote(tokens[0]) + "";
      QuoteLexes(tokens[0], "");
      assert tokens == [tokens[0]];
    } else if |tokens| > 1 {
      var rest := Joined(Quoted(tokens[1..]));
      assert q[1..] == Quoted(tokens[1..]);
      assert Joined(q) == ShellQuote(tokens[0]) + (" " + rest);
      QuoteLexes(tokens[0], " " + rest);
      assert (" " + rest)[1..] == rest;
      RoundTrip(tokens[1..]);
      assert tokens == [tokens[0]] + tokens[1..];
    }
  }

  /** Different commands never share a line. */
  lemma JoinInjective(a: seq<string>, b: seq<string>)
    requires (forall t :: t in a ==> NulFree(t)) && (forall t :: t in b ==> NulFree(t))
    requires Joined(Quoted(a)) == Joined(Quoted(b))
    ensures a == b
  {
    RoundTrip(a);
    RoundTrip(b);
  }
}
