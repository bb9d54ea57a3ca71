/**
  * Shell quoting for the render command line. `Quote` is Python's
  * `shlex.quote`; `Words` is the part of POSIX `sh` word recognition that a
  * line built from quoted arguments exercises: blanks between words, single
  * quotes, double quotes and quote removal. Anything else the shell would
  * expand or interpret (variables, globs, operators) makes `Words` answer None.
  */
module Shell {
  import opened Text

  /** The characters `shlex.quote` leaves bare: ASCII letters and digits and `_@%+=:,./-`. */
  predicate SafeChar(c: char) {
    'a' <= c <= 'z' || 'A' <= c <= 'Z' || '0' <= c <= '9' || c in "_@%+=:,./-"
  }

  predicate AllSafe(s: string) {
    forall i :: 0 <= i < |s| ==> SafeChar(s[i])
  }

  /** Inside single quotes a quote is written as: close, a double-quoted quote, reopen. */
  function EscapeChar(c: char): string {
    if c == '\'' then "'\"'\"'" else [c]
  }

  function EscapeQuotes(s: string): string
    decreases |s|
  {
    if s == [] then [] else EscapeChar(s[0]) + EscapeQuotes(s[1..])
  }

  /** `shlex.quote(s)`: "''" for the empty string, `s` itself when every character is safe, else `s` in single quotes. */
  function Quote(s: string): (q: string)
    ensures |q| >= 1
    ensures AllSafe(s) && s != [] ==> q == s
  {
    if s == [] then "''"
    else if AllSafe(s) then s
    else "'" + EscapeQuotes(s) + "'"
  }

  /** `" ".join(words)` */
  function JoinWords(words: seq<string>): string
    decreases |words|
  {
    if words == [] then ""
    else if |words| == 1 then words[0]
    else words[0] + " " + JoinWords(words[1..])
  }

  function QuoteAll(words: seq<string>): (q: seq<string>)
    ensures |q| == |words|
    ensures forall i :: 0 <= i < |words| ==> q[i] == Quote(words[i])
  {
    seq(|words|, i requires 0 <= i < |words| => Quote(words[i]))
  }

  lemma QuoteAllAppend(a: seq<string>, b: seq<string>)
    ensures QuoteAll(a + b) == QuoteAll(a) + QuoteAll(b)
  {
  }

  // ---------------------------------------------------------------------------
  // Word recognition by the shell
  // ---------------------------------------------------------------------------

  datatype Mode = Plain | InSingle | InDouble

  /** The word being built, if one has started. */
  function Flush(cur: Option<string>): seq<string> {
    if cur.Some? then [cur.value] else []
  }

  function Extend(cur: Option<string>, s: string): Option<string> {
    Some((if cur.Some? then cur.value else "") + s)
  }

  function Lex(s: string, mode: Mode, cur: Option<string>): Option<seq<string>>
    decreases |s|
  {
    if s == [] then (if mode == Plain then Some(Flush(cur)) else None)
    else
      var c, rest := s[0], s[1..];
      match mode
      case InSingle =>
        if c == '\'' then Lex(rest, Plain, cur) else Lex(rest, InSingle, Extend(cur, [c]))
      case InDouble =>
        if c == '"' then Lex(rest, Plain, cur)
        else if c == '$' || c == '`' || c == '\\' then None
        else Lex(rest, InDouble, Extend(cur, [c]))
      case Plain =>
        if c == ' ' then
          match Lex(rest, Plain, None)
          case None => None
          case Some(ws) => Some(Flush(cur) + ws)
        else if c == '\'' then Lex(rest, InSingle, Extend(cur, ""))
        else if c == '"' then Lex(rest, InDouble, Extend(cur, ""))
        else if SafeChar(c) then Lex(rest, Plain, Extend(cur, [c]))
        else None
  }

  /**
    * The words `cmd` splits into after quote removal, or None when the line needs more
    * than that. These are the argument words `sh -c cmd` runs, except that `sh` also
    * gives a bare first word meaning of its own when it is a reserved word such as
    * `if` or has the form `NAME=value`.
    */
  function Words(cmd: string): Option<seq<string>> {
    Lex(cmd, Plain, None)
  }

  lemma {:induction false} LexSafe(a: string, tail: string, cur: Option<string>)
    requires AllSafe(a) && a != []
    ensures Lex(a + tail, Plain, cur) == Lex(tail, Plain, Extend(cur, a))
    decreases |a|
  {
    var rest := a[1..];
    assert a + tail == [a[0]] + (rest + tail);
    assert [a[0]] + rest == a;
    LexSafeChar(a[0], rest + tail, cur);
    if rest != [] {
      LexSafe(rest, tail, Extend(cur, [a[0]]));
      ExtendTwice(cur, [a[0]], rest);
    } else {
      assert rest + tail == tail;
    }
  }

  lemma ExtendTwice(cur: Option<string>, s: string, t: string)
    ensures Extend(Extend(cur, s), t) == Extend(cur, s + t)
  {
    var w := if cur.Some? then cur.value else "";
    assert w + s + t == w + (s + t);
  }

  lemma LexSafeChar(c: char, rest: string, cur: Option<string>)
    requires SafeChar(c)
    ensures Lex([c] + rest, Plain, cur) == Lex(rest, Plain, Extend(cur, [c]))
  {
    assert ([c] + rest)[1..] == rest;
    assert c != ' ' && c != '\'' && c != '"';
  }

  /** A blank ends the word being built. */
  lemma LexBlank(rest: string, w: string)
    requires Lex(rest, Plain, None).Some?
    ensures Lex(" " + rest, Plain, Some(w)) == Some([w] + Lex(rest, Plain, None).value)
  {
    assert (" " + rest)[1..] == rest;
  }

  lemma {:induction false} LexEscaped(a: string, tail: string, w: string)
    ensures Lex(EscapeQuotes(a) + tail, InSingle, Some(w)) == Lex(tail, InSingle, Some(w + a))
    decreases |a|
  {
    if a == [] {
      assert EscapeQuotes(a) + tail == tail;
      assert w + a == w;
    } else {
      var more := EscapeQuotes(a[1..]) + tail;
      assert EscapeQuotes(a) + tail == EscapeChar(a[0]) + more;
      LexEscapedChar(a[0], more, w);
      LexEscaped(a[1..], tail, w + [a[0]]);
      assert w + [a[0]] + a[1..] == w + a;
    }
  }

  /** One escaped character inside single quotes adds exactly that character to the word. */
  lemma LexEscapedChar(c: char, more: string, w: string)
    ensures Lex(EscapeChar(c) + more, InSingle, Some(w)) == Lex(more, InSingle, Some(w + [c]))
  {
    if c == '\'' {
      LexEscapedQuote(more, w);
    } else {
      LexQuotedChar(c, more, w);
    }
  }

  lemma LexQuotedChar(c: char, more: string, w: string)
    requires c != '\''
    ensures Lex([c] + more, InSingle, Some(w)) == Lex(more, InSingle, Some(w + [c]))
  {
    assert ([c] + more)[1..] == more;
  }

  /** The five characters standing for one quote inside single quotes add exactly that quote. */
  lemma LexEscapedQuote(more: string, w: string)
    ensures Lex("'\"'\"'" + more, InSingle, Some(w)) == Lex(more, InSingle, Some(w + "'"))
  {
    assert "'\"'\"'" + more == "'" + ("\"" + ("'" + ("\"" + ("'" + more))));
    CloseSingle("\"" + ("'" + ("\"" + ("'" + more))), w);
    OpenDouble("'" + ("\"" + ("'" + more)), w);
    QuoteInDouble("\"" + ("'" + more), w);
    CloseDouble("'" + more, w + "'");
    OpenSingle(more, w + "'");
  }

  lemma CloseSingle(rest: string, w: string)
    ensures Lex("'" + rest, InSingle, Some(w)) == Lex(rest, Plain, Some(w))
  {
    assert ("'" + rest)[1..] == rest;
  }

  lemma OpenSingle(rest: string, w: string)
    ensures Lex("'" + rest, Plain, Some(w)) == Lex(rest, InSingle, Some(w))
  {
    assert ("'" + rest)[1..] == rest;
    assert w + "" == w;
  }

  lemma StartSingle(rest: string)
    ensures Lex("'" + rest, Plain, None) == Lex(rest, InSingle, Some(""))
  {
    assert ("'" + rest)[1..] == rest;
    assert Extend(None, "").value == "";
  }

  lemma OpenDouble(rest: string, w: string)
    ensures Lex("\"" + rest, Plain, Some(w)) == Lex(rest, InDouble, Some(w))
  {
    assert ("\"" + rest)[1..] == rest;
    assert w + "" == w;
  }

  lemma CloseDouble(rest: string, w: string)
    ensures Lex("\"" + rest, InDouble, Some(w)) == Lex(rest, Plain, Some(w))
  {
    assert ("\"" + rest)[1..] == rest;
  }

  lemma QuoteInDouble(rest: string, w: string)
    ensures Lex("'" + rest, InDouble, Some(w)) == Lex(rest, InDouble, Some(w + "'"))
  {
    assert ("'" + rest)[1..] == rest;
  }

  /** A quoted argument reads back, through the shell, as exactly the original argument. */
  lemma LexQuote(a: string, tail: string)
    ensures Lex(Quote(a) + tail, Plain, None) == Lex(tail, Plain, Some(a))
  {
    if a == [] {
      assert Quote(a) + tail == "'" + ("'" + tail);
      StartSingle("'" + tail);
      CloseSingle(tail, "");
    } else if AllSafe(a) {
      LexSafe(a, tail, None);
      assert "" + a == a;
    } else {
      var s := "'" + EscapeQuotes(a) + "'" + tail;
      assert s == "'" + (EscapeQuotes(a) + ("'" + tail));
      StartSingle(EscapeQuotes(a) + ("'" + tail));
      LexEscaped(a, "'" + tail, "");
      assert "" + a == a;
      CloseSingle(tail, a);
    }
  }

  /** Joining quoted arguments with blanks gives a line the shell splits back into those arguments. */
  lemma {:induction false} WordsOfQuoted(words: seq<string>)
    ensures Words(JoinWords(QuoteAll(words))) == Some(words)
    decreases |words|
  {
    var q := QuoteAll(words);
    if words == [] {
      assert JoinWords(q) == "";
    } else if |words| == 1 {
      LexQuote(words[0], "");
      assert Quote(words[0]) + "" == JoinWords(q);
      assert Lex("", Plain, Some(words[0])) == Some([words[0]]);
      assert words == [words[0]];
    } else {
      WordsOfQuoted(words[1..]);
      WordsOfQuotedCons(words);
    }
  }

  /** The line of several quoted arguments is the first one, a blank, and the line of the rest. */
  lemma JoinQuotedCons(words: seq<string>)
    requires |words| > 1
    ensures JoinWords(QuoteAll(words)) == Quote(words[0]) + (" " + JoinWords(QuoteAll(words[1..])))
  {
    assert QuoteAll(words)[1..] == QuoteAll(words[1..]);
  }

  /** One more quoted argument in front: the shell reads it, then the blank ends it. */
  lemma WordsOfQuotedCons(words: seq<string>)
    requires |words| > 1 && Lex(JoinWords(QuoteAll(words[1..])), Plain, None) == Some(words[1..])
    ensures Lex(JoinWords(QuoteAll(words)), Plain, None) == Some(words)
  {
    var rest := JoinWords(QuoteAll(words[1..]));
    JoinQuotedCons(words);
    LexQuote(words[0], " " + rest);
    LexBlank(rest, words[0]);
    assert [words[0]] + words[1..] == words;
  }
}
