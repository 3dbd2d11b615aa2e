/**
 * `shlex.quote` and the part of the POSIX shell's word expansion it is written for:
 * quote removal of single-quoted text (section 2.2.2 of the POSIX.1-2017 Shell Command
 * Language), double-quoted text without `$`, backquote or backslash in it (section
 * 2.2.3 of the same standard), and unquoted characters that are not special to the shell.
 */
module ShellQuote {
  import opened Wrappers

  /** The characters `shlex.quote` leaves unquoted: `[\w@%+=:,./-]` with ASCII `\w`. */
  predicate SafeChar(c: char) {
    'a' <= c <= 'z' || 'A' <= c <= 'Z' || '0' <= c <= '9' || c in "_@%+=:,./-"
  }

  predicate AllSafe(s: string) {
    forall i :: 0 <= i < |s| ==> SafeChar(s[i])
  }

  /** `s.replace("'", "'\"'\"'")`: close the quote, emit a double-quoted `'`, reopen. */
  function Escape(s: string): (r: string)
    ensures |r| >= |s|
  {
    if s == [] then []
    else if s[0] == '\'' then "'\"'\"'" + Escape(s[1..])
    else [s[0]] + Escape(s[1..])
  }

  /** `shlex.quote(s)`. */
  function Quote(s: string): (r: string)
    ensures s == [] ==> r == "''"
    ensures s != [] && AllSafe(s) ==> r == s
  {
    if s == [] then "''"
    else if AllSafe(s) then s
    else "'" + Escape(s) + "'"
  }

  /** The first position at or after `from` holding `c`. */
  function Find(w: string, c: char, from: nat): (k: Option<nat>)
    ensures k.Some? ==> from <= k.value < |w| && w[k.value] == c
    ensures k.Some? ==> forall j :: from <= j < k.value ==> w[j] != c
    ensures k.None? ==> forall j :: from <= j < |w| ==> w[j] != c
    decreases |w| - from
  {
    if from >= |w| then None
    else if w[from] == c then Some(from)
    else Find(w, c, from + 1)
  }

  /**
   * Inside double quotes these keep a special meaning (section 2.2.3 of the POSIX.1-2017
   * Shell Command Language); the model refuses them.
   */
  predicate PlainInDoubleQuotes(s: string) {
    forall i :: 0 <= i < |s| ==> s[i] != '$' && s[i] != '`' && s[i] != '\\'
  }

  function Prepend(p: string, r: Option<string>): Option<string> {
    match r
    case Some(x) => Some(p + x)
    case None => None
  }

  /**
   * The field a shell word expands to after quote removal, or None for a word
   * outside the modelled subset (an unterminated quote, an expansion, an operator
   * or blank that would split the word).
   */
  function Expand(w: string): Option<string>
    decreases |w|
  {
    if w == [] then Some([])
    else if w[0] == '\'' then
      match Find(w, '\'', 1)
      case None => None
      case Some(k) => Prepend(w[1..k], Expand(w[k + 1..]))
    else if w[0] == '"' then
      match Find(w, '"', 1)
      case None => None
      case Some(k) =>
        if PlainInDoubleQuotes(w[1..k]) then Prepend(w[1..k], Expand(w[k + 1..])) else None
    else if SafeChar(w[0]) then Prepend([w[0]], Expand(w[1..]))
    else None
  }

  /** A single-quoted run without `'` inside expands to exactly its contents. */
  lemma SingleQuoted(a: string, u: string)
    requires '\'' !in a
    ensures Expand("'" + a + "'" + u) == Prepend(a, Expand(u))
  {
    var w := "'" + a + "'" + u;
    assert forall j :: 1 <= j < |a| + 1 ==> w[j] == a[j - 1];
    assert w[|a| + 1] == '\'';
    assert Find(w, '\'', 1) == Some(|a| + 1);
    assert w[1..|a| + 1] == a;
    assert w[|a| + 2..] == u;
  }

  /** A double-quoted `'` expands to `'`. */
  lemma DoubleQuotedApostrophe(rest: string)
    ensures Expand("\"'\"" + rest) == Prepend("'", Expand(rest))
  {
    var w := "\"'\"" + rest;
    assert w[0] == '"' && w[1] == '\'' && w[2] == '"';
    assert Find(w, '"', 1) == Some(2);
    assert w[1..2] == "'" && w[3..] == rest;
  }

  /** The escaped body of a quoted word, followed by the closing quote, expands to the original text. */
  lemma {:induction false} EscapedRun(a: string, s: string, u: string)
    requires '\'' !in a
    ensures Expand("'" + a + Escape(s) + "'" + u) == Prepend(a + s, Expand(u))
    decreases |s|
  {
    if s == [] {
      assert "'" + a + Escape(s) + "'" + u == "'" + a + "'" + u;
      SingleQuoted(a, u);
      assert a + s == a;
    } else if s[0] != '\'' {
      EscapedOrdinary(a, s, u);
    } else {
      EscapedApostrophe(a, s, u);
    }
  }

  lemma {:induction false} EscapedOrdinary(a: string, s: string, u: string)
    requires '\'' !in a
    requires s != [] && s[0] != '\''
    ensures Expand("'" + a + Escape(s) + "'" + u) == Prepend(a + s, Expand(u))
    decreases |s|, 0
  {
    OrdinaryMoves(a, s, u);
    EscapedRun(a + [s[0]], s[1..], u);
  }

  /** An ordinary character moves from the escaped text into the quoted run unchanged. */
  lemma OrdinaryMoves(a: string, s: string, u: string)
    requires s != [] && s[0] != '\''
    ensures "'" + a + Escape(s) + "'" + u == "'" + (a + [s[0]]) + Escape(s[1..]) + "'" + u
    ensures (a + [s[0]]) + s[1..] == a + s
  {
    var q, c, e := "'", [s[0]], Escape(s[1..]);
    assert Escape(s) == c + e;
    assert q + a + (c + e) == q + (a + c) + e by {
      assert q + a + (c + e) == (q + a + c) + e;
      assert q + (a + c) == q + a + c;
    }
    assert (a + c) + s[1..] == a + (c + s[1..]);
    assert c + s[1..] == s;
  }

  lemma {:induction false} EscapedApostrophe(a: string, s: string, u: string)
    requires '\'' !in a
    requires s != [] && s[0] == '\''
    ensures Expand("'" + a + Escape(s) + "'" + u) == Prepend(a + s, Expand(u))
    decreases |s|, 0
  {
    ApostropheReopens(a, s, u);
    EscapedRun([], s[1..], u);
    PrependApostrophe(a, s, Expand("'" + a + Escape(s) + "'" + u),
      Expand("'" + [] + Escape(s[1..]) + "'" + u), Expand(u));
  }

  /** Text before a `'` and text after it join back into the original around it. */
  lemma PrependApostrophe(a: string, s: string, whole: Option<string>, rest: Option<string>, tail: Option<string>)
    requires s != [] && s[0] == '\''
    requires whole == Prepend(a, Prepend("'", rest))
    requires rest == Prepend([] + s[1..], tail)
    ensures whole == Prepend(a + s, tail)
  {
    if tail.Some? {
      assert a + ("'" + (([] + s[1..]) + tail.value)) == (a + s) + tail.value by {
        assert [] + s[1..] == s[1..];
        assert "'" + s[1..] == s;
      }
    }
  }

  /** An escaped `'` closes the quoted run, is read as a double-quoted `'`, and reopens the quote. */
  lemma ApostropheReopens(a: string, s: string, u: string)
    requires '\'' !in a
    requires s != [] && s[0] == '\''
    ensures Expand("'" + a + Escape(s) + "'" + u)
      == Prepend(a, Prepend("'", Expand("'" + [] + Escape(s[1..]) + "'" + u)))
  {
    var rest := "'" + [] + Escape(s[1..]) + "'" + u;
    var dq := "\"'\"" + rest;
    ApostropheSplits(a, s, u);
    SingleQuoted(a, dq);
    DoubleQuotedApostrophe(rest);
  }

  /** The escape of a `'` is a closing quote, a double-quoted `'` and an opening quote. */
  lemma ApostropheSplits(a: string, s: string, u: string)
    requires s != [] && s[0] == '\''
    ensures "'" + a + Escape(s) + "'" + u == "'" + a + "'" + ("\"'\"" + ("'" + [] + Escape(s[1..]) + "'" + u))
  {
    var q, d, e := "'", "\"'\"", Escape(s[1..]);
    assert Escape(s) == q + d + q + e;
    Regroup(q, a, d, e, u);
  }

  lemma Regroup(q: string, a: string, d: string, e: string, u: string)
    ensures q + a + (q + d + q + e) + q + u == q + a + q + (d + (q + [] + e + q + u))
  {
    var x := q + a;
    assert q + d + q + e == q + (d + (q + e));
    assert x + (q + (d + (q + e))) == x + q + (d + (q + e));
    assert q + [] + e + q + u == q + e + q + u;
    assert d + (q + e + q + u) == d + (q + e) + q + u;
  }

  lemma {:induction false} SafeWord(s: string)
    requires AllSafe(s)
    ensures Expand(s) == Some(s)
  {
    if s != [] {
      SafeWord(s[1..]);
      assert [s[0]] + s[1..] == s;
    }
  }

  /**
   * The quoted text is one shell word, and quote removal gives back exactly the
   * original text, whatever quotes, backslashes, blanks or newlines it holds.
   */
  lemma QuoteRoundTrip(s: string)
    ensures Expand(Quote(s)) == Some(s)
  {
    if s == [] {
      SingleQuoted([], []);
      assert "'" + [] + "'" + [] == Quote(s);
    } else if AllSafe(s) {
      SafeWord(s);
    } else {
      EscapedRun([], s, []);
      assert "'" + [] + Escape(s) + "'" + [] == Quote(s);
      assert [] + s == s && s + [] == s;
    }
  }
}
