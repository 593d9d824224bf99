/** What the quoting methods of formats mean to SQL (internal/pyfmt/format.go): between quotes, a
    quote is written twice. */
module Quoting {
  import opened Collections
  import opened Templates

  /** The text from i on to the quote that ends s; None if that is not the first single one. */
  function ReadFrom(s: string, i: nat, quote: char): Option<string>
    requires i <= |s|
    decreases |s| - i
  {
    if i == |s| then None
    else if s[i] != quote then Put(s[i], ReadFrom(s, i + 1, quote))
    else if i + 1 == |s| then Some("")
    else if s[i + 1] == quote then Put(quote, ReadFrom(s, i + 2, quote))
    else None
  }

  function Put(c: char, rest: Option<string>): Option<string> {
    if rest.None? then None else Some([c] + rest.value)
  }

  /** The value of quoted text. */
  function Unquote(s: string, quote: char): Option<string> {
    if s == "" || s[0] != quote then None else ReadFrom(s, 1, quote)
  }

  // string()

  lemma {:induction false} DoubledReadsBack(s: string, i: nat, v: string)
    requires i <= |s| && s[i..] == DoubleQuotes(v) + "'"
    ensures ReadFrom(s, i, '\'') == Some(v)
    decreases |v|
  {
    if v == "" {
      assert s[i] == s[i..][0];
    } else {
      var one := if v[0] == '\'' then "''" else [v[0]];
      assert s[i..] == one + (DoubleQuotes(v[1..]) + "'");
      assert s[i] == s[i..][0] == one[0];
      if |one| == 2 { assert s[i + 1] == s[i..][1] == one[1]; }
      assert s[i + |one|..] == s[i..][|one|..] == DoubleQuotes(v[1..]) + "'";
      DoubledReadsBack(s, i + |one|, v[1..]);
      assert v == [v[0]] + v[1..];
    }
  }

  /** Whatever the value, string() writes the literal that stands for it. */
  lemma {:induction false} StringReadsBack(v: string, env: Env)
    ensures Unquote(Transform("string()", v, env), '\'') == Some(v)
  {
    var s := Transform("string()", v, env);
    assert s == "'" + DoubleQuotes(v) + "'";
    assert s[1..] == DoubleQuotes(v) + "'";
    DoubledReadsBack(s, 1, v);
  }

  // identifier()

  lemma {:induction false} PlainReadsBack(s: string, i: nat, v: string, quote: char)
    requires i <= |s| && s[i..] == v + [quote] && quote !in v
    ensures ReadFrom(s, i, quote) == Some(v)
    decreases |v|
  {
    assert s[i] == s[i..][0];
    if v != "" {
      assert s[i + 1..] == s[i..][1..] == v[1..] + [quote];
      PlainReadsBack(s, i + 1, v[1..], quote);
      assert v == [v[0]] + v[1..];
    }
  }

  /** A quote before the last character costs one character of what is read. */
  lemma {:induction false} QuotesCost(s: string, i: nat, quote: char)
    requires i < |s|
    ensures var r := ReadFrom(s, i, quote);
      r.Some? ==> |r.value| + 1 <= |s| - i && (quote in s[i..|s| - 1] ==> |r.value| + 1 < |s| - i)
    decreases |s| - i
  {
    if s[i] != quote && i + 1 < |s| {
      QuotesCost(s, i + 1, quote);
      assert s[i..|s| - 1] == [s[i]] + s[i + 1..|s| - 1];
    } else if i + 2 < |s| && s[i + 1] == quote {
      QuotesCost(s, i + 2, quote);
    }
  }

  /** identifier() writes the name that stands for the value exactly when the value has no
      quote of its own. */
  lemma {:induction false} IdentifierReadsBackIff(v: string, env: Env)
    ensures Unquote(Transform("identifier()", v, env), '"') == Some(v) <==> '"' !in v
  {
    var s := Transform("identifier()", v, env);
    assert s == "\"" + v + "\"";
    assert s[1..] == v + ['"'] && s[1..|s| - 1] == v;
    if '"' !in v { PlainReadsBack(s, 1, v, '"'); }
    QuotesCost(s, 1, '"');
  }
}
