/** The copy button: the line is escaped (`copy_button`) and placed inside a
    JavaScript template literal, `navigator.clipboard.writeText(`...`)`, that is
    itself the value of a double-quoted HTML `onclick` attribute. This module
    models the escaping as written, the readings that undo it, and a corrected
    escaping for both enclosing contexts. */
module Clipboard {
  import opened Base

  /** Replaces each character of `s` by its image under `f`, in order. */
  function FlatMap(s: string, f: char -> string): string {
    if s == [] then [] else f(s[0]) + FlatMap(s[1..], f)
  }

  lemma {:induction false} FlatMapAppend(a: string, b: string, f: char -> string)
    ensures FlatMap(a + b, f) == FlatMap(a, f) + FlatMap(b, f)
  {
    if a == [] {
      assert a + b == b;
    } else {
      assert (a + b)[0] == a[0];
      assert (a + b)[1..] == a[1..] + b;
      FlatMapAppend(a[1..], b, f);
    }
  }

  /** A character that no image contains is not in the result. */
  lemma {:induction false} FlatMapAvoids(s: string, f: char -> string, c: char)
    requires forall x :: c !in f(x)
    ensures c !in FlatMap(s, f)
  {
    if s != [] {
      FlatMapAvoids(s[1..], f, c);
    }
  }

  /** `s.replace(c, rep)` for a one-character pattern. */
  function Replace(s: string, c: char, rep: string): string {
    FlatMap(s, x => if x == c then rep else [x])
  }

  /** `replace` leaves a string without the pattern alone. */
  lemma {:induction false} ReplaceAbsent(s: string, c: char, rep: string)
    requires c !in s
    ensures Replace(s, c, rep) == s
  {
    if s != [] {
      assert s[0] != c;
      assert s[1..] + [] == s[1..];
      ReplaceAbsent(s[1..], c, rep);
    }
  }

  /** The four chained `replace` calls of `copy_button`: backslash first,
      then backtick, double quote and newline. */
  function ReplaceChain(s: string): string {
    Replace(Replace(Replace(Replace(s, '\\', "\\\\"), '`', "\\`"), '"', "\\\""), '\n', "\\n")
  }

  /** `safe` in `copy_button`: the line escaped for the template literal. No
      raw newline is left, and undoing the four escapes gives the line back. */
  function Escape(s: string): (r: string)
    ensures '\n' !in r
    ensures Unescape(r) == Some(s)
  {
    ChainRoundTrip(s);
    ReplaceChain(s)
  }

  /** The chain leaves no raw newline, and undoing the four escapes gives the
      text back. */
  lemma ChainRoundTrip(s: string)
    ensures '\n' !in ReplaceChain(s)
    ensures Unescape(ReplaceChain(s)) == Some(s)
  {
    ChainIsPerChar(s);
    PerCharRoundTrip(s);
  }

  lemma PerCharRoundTrip(s: string)
    ensures '\n' !in FlatMap(s, EscapeChar)
    ensures Unescape(FlatMap(s, EscapeChar)) == Some(s)
  {
    FlatMapAvoids(s, EscapeChar, '\n');
    UnescapeEscaped(s);
  }

  /** What the four `replace` calls do to one character. */
  function EscapeChar(x: char): string {
    if x == '\\' then "\\\\"
    else if x == '`' then "\\`"
    else if x == '"' then "\\\""
    else if x == '\n' then "\\n"
    else [x]
  }

  lemma ChainAppend(a: string, b: string)
    ensures ReplaceChain(a + b) == ReplaceChain(a) + ReplaceChain(b)
  {
    var r1, r2, r3 := Replace(a + b, '\\', "\\\\"), Replace(a, '\\', "\\\\"), Replace(b, '\\', "\\\\");
    FlatMapAppend(a, b, x => if x == '\\' then "\\\\" else [x]);
    assert r1 == r2 + r3;
    var s1, s2, s3 := Replace(r1, '`', "\\`"), Replace(r2, '`', "\\`"), Replace(r3, '`', "\\`");
    FlatMapAppend(r2, r3, x => if x == '`' then "\\`" else [x]);
    assert s1 == s2 + s3;
    var t1, t2, t3 := Replace(s1, '"', "\\\""), Replace(s2, '"', "\\\""), Replace(s3, '"', "\\\"");
    FlatMapAppend(s2, s3, x => if x == '"' then "\\\"" else [x]);
    assert t1 == t2 + t3;
    FlatMapAppend(t2, t3, x => if x == '\n' then "\\n" else [x]);
  }

  lemma ReplaceOne(x: char, c: char, rep: string)
    ensures Replace([x], c, rep) == if x == c then rep else [x]
  {
    var f := y => if y == c then rep else [y];
    assert [x][1..] == [];
    assert FlatMap([x], f) == f(x) + FlatMap([], f);
    assert f(x) + [] == f(x);
  }

  /** The chain of `replace` calls escapes a single character as `EscapeChar`
      says: the backslashes added by later calls are never escaped again. */
  lemma ChainOne(x: char)
    ensures ReplaceChain([x]) == EscapeChar(x)
  {
    ReplaceOne(x, '\\', "\\\\");
    var r1 := Replace([x], '\\', "\\\\");
    if x == '\\' {
      ReplaceAbsent(r1, '`', "\\`");
      ReplaceAbsent(r1, '"', "\\\"");
      ReplaceAbsent(r1, '\n', "\\n");
    } else {
      ReplaceOne(x, '`', "\\`");
      var r2 := Replace(r1, '`', "\\`");
      if x == '`' {
        ReplaceAbsent(r2, '"', "\\\"");
        ReplaceAbsent(r2, '\n', "\\n");
      } else {
        ReplaceOne(x, '"', "\\\"");
        var r3 := Replace(r2, '"', "\\\"");
        if x == '"' {
          ReplaceAbsent(r3, '\n', "\\n");
        } else {
          ReplaceOne(x, '\n', "\\n");
        }
      }
    }
  }

  /** The four `replace` calls together escape each character on its own. */
  lemma {:induction false} ChainIsPerChar(s: string)
    ensures ReplaceChain(s) == FlatMap(s, EscapeChar)
  {
    if s == [] {
    } else {
      assert s == [s[0]] + s[1..];
      ChainAppend([s[0]], s[1..]);
      ChainOne(s[0]);
      ChainIsPerChar(s[1..]);
    }
  }

  function Prepend(c: char, rest: Option<string>): Option<string> {
    match rest
    case None => None
    case Some(t) => Some([c] + t)
  }

  /** Undoes the four escapes of `copy_button`: a backslash followed by a
      backslash, backtick, double quote or `n` stands for that character (a
      newline for `n`); any other use of a backslash is rejected. */
  function Unescape(s: string): Option<string> {
    if s == [] then Some([])
    else if s[0] != '\\' then Prepend(s[0], Unescape(s[1..]))
    else if |s| < 2 then None
    else if s[1] == '\\' || s[1] == '`' || s[1] == '"' then Prepend(s[1], Unescape(s[2..]))
    else if s[1] == 'n' then Prepend('\n', Unescape(s[2..]))
    else None
  }

  lemma UnescapeOne(x: char, rest: string)
    ensures Unescape(EscapeChar(x) + rest) == Prepend(x, Unescape(rest))
  {
    var e := EscapeChar(x) + rest;
    if |EscapeChar(x)| == 2 {
      assert e[2..] == rest;
    } else {
      assert e[1..] == rest;
    }
  }

  lemma {:induction false} UnescapeEscaped(s: string)
    ensures Unescape(FlatMap(s, EscapeChar)) == Some(s)
  {
    if s != [] {
      UnescapeOne(s[0], FlatMap(s[1..], EscapeChar));
      UnescapeEscaped(s[1..]);
      assert s == [s[0]] + s[1..];
    }
  }

  /** The escape sequences a JavaScript template literal reads back as one
      character (the subset this model needs). */
  function TemplateEscape(e: char): Option<char> {
    if e == '\\' || e == '`' || e == '"' || e == '$' then Some(e)
    else if e == 'n' then Some('\n')
    else if e == 'r' then Some('\r')
    else None
  }

  /** The string a JavaScript template literal with body `s` evaluates to, or
      `None` when the body is not plain text: a raw backtick ends the literal,
      `${` opens a substitution, and a backslash must start a known escape. A
      raw carriage return, alone or before a line feed, reads as a line feed. */
  function TemplateValue(s: string): Option<string> {
    if s == [] then Some([])
    else if s[0] == '`' then None
    else if s[0] == '$' && |s| > 1 && s[1] == '{' then None
    else if s[0] == '\\' then
      if |s| > 1 && TemplateEscape(s[1]).Some? then Prepend(TemplateEscape(s[1]).value, TemplateValue(s[2..]))
      else None
    else if s[0] == '\r' then
      if |s| > 1 && s[1] == '\n' then Prepend('\n', TemplateValue(s[2..])) else Prepend('\n', TemplateValue(s[1..]))
    else Prepend(s[0], TemplateValue(s[1..]))
  }

  /** Text without backslash, backtick, double quote or newline passes the
      escaping unchanged. */
  lemma EscapeUnchanged(s: string)
    requires '\\' !in s && '`' !in s && '"' !in s && '\n' !in s
    ensures Escape(s) == s
  {
    ReplaceAbsent(s, '\\', "\\\\");
    ReplaceAbsent(s, '`', "\\`");
    ReplaceAbsent(s, '"', "\\\"");
    ReplaceAbsent(s, '\n', "\\n");
  }

  /** Text containing `${` keeps it through the escaping of `copy_button`, so the
      template literal evaluates a substitution instead of copying the text. */
  lemma EscapeOpensSubstitution()
    ensures Escape("${x}") == "${x}"
    ensures TemplateValue(Escape("${x}")) == None
  {
    EscapeUnchanged("${x}");
  }

  /** Without `$` and carriage returns, the template literal in the `onclick` attribute does
      evaluate to the text. */
  lemma EscapeReadsBackWithoutDollar(s: string)
    requires '$' !in s && '\r' !in s
    ensures TemplateValue(Escape(s)) == Some(s)
  {
    ChainIsPerChar(s);
    TemplateValueEscaped(s);
  }

  lemma {:induction false} TemplateValueEscaped(s: string)
    requires '$' !in s && '\r' !in s
    ensures TemplateValue(FlatMap(s, EscapeChar)) == Some(s)
  {
    if s != [] {
      assert s[0] != '$' && s[0] != '\r';
      TemplateCharStep(s[0], FlatMap(s[1..], EscapeChar));
      TemplateValueEscaped(s[1..]);
      assert s == [s[0]] + s[1..];
    }
  }

  /** The escaping a template literal needs: the four escapes of `copy_button`, plus `$`
      (so `${` cannot open a substitution) and carriage return (so it is not
      turned into a line feed). */
  function TemplateChar(x: char): string {
    if x == '$' then "\\$"
    else if x == '\r' then "\\r"
    else EscapeChar(x)
  }

  /** Corrected escaping: the template literal always evaluates to the text. */
  function EscapeForTemplate(s: string): (r: string)
    ensures TemplateValue(r) == Some(s)
  {
    TemplateValueCorrected(s);
    FlatMap(s, TemplateChar)
  }

  lemma {:induction false} TemplateValueCorrected(s: string)
    ensures TemplateValue(FlatMap(s, TemplateChar)) == Some(s)
  {
    if s != [] {
      TemplateCharStep(s[0], FlatMap(s[1..], TemplateChar));
      TemplateValueCorrected(s[1..]);
      assert s == [s[0]] + s[1..];
    }
  }

  /** The template literal reads the escape of one character back as that
      character, whatever follows it. */
  lemma TemplateCharStep(x: char, rest: string)
    ensures TemplateValue(TemplateChar(x) + rest) == Prepend(x, TemplateValue(rest))
  {
    var e := TemplateChar(x) + rest;
    if |TemplateChar(x)| == 2 {
      assert e[2..] == rest;
    } else {
      assert e[1..] == rest;
    }
  }

  /** The value an HTML parser reads from the inside of a double-quoted
      attribute, or `None` when a raw `"` ends the attribute early. Only the
      character references `&amp;` and `&quot;` are modelled; any other `&`
      reads as `None`. */
  function AttributeValue(s: string): Option<string> {
    if s == [] then Some([])
    else if s[0] == '"' then None
    else if s[0] == '&' then
      if |s| >= 5 && s[..5] == "&amp;" then Prepend('&', AttributeValue(s[5..]))
      else if |s| >= 6 && s[..6] == "&quot;" then Prepend('"', AttributeValue(s[6..]))
      else None
    else Prepend(s[0], AttributeValue(s[1..]))
  }

  /** `copy_button` escapes `"` with a backslash, which HTML does not honour: a
      double quote in the text ends the `onclick` attribute. */
  lemma EscapeBreaksAttribute()
    ensures Escape("\"") == "\\\""
    ensures AttributeValue(Escape("\"")) == None
  {
    ChainOne('"');
    var e := "\\\"";
    assert e[1..] == "\"";
  }

  /** Nor are `&` escaped: an `&amp;` in the text is copied as `&`. */
  lemma EscapeDecodesEntities()
    ensures Escape("&amp;") == "&amp;"
    ensures AttributeValue(Escape("&amp;")) == Some("&")
  {
    var amp := "&amp;";
    EscapeUnchanged(amp);
    assert amp[..5] == "&amp;";
    assert amp[5..] == [];
    assert AttributeValue(amp) == Prepend('&', AttributeValue([]));
    assert AttributeValue([]) == Some([]);
    assert ['&'] + [] == "&";
  }

  /** HTML escaping of one character of an attribute value. */
  function AttributeChar(x: char): string {
    if x == '&' then "&amp;"
    else if x == '"' then "&quot;"
    else [x]
  }

  lemma {:induction false} AttributeValueEscaped(s: string)
    ensures AttributeValue(FlatMap(s, AttributeChar)) == Some(s)
  {
    if s != [] {
      var rest := FlatMap(s[1..], AttributeChar);
      var e := AttributeChar(s[0]) + rest;
      if s[0] == '&' {
        assert e[..5] == "&amp;" && e[5..] == rest;
      } else if s[0] == '"' {
        assert e[..5] != "&amp;" by { assert e[1] == 'q'; }
        assert e[..6] == "&quot;" && e[6..] == rest;
      } else {
        assert e[1..] == rest;
      }
      AttributeValueEscaped(s[1..]);
      assert s == [s[0]] + s[1..];
    }
  }

  /** Corrected copy button script: the text escaped for the template literal,
      then for the double-quoted attribute. The attribute holds no raw `"`,
      and the browser reads it back, then evaluates it, to the text. */
  function CopyAttribute(s: string): (r: string)
    ensures '"' !in r
    ensures AttributeValue(r) == Some(EscapeForTemplate(s))
    ensures TemplateValue(AttributeValue(r).value) == Some(s)
  {
    var js := EscapeForTemplate(s);
    FlatMapAvoids(js, AttributeChar, '"');
    AttributeValueEscaped(js);
    FlatMap(js, AttributeChar)
  }
}
