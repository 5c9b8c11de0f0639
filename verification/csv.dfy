/**
 * `escapeCSV` of the dashboard's export (frontend/src/pages/Dashboard.jsx): a field holding a
 * comma, a double quote or a line break is enclosed in double quotes with each inner quote
 * doubled; any other field is written as it is. This is the quoting of section 2 of RFC 4180
 * (rules 6 and 7), and `ReadField` is the reading that section prescribes, used to show that
 * nothing is lost.
 */
module Csv {
  import opened Common

  /** The characters that force a field into quotes. */
  predicate NeedsQuoting(s: string) {
    ',' in s || '"' in s || '\n' in s || '\r' in s
  }

  /** The number of double quotes in `s`. */
  function QuoteCount(s: string): nat
    decreases |s|
  {
    if s == [] then 0 else (if s[0] == '"' then 1 else 0) + QuoteCount(s[1..])
  }

  /** `s.replace(/"/g, '""')`. */
  function DoubleQuotes(s: string): (r: string)
    ensures |r| == |s| + QuoteCount(s)
    decreases |s|
  {
    if s == [] then [] else (if s[0] == '"' then "\"\"" else [s[0]]) + DoubleQuotes(s[1..])
  }

  /** `escapeCSV(s)` for a text value (every call site passes text; `String(text || '')` leaves it as it is). */
  function EscapeCsv(s: string): (r: string)
    ensures !NeedsQuoting(s) ==> r == s
    ensures NeedsQuoting(s) ==> |r| == |s| + QuoteCount(s) + 2 && r[0] == '"' && r[|r| - 1] == '"'
  {
    if NeedsQuoting(s) then "\"" + DoubleQuotes(s) + "\"" else s
  }

  /** The inside of a quoted field read back: `""` stands for one `"`, and a lone `"` is malformed. */
  function Undouble(t: string): (r: Option<string>)
    decreases |t|
  {
    if t == [] then Some([])
    else if t[0] != '"' then
      var rest := Undouble(t[1..]);
      if rest.None? then None else Some([t[0]] + rest.value)
    else if |t| >= 2 && t[1] == '"' then
      var rest := Undouble(t[2..]);
      if rest.None? then None else Some(['"'] + rest.value)
    else None
  }

  /**
   * One field read back: a field enclosed in quotes is undoubled; an unquoted field may not
   * hold a comma, a quote or a line break.
   */
  function ReadField(f: string): (r: Option<string>)
    ensures r.Some? && !(|f| >= 2 && f[0] == '"' && f[|f| - 1] == '"') ==> r.value == f
  {
    if |f| >= 2 && f[0] == '"' && f[|f| - 1] == '"' then Undouble(f[1..|f| - 1])
    else if NeedsQuoting(f) then None
    else Some(f)
  }

  lemma {:induction false} UndoubleDoubleQuotes(s: string)
    ensures Undouble(DoubleQuotes(s)) == Some(s)
    decreases |s|
  {
    if s != [] {
      UndoubleDoubleQuotes(s[1..]);
      var d := DoubleQuotes(s);
      if s[0] == '"' {
        assert d[2..] == DoubleQuotes(s[1..]);
      } else {
        assert d[1..] == DoubleQuotes(s[1..]);
      }
      assert s == [s[0]] + s[1..];
    }
  }

  /** Reading an escaped field back gives the original text. */
  lemma EscapeRoundTrip(s: string)
    ensures ReadField(EscapeCsv(s)) == Some(s)
  {
    if NeedsQuoting(s) {
      var r := EscapeCsv(s);
      assert r[1..|r| - 1] == DoubleQuotes(s);
      UndoubleDoubleQuotes(s);
    }
  }

  lemma {:induction false} QuoteCountAppend(a: string, b: string)
    ensures QuoteCount(a + b) == QuoteCount(a) + QuoteCount(b)
    decreases |a|
  {
    if a == [] {
      assert a + b == b;
    } else {
      QuoteCountAppend(a[1..], b);
      assert (a + b)[1..] == a[1..] + b;
    }
  }

  lemma {:induction false} DoubledQuotesCount(s: string)
    ensures QuoteCount(DoubleQuotes(s)) == 2 * QuoteCount(s)
    decreases |s|
  {
    if s != [] {
      DoubledQuotesCount(s[1..]);
      var head := if s[0] == '"' then "\"\"" else [s[0]];
      QuoteCountAppend(head, DoubleQuotes(s[1..]));
    }
  }

  lemma {:induction false} NoQuoteNoCount(s: string)
    requires '"' !in s
    ensures QuoteCount(s) == 0
    decreases |s|
  {
    if s != [] {
      NoQuoteNoCount(s[1..]);
    }
  }

  /** Every escaped field holds an even number of double quotes. */
  lemma EscapedQuotesEven(s: string)
    ensures QuoteCount(EscapeCsv(s)) % 2 == 0
  {
    if NeedsQuoting(s) {
      QuotedFieldQuoteCount(s);
    } else {
      NoQuoteNoCount(s);
    }
  }

  /** A field that needs quoting ends up with its own quotes doubled plus the two enclosing ones. */
  lemma QuotedFieldQuoteCount(s: string)
    requires NeedsQuoting(s)
    ensures QuoteCount(EscapeCsv(s)) == 2 * QuoteCount(s) + 2
  {
    var q, d := "\"", DoubleQuotes(s);
    assert QuoteCount(q) == 1 by {
      assert q[1..] == [];
    }
    QuoteCountAppend(q, d);
    QuoteCountAppend(q + d, q);
    DoubledQuotesCount(s);
  }
}
