/**
 * The text layer of the shared CSV parser (src/shared/utils/csvParser.js):
 * the parser's options, JavaScript's `trim`, `splitLines` and the
 * quote-aware field splitter `parseLine`.
 */
module CsvLines {
  import SeqFacts

  /** The options object that `new CSVParser(options)` builds. */
  datatype Options = Options(
    delimiter: char,
    quoteChar: char,
    skipEmptyLines: bool,
    trimValues: bool,
    validateHeaders: bool,
    strictMode: bool)

  /** The options of `new CSVParser()`: comma, double quote, skip, trim, validate, not strict. */
  const Defaults: Options := Options(',', '"', true, true, true, false)

  // ---------------------------------------------------------------------
  // Whitespace and String.prototype.trim
  // ---------------------------------------------------------------------

  /** ECMAScript WhiteSpace and LineTerminator code points, the set `trim` removes. */
  predicate IsSpace(c: char) {
    || c == '\t' || c == '\n' || c == '\U{000B}' || c == '\U{000C}' || c == '\r' || c == ' '
    || c == '\U{00A0}' || c == '\U{1680}' || ('\U{2000}' <= c <= '\U{200A}')
    || c == '\U{2028}' || c == '\U{2029}' || c == '\U{202F}' || c == '\U{205F}'
    || c == '\U{3000}' || c == '\U{FEFF}'
  }

  /** Every character of `s` is whitespace (so `!s.trim()` holds). */
  predicate IsBlank(s: string) {
    forall i :: 0 <= i < |s| ==> IsSpace(s[i])
  }

  /** Neither end of `s` is whitespace. */
  predicate IsTrimmed(s: string) {
    s == [] || (!IsSpace(s[0]) && !IsSpace(s[|s| - 1]))
  }

  /** `s` with its leading whitespace removed. */
  function TrimStart(s: string): (r: string)
    ensures |r| <= |s| && r == s[|s| - |r|..]
    ensures r == [] || !IsSpace(r[0])
    ensures forall i :: 0 <= i < |s| - |r| ==> IsSpace(s[i])
  {
    if s != [] && IsSpace(s[0]) then
      var r := TrimStart(s[1..]);
      assert s[1..][|s| - 1 - |r|..] == s[|s| - |r|..];
      r
    else s
  }

  /** `s` with its trailing whitespace removed. */
  function TrimEnd(s: string): (r: string)
    ensures |r| <= |s| && r == s[..|r|]
    ensures r == [] || !IsSpace(r[|r| - 1])
    ensures forall i :: |r| <= i < |s| ==> IsSpace(s[i])
  {
    if s != [] && IsSpace(s[|s| - 1]) then
      var r := TrimEnd(s[..|s| - 1]);
      assert s[..|s| - 1][..|r|] == s[..|r|];
      r
    else s
  }

  /** JavaScript's `s.trim()`. */
  function Trim(s: string): (r: string)
    ensures IsTrimmed(r)
    ensures r == [] <==> IsBlank(s)
    ensures IsTrimmed(s) ==> r == s
    // leading whitespace goes first, then trailing whitespace (see `TrimExactly`)
    ensures r == TrimEnd(TrimStart(s))
  {
    TrimEnd(TrimStart(s))
  }

  /** Stripping a blank prefix and a blank suffix from a trimmed string is all `trim` does. */
  lemma TrimExactly(a: string, b: string, c: string)
    requires IsBlank(a) && IsTrimmed(b) && IsBlank(c)
    ensures Trim(a + b + c) == b
  {
    if b == [] {
      assert IsBlank(a + b + c);
    } else {
      assert a + b + c == a + (b + c);
      TrimStartPast(a, b + c);
      TrimEndPast(b, c);
    }
  }

  lemma {:induction false} TrimStartPast(a: string, t: string)
    requires IsBlank(a) && (t == [] || !IsSpace(t[0]))
    ensures TrimStart(a + t) == t
    decreases |a|
  {
    if a == [] {
      assert a + t == t;
    } else {
      assert (a + t)[0] == a[0] && (a + t)[1..] == a[1..] + t;
      TrimStartPast(a[1..], t);
    }
  }

  lemma {:induction false} TrimEndPast(t: string, c: string)
    requires IsBlank(c) && (t == [] || !IsSpace(t[|t| - 1]))
    ensures TrimEnd(t + c) == t
    decreases |c|
  {
    if c == [] {
      assert t + c == t;
    } else {
      var n := |t + c|;
      assert (t + c)[n - 1] == c[|c| - 1] && (t + c)[..n - 1] == t + c[..|c| - 1];
      TrimEndPast(t, c[..|c| - 1]);
    }
  }

  // ---------------------------------------------------------------------
  // splitLines: csvText.split(/\r\n|\r|\n/)
  // ---------------------------------------------------------------------

  predicate IsLineBreak(c: char) {
    c == '\r' || c == '\n'
  }

  predicate NoLineBreak(s: string) {
    forall i :: 0 <= i < |s| ==> !IsLineBreak(s[i])
  }

  /**
   * Splits at every "\r\n", "\r" or "\n", trying "\r\n" first at each
   * position as the regular expression's alternation does.
   */
  function SplitLines(text: string): (lines: seq<string>)
    ensures |lines| >= 1
    ensures forall k :: 0 <= k < |lines| ==> NoLineBreak(lines[k])
    decreases |text|
  {
    if text == [] then [""]
    else if text[0] == '\r' && |text| >= 2 && text[1] == '\n' then [""] + SplitLines(text[2..])
    else if IsLineBreak(text[0]) then [""] + SplitLines(text[1..])
    else
      var rest := SplitLines(text[1..]);
      [[text[0]] + rest[0]] + rest[1..]
  }

  /** The lines joined with "\n": the inverse direction of `SplitLines`. */
  function JoinLines(lines: seq<string>): string
    requires |lines| >= 1
    decreases |lines|
  {
    if |lines| == 1 then lines[0] else lines[0] + "\n" + JoinLines(lines[1..])
  }

  /** `text` with every "\r\n" and every lone "\r" replaced by "\n". */
  function NormalizeBreaks(text: string): string
    decreases |text|
  {
    if text == [] then []
    else if text[0] == '\r' && |text| >= 2 && text[1] == '\n' then "\n" + NormalizeBreaks(text[2..])
    else if IsLineBreak(text[0]) then "\n" + NormalizeBreaks(text[1..])
    else [text[0]] + NormalizeBreaks(text[1..])
  }

  /** Prepending a character to the first line prepends it to the joined text. */
  lemma JoinLinesCons(c: char, lines: seq<string>)
    requires |lines| >= 1
    ensures JoinLines([[c] + lines[0]] + lines[1..]) == [c] + JoinLines(lines)
  {
    if |lines| > 1 {
      JoinLinesConsMore(c, lines[0], lines[1..]);
      assert [lines[0]] + lines[1..] == lines;
    }
  }

  lemma JoinLinesConsMore(c: char, first: string, more: seq<string>)
    requires |more| >= 1
    ensures JoinLines([[c] + first] + more) == [c] + JoinLines([first] + more)
  {
    JoinLinesUnfold([c] + first, more);
    JoinLinesUnfold(first, more);
    SeqFacts.AppendAssoc([c], first + "\n", JoinLines(more));
    SeqFacts.AppendAssoc([c], first, "\n");
  }

  lemma JoinLinesUnfold(first: string, more: seq<string>)
    requires |more| >= 1
    ensures JoinLines([first] + more) == first + "\n" + JoinLines(more)
  {
    assert ([first] + more)[1..] == more;
  }

  /** Splitting loses only the kind of line break: joining gives back the normalised text. */
  lemma {:induction false} JoinSplitLines(text: string)
    ensures JoinLines(SplitLines(text)) == NormalizeBreaks(text)
    decreases |text|
  {
    if text == [] {
    } else if text[0] == '\r' && |text| >= 2 && text[1] == '\n' {
      JoinSplitLines(text[2..]);
      assert ([""] + SplitLines(text[2..]))[1..] == SplitLines(text[2..]);
    } else if IsLineBreak(text[0]) {
      JoinSplitLines(text[1..]);
      assert ([""] + SplitLines(text[1..]))[1..] == SplitLines(text[1..]);
    } else {
      JoinSplitLines(text[1..]);
      JoinLinesCons(text[0], SplitLines(text[1..]));
    }
  }

  /** A line without breaks, followed by a break and more text, splits off as one line. */
  lemma {:induction false} SplitLinesPrefix(line: string, rest: string)
    requires NoLineBreak(line)
    ensures SplitLines(line + "\n" + rest) == [line] + SplitLines(rest)
    decreases |line|
  {
    if line == [] {
      assert line + "\n" + rest == "\n" + rest;
      assert ("\n" + rest)[1..] == rest;
    } else {
      SplitLinesPrefix(line[1..], rest);
      assert (line + "\n" + rest)[1..] == line[1..] + "\n" + rest;
      assert [line[0]] + line[1..] == line;
    }
  }

  /** A line without breaks is one line. */
  lemma {:induction false} SplitLinesSingle(line: string)
    requires NoLineBreak(line)
    ensures SplitLines(line) == [line]
    decreases |line|
  {
    if line != [] {
      SplitLinesSingle(line[1..]);
      assert [line[0]] + line[1..] == line;
    }
  }

  /** Lines without breaks survive joining and splitting again. */
  lemma {:induction false} SplitJoinLines(lines: seq<string>)
    requires |lines| >= 1
    requires forall k :: 0 <= k < |lines| ==> NoLineBreak(lines[k])
    ensures SplitLines(JoinLines(lines)) == lines
    decreases |lines|
  {
    if |lines| == 1 {
      SplitLinesSingle(lines[0]);
    } else {
      SplitJoinLines(lines[1..]);
      SplitLinesPrefix(lines[0], JoinLines(lines[1..]));
      assert [lines[0]] + lines[1..] == lines;
    }
  }

  // ---------------------------------------------------------------------
  // parseLine: the quote-aware field splitter
  // ---------------------------------------------------------------------

  /** What `parseLine` pushes for a finished field: trimmed when `trimValues` is on. */
  function Finish(field: string, opts: Options): string {
    if opts.trimValues then Trim(field) else field
  }

  /**
   * The fields `parseLine` produces from the unread rest `s` of a line,
   * when it is in quote mode `inQuotes` and has collected `current` for the
   * field under way. A quote followed by a quote inside quotes is one literal
   * quote; any other quote toggles quote mode; a delimiter outside quotes ends
   * a field; every other character is text.
   */
  function Scan(s: string, opts: Options, inQuotes: bool, current: string): (fields: seq<string>)
    ensures |fields| >= 1
    decreases |s|
  {
    if s == [] then [Finish(current, opts)]
    else if s[0] == opts.quoteChar then
      if inQuotes && |s| >= 2 && s[1] == opts.quoteChar then
        Scan(s[2..], opts, inQuotes, current + [opts.quoteChar])
      else
        Scan(s[1..], opts, !inQuotes, current)
    else if s[0] == opts.delimiter && !inQuotes then
      [Finish(current, opts)] + Scan(s[1..], opts, inQuotes, "")
    else
      Scan(s[1..], opts, inQuotes, current + [s[0]])
  }

  /** The fields of one line. */
  function LineFields(line: string, opts: Options): seq<string> {
    Scan(line, opts, false, "")
  }

  /** `parseLine(line)`: the JavaScript character loop. */
  method ParseLine(line: string, opts: Options) returns (values: seq<string>)
    ensures values == LineFields(line, opts)
  {
    values := [];
    var current := "";
    var inQuotes := false;
    var i := 0;
    while i < |line|
      invariant 0 <= i <= |line|
      invariant values + Scan(line[i..], opts, inQuotes, current) == LineFields(line, opts)
    {
      var ch := line[i];
      assert line[i..][0] == ch;
      if ch == opts.quoteChar {
        if inQuotes && i + 1 < |line| && line[i + 1] == opts.quoteChar {
          // an escaped quote
          assert line[i..][2..] == line[i + 2..];
          current := current + [opts.quoteChar];
          i := i + 2;
          continue;
        } else {
          inQuotes := !inQuotes;
        }
      } else if ch == opts.delimiter && !inQuotes {
        values := values + [Finish(current, opts)];
        current := "";
      } else {
        current := current + [ch];
      }
      assert line[i..][1..] == line[i + 1..];
      i := i + 1;
    }
    values := values + [Finish(current, opts)];
  }

  // --- field count --------------------------------------------------------

  /** The number of delimiters in `s` that the splitter meets outside quotes. */
  function UnquotedDelimiters(s: string, opts: Options, inQuotes: bool): nat
    decreases |s|
  {
    if s == [] then 0
    else if s[0] == opts.quoteChar then
      if inQuotes && |s| >= 2 && s[1] == opts.quoteChar then UnquotedDelimiters(s[2..], opts, inQuotes)
      else UnquotedDelimiters(s[1..], opts, !inQuotes)
    else if s[0] == opts.delimiter && !inQuotes then 1 + UnquotedDelimiters(s[1..], opts, inQuotes)
    else UnquotedDelimiters(s[1..], opts, inQuotes)
  }

  lemma {:induction false} ScanCount(s: string, opts: Options, inQuotes: bool, current: string)
    ensures |Scan(s, opts, inQuotes, current)| == UnquotedDelimiters(s, opts, inQuotes) + 1
    decreases |s|
  {
    if s == [] {
    } else if s[0] == opts.quoteChar {
      if inQuotes && |s| >= 2 && s[1] == opts.quoteChar {
        ScanCount(s[2..], opts, inQuotes, current + [opts.quoteChar]);
      } else {
        ScanCount(s[1..], opts, !inQuotes, current);
      }
    } else if s[0] == opts.delimiter && !inQuotes {
      ScanCount(s[1..], opts, inQuotes, "");
    } else {
      ScanCount(s[1..], opts, inQuotes, current + [s[0]]);
    }
  }

  /** A line has one field more than it has delimiters outside quotes (so at least one). */
  lemma FieldCount(line: string, opts: Options)
    ensures |LineFields(line, opts)| == UnquotedDelimiters(line, opts, false) + 1
  {
    ScanCount(line, opts, false, "");
  }

  // --- characters of the fields --------------------------------------------

  /** No field starts or ends with whitespace. */
  predicate AllTrimmed(fields: seq<string>) {
    forall k :: 0 <= k < |fields| ==> IsTrimmed(fields[k])
  }

  lemma AllTrimmedCons(field: string, rest: seq<string>)
    requires IsTrimmed(field) && AllTrimmed(rest)
    ensures AllTrimmed([field] + rest)
  {
    var fields := [field] + rest;
    forall k | 0 <= k < |fields|
      ensures IsTrimmed(fields[k])
    {
      if k > 0 {
        assert fields[k] == rest[k - 1];
      }
    }
  }

  lemma {:induction false} ScanTrimmed(s: string, opts: Options, inQuotes: bool, current: string)
    requires opts.trimValues
    ensures AllTrimmed(Scan(s, opts, inQuotes, current))
    decreases |s|
  {
    if s == [] {
      assert Scan(s, opts, inQuotes, current) == [Trim(current)];
    } else if s[0] == opts.quoteChar {
      if inQuotes && |s| >= 2 && s[1] == opts.quoteChar {
        ScanTrimmed(s[2..], opts, inQuotes, current + [opts.quoteChar]);
      } else {
        ScanTrimmed(s[1..], opts, !inQuotes, current);
      }
    } else if s[0] == opts.delimiter && !inQuotes {
      ScanTrimmed(s[1..], opts, inQuotes, "");
      AllTrimmedCons(Trim(current), Scan(s[1..], opts, inQuotes, ""));
    } else {
      ScanTrimmed(s[1..], opts, inQuotes, current + [s[0]]);
    }
  }

  /** With `trimValues` on, no field starts or ends with whitespace. */
  lemma TrimmedFields(line: string, opts: Options)
    requires opts.trimValues
    ensures forall k :: 0 <= k < |LineFields(line, opts)| ==> IsTrimmed(LineFields(line, opts)[k])
  {
    ScanTrimmed(line, opts, false, "");
  }

  lemma {:induction false} ScanBlank(s: string, opts: Options, inQuotes: bool, current: string)
    requires IsBlank(s) && IsBlank(current)
    ensures forall k :: 0 <= k < |Scan(s, opts, inQuotes, current)| ==> IsBlank(Scan(s, opts, inQuotes, current)[k])
    decreases |s|
  {
    if s == [] {
    } else if s[0] == opts.quoteChar {
      if inQuotes && |s| >= 2 && s[1] == opts.quoteChar {
        ScanBlank(s[2..], opts, inQuotes, current + [opts.quoteChar]);
      } else {
        ScanBlank(s[1..], opts, !inQuotes, current);
      }
    } else if s[0] == opts.delimiter && !inQuotes {
      ScanBlank(s[1..], opts, inQuotes, "");
    } else {
      ScanBlank(s[1..], opts, inQuotes, current + [s[0]]);
    }
  }

  /** A blank line has only blank fields, so `skipEmptyLines` never changes what is kept. */
  lemma BlankLineBlankFields(line: string, opts: Options)
    requires IsBlank(line)
    ensures forall k :: 0 <= k < |LineFields(line, opts)| ==> IsBlank(LineFields(line, opts)[k])
  {
    ScanBlank(line, opts, false, "");
  }

  // --- quotes ---------------------------------------------------------------

  /** No two consecutive characters of `s` are both `q`. */
  predicate NoDoubledQuote(s: string, q: char) {
    forall j :: 0 <= j < |s| - 1 ==> !(s[j] == q && s[j + 1] == q)
  }

  lemma {:induction false} ScanNoQuote(s: string, opts: Options, inQuotes: bool, current: string)
    requires NoDoubledQuote(s, opts.quoteChar)
    requires opts.quoteChar !in current
    ensures forall k :: 0 <= k < |Scan(s, opts, inQuotes, current)| ==> opts.quoteChar !in Scan(s, opts, inQuotes, current)[k]
    decreases |s|
  {
    if s == [] {
    } else if s[0] == opts.quoteChar {
      ScanNoQuote(s[1..], opts, !inQuotes, current);
    } else if s[0] == opts.delimiter && !inQuotes {
      ScanNoQuote(s[1..], opts, inQuotes, "");
    } else {
      ScanNoQuote(s[1..], opts, inQuotes, current + [s[0]]);
    }
  }

  /** A quote character that is not doubled only toggles quote mode: it never reaches a field. */
  lemma LoneQuotesVanish(line: string, opts: Options)
    requires NoDoubledQuote(line, opts.quoteChar)
    ensures forall k :: 0 <= k < |LineFields(line, opts)| ==> opts.quoteChar !in LineFields(line, opts)[k]
  {
    ScanNoQuote(line, opts, false, "");
  }

  // --- the encoding the splitter inverts ---------------------------------------

  /** `field` with every quote character doubled. */
  function EscapeQuotes(field: string, q: char): string
    decreases |field|
  {
    if field == [] then []
    else if field[0] == q then [q, q] + EscapeQuotes(field[1..], q)
    else [field[0]] + EscapeQuotes(field[1..], q)
  }

  /** The fields, each quoted with its quotes doubled, separated by the delimiter. */
  function EncodeLine(fields: seq<string>, opts: Options): string
    requires |fields| >= 1
    decreases |fields|, 1
  {
    [opts.quoteChar] + (EscapeQuotes(fields[0], opts.quoteChar) + [opts.quoteChar] + EncodeTail(fields, opts))
  }

  /** What follows the first quoted field: nothing, or the delimiter and the other fields. */
  function EncodeTail(fields: seq<string>, opts: Options): string
    requires |fields| >= 1
    decreases |fields|, 0
  {
    if |fields| == 1 then [] else [opts.delimiter] + EncodeLine(fields[1..], opts)
  }

  /** Inside quotes, the escaped body and the closing quote give back the field's text. */
  lemma {:induction false} ScanQuotedBody(field: string, rest: string, opts: Options, current: string)
    requires rest == [] || rest[0] != opts.quoteChar
    ensures Scan(EscapeQuotes(field, opts.quoteChar) + [opts.quoteChar] + rest, opts, true, current)
         == Scan(rest, opts, false, current + field)
    decreases |field|
  {
    var q := opts.quoteChar;
    if field == [] {
      assert current + field == current;
      SeqFacts.AppendAssoc([q], [], rest);
    } else if field[0] == q {
      ScanQuotedBody(field[1..], rest, opts, current + [q]);
      PrefixedBody([q, q], EscapeQuotes(field[1..], q), [q], rest);
      SeqFacts.AppendAssoc(current, [q], field[1..]);
      assert [q] + field[1..] == field;
    } else {
      ScanQuotedBody(field[1..], rest, opts, current + [field[0]]);
      PrefixedBody([field[0]], EscapeQuotes(field[1..], q), [q], rest);
      SeqFacts.AppendAssoc(current, [field[0]], field[1..]);
      assert [field[0]] + field[1..] == field;
    }
  }

  /** Regrouping `p + e + c + r` as `p` followed by `e + c + r`. */
  lemma PrefixedBody<T>(p: seq<T>, e: seq<T>, c: seq<T>, r: seq<T>)
    ensures p + e + c + r == p + (e + c + r)
    ensures (p + e + c + r)[|p|..] == e + c + r
  {
    SeqFacts.AppendAssoc(p, e, c);
    SeqFacts.AppendAssoc(p, e + c, r);
  }

  /** The splitter reads the first quoted field back and stops after its closing quote. */
  lemma EncodedHead(fields: seq<string>, opts: Options)
    requires |fields| >= 1
    requires opts.delimiter != opts.quoteChar
    ensures LineFields(EncodeLine(fields, opts), opts) == Scan(EncodeTail(fields, opts), opts, false, fields[0])
  {
    var q := opts.quoteChar;
    var line := EncodeLine(fields, opts);
    assert line[1..] == EscapeQuotes(fields[0], q) + [q] + EncodeTail(fields, opts);
    ScanQuotedBody(fields[0], EncodeTail(fields, opts), opts, "");
    assert "" + fields[0] == fields[0];
  }

  /**
   * Round trip: splitting an encoded line gives back the fields, as long as
   * the delimiter differs from the quote character and trimming (when on)
   * has nothing to remove.
   */
  lemma {:induction false} ParseEncodedLine(fields: seq<string>, opts: Options)
    requires |fields| >= 1
    requires opts.delimiter != opts.quoteChar
    requires opts.trimValues ==> forall k :: 0 <= k < |fields| ==> IsTrimmed(fields[k])
    ensures LineFields(EncodeLine(fields, opts), opts) == fields
    decreases |fields|
  {
    EncodedHead(fields, opts);
    assert Finish(fields[0], opts) == fields[0];
    if |fields| > 1 {
      EncodedTail(fields, opts);
      ParseEncodedLine(fields[1..], opts);
      assert [fields[0]] + fields[1..] == fields;
    }
  }

  /** After the first field, the delimiter ends it and the splitter reads the other fields afresh. */
  lemma EncodedTail(fields: seq<string>, opts: Options)
    requires |fields| > 1
    requires opts.delimiter != opts.quoteChar
    ensures Scan(EncodeTail(fields, opts), opts, false, fields[0])
         == [Finish(fields[0], opts)] + LineFields(EncodeLine(fields[1..], opts), opts)
  {
    var tail := EncodeTail(fields, opts);
    assert tail[1..] == EncodeLine(fields[1..], opts);
  }

  /** `EscapeQuotes` adds no line break to a field without one. */
  lemma {:induction false} EscapeKeepsNoLineBreak(field: string, q: char)
    requires NoLineBreak(field) && !IsLineBreak(q)
    ensures NoLineBreak(EscapeQuotes(field, q))
    decreases |field|
  {
    if field != [] {
      EscapeKeepsNoLineBreak(field[1..], q);
    }
  }

  /** Only the delimiter, the quote character and `trimValues` shape the fields of a line. */
  predicate SameDialect(a: Options, b: Options) {
    a.delimiter == b.delimiter && a.quoteChar == b.quoteChar && a.trimValues == b.trimValues
  }

  lemma {:induction false} ScanSameDialect(s: string, a: Options, b: Options, inQuotes: bool, current: string)
    requires SameDialect(a, b)
    ensures Scan(s, a, inQuotes, current) == Scan(s, b, inQuotes, current)
    decreases |s|
  {
    if s == [] {
    } else if s[0] == a.quoteChar {
      if inQuotes && |s| >= 2 && s[1] == a.quoteChar {
        ScanSameDialect(s[2..], a, b, inQuotes, current + [a.quoteChar]);
      } else {
        ScanSameDialect(s[1..], a, b, !inQuotes, current);
      }
    } else if s[0] == a.delimiter && !inQuotes {
      ScanSameDialect(s[1..], a, b, inQuotes, "");
    } else {
      ScanSameDialect(s[1..], a, b, inQuotes, current + [s[0]]);
    }
  }

  lemma LineFieldsSameDialect(line: string, a: Options, b: Options)
    requires SameDialect(a, b)
    ensures LineFields(line, a) == LineFields(line, b)
  {
    ScanSameDialect(line, a, b, false, "");
  }
}
