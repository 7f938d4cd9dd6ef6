/**
 * The string operations that the percent/height CSV reader relies on:
 * JavaScript's `String.prototype.trim`, `split` on one character, and
 * `split(/\r?\n/)` into lines.
 */
module Text {

  /** JavaScript's WhiteSpace and LineTerminator code points, the ones `trim` removes. */
  predicate IsWhitespace(c: char) {
    || c == ' ' || c == '\t' || c == '\n' || c == '\r'
    || c == '\U{B}' || c == '\U{C}' || c == '\U{A0}' || c == '\U{FEFF}'
    || c == '\U{1680}' || ('\U{2000}' <= c <= '\U{200A}')
    || c == '\U{2028}' || c == '\U{2029}' || c == '\U{202F}' || c == '\U{205F}' || c == '\U{3000}'
  }

  /** `s` with its leading whitespace removed: a suffix of `s`, all of whose dropped characters are whitespace. */
  function TrimStart(s: string): (r: string)
    decreases |s|
    ensures |r| <= |s| && r == s[|s| - |r|..]
    ensures forall i :: 0 <= i < |s| - |r| ==> IsWhitespace(s[i])
    ensures r == [] || !IsWhitespace(r[0])
  {
    if s != [] && IsWhitespace(s[0]) then TrimStart(s[1..]) else s
  }

  /** `s` with its trailing whitespace removed: a prefix of `s`, all of whose dropped characters are whitespace. */
  function TrimEnd(s: string): (r: string)
    decreases |s|
    ensures |r| <= |s| && r == s[..|r|]
    ensures forall i :: |r| <= i < |s| ==> IsWhitespace(s[i])
    ensures r == [] || !IsWhitespace(r[|r| - 1])
  {
    if s != [] && IsWhitespace(s[|s| - 1]) then TrimEnd(s[..|s| - 1]) else s
  }

  /**
   * `s.trim()`: the slice of `s` left after removing whitespace at both ends;
   * everything removed is whitespace and neither end of the result is.
   */
  function Trim(s: string): (r: string)
    ensures exists i, j :: 0 <= i <= j <= |s| && r == s[i..j]
              && (forall k :: 0 <= k < i ==> IsWhitespace(s[k]))
              && (forall k :: j <= k < |s| ==> IsWhitespace(s[k]))
    ensures r == [] || (!IsWhitespace(r[0]) && !IsWhitespace(r[|r| - 1]))
  {
    var t := TrimStart(s);
    var r := TrimEnd(t);
    var i := |s| - |t|;
    assert r == s[i..i + |r|];
    r
  }

  /** A string that starts and ends with a non-whitespace character is its own trim. */
  lemma TrimKeeps(s: string)
    requires s != [] && !IsWhitespace(s[0]) && !IsWhitespace(s[|s| - 1])
    ensures Trim(s) == s
  {
  }

  /** `s.split(sep)` for a one-character separator: always at least one piece, none containing `sep`. */
  function Split(s: string, sep: char): (parts: seq<string>)
    decreases |s|
    ensures |parts| >= 1
    ensures forall k :: 0 <= k < |parts| ==> sep !in parts[k]
  {
    if s == [] then [[]]
    else if s[0] == sep then [[]] + Split(s[1..], sep)
    else
      var rest := Split(s[1..], sep);
      [[s[0]] + rest[0]] + rest[1..]
  }

  /** `parts.join(sep)`. */
  function Join(parts: seq<string>, sep: char): string
    decreases |parts|
  {
    if parts == [] then []
    else if |parts| == 1 then parts[0]
    else parts[0] + [sep] + Join(parts[1..], sep)
  }

  /** Splitting loses nothing: joining the pieces back gives the original string. */
  lemma {:induction false} JoinOfSplit(s: string, sep: char)
    decreases |s|
    ensures Join(Split(s, sep), sep) == s
  {
    if s == [] {
    } else if s[0] == sep {
      var rest := Split(s[1..], sep);
      JoinOfSplit(s[1..], sep);
      assert ([[]] + rest)[1..] == rest;
    } else {
      var rest := Split(s[1..], sep);
      JoinOfSplit(s[1..], sep);
      var parts := [[s[0]] + rest[0]] + rest[1..];
      assert parts[1..] == rest[1..];
      if |rest| == 1 {
      } else {
        assert Join(rest, sep) == rest[0] + [sep] + Join(rest[1..], sep);
        assert s == [s[0]] + s[1..];
      }
    }
  }

  /** A piece free of the separator, followed by the separator, splits off as one piece. */
  lemma {:induction false} SplitAfterPiece(a: string, sep: char, t: string)
    requires sep !in a
    decreases |a|
    ensures Split(a + [sep] + t, sep) == [a] + Split(t, sep)
  {
    if a == [] {
      assert a + [sep] + t == [sep] + t;
      assert ([sep] + t)[1..] == t;
    } else {
      var s := a + [sep] + t;
      assert s[0] == a[0] && s[1..] == a[1..] + [sep] + t;
      SplitAfterPiece(a[1..], sep, t);
      assert [a[0]] + a[1..] == a;
    }
  }

  /** A string free of the separator splits into itself alone. */
  lemma {:induction false} SplitWithoutSeparator(a: string, sep: char)
    requires sep !in a
    decreases |a|
    ensures Split(a, sep) == [a]
  {
    if a != [] {
      SplitWithoutSeparator(a[1..], sep);
      assert [a[0]] + a[1..] == a;
    }
  }

  /** Joining pieces free of the separator and splitting again gives the pieces back. */
  lemma {:induction false} SplitOfJoin(parts: seq<string>, sep: char)
    requires |parts| >= 1
    requires forall k :: 0 <= k < |parts| ==> sep !in parts[k]
    decreases |parts|
    ensures Split(Join(parts, sep), sep) == parts
  {
    if |parts| == 1 {
      SplitWithoutSeparator(parts[0], sep);
    } else {
      SplitOfJoin(parts[1..], sep);
      SplitAfterPiece(parts[0], sep, Join(parts[1..], sep));
      assert [parts[0]] + parts[1..] == parts;
    }
  }

  /** The piece without the `\r` that the pattern `\r?\n` consumed before the line break. */
  function DropCarriageReturn(piece: string): string {
    if piece != [] && piece[|piece| - 1] == '\r' then piece[..|piece| - 1] else piece
  }

  /**
   * `s.split(/\r?\n/)`: the pieces between line feeds, each one that is
   * followed by a line feed losing one trailing carriage return.
   */
  function SplitLines(s: string): (lines: seq<string>)
    ensures |lines| == |Split(s, '\n')| >= 1
    ensures forall k :: 0 <= k < |lines| ==> '\n' !in lines[k]
  {
    var pieces := Split(s, '\n');
    seq(|pieces|, k requires 0 <= k < |pieces| =>
      if k < |pieces| - 1 then DropCarriageReturn(pieces[k]) else pieces[k])
  }

  /** `lines.join(lineBreak)` for a line break of one or more characters. */
  function JoinLines(lines: seq<string>, lineBreak: string): string
    decreases |lines|
  {
    if lines == [] then []
    else if |lines| == 1 then lines[0]
    else lines[0] + lineBreak + JoinLines(lines[1..], lineBreak)
  }

  /** Joined lines end with the last line's last character. */
  lemma {:induction false} JoinLinesLast(lines: seq<string>, lineBreak: string)
    requires |lines| >= 1 && lines[|lines| - 1] != []
    decreases |lines|
    ensures JoinLines(lines, lineBreak) != []
    ensures JoinLines(lines, lineBreak)[|JoinLines(lines, lineBreak)| - 1] == lines[|lines| - 1][|lines[|lines| - 1]| - 1]
  {
    if |lines| > 1 {
      JoinLinesLast(lines[1..], lineBreak);
    }
  }

  /** Each line but the last with a carriage return appended: the pieces of a CRLF text between its line feeds. */
  function WithCarriageReturns(lines: seq<string>): (pieces: seq<string>)
    ensures |pieces| == |lines|
  {
    seq(|lines|, k requires 0 <= k < |lines| => if k < |lines| - 1 then lines[k] + "\r" else lines[k])
  }

  lemma {:induction false} JoinLinesLf(lines: seq<string>)
    decreases |lines|
    ensures JoinLines(lines, "\n") == Join(lines, '\n')
  {
    if |lines| > 1 {
      JoinLinesLf(lines[1..]);
    }
  }

  lemma {:induction false} JoinLinesCrlf(lines: seq<string>)
    decreases |lines|
    ensures JoinLines(lines, "\r\n") == Join(WithCarriageReturns(lines), '\n')
  {
    if |lines| > 1 {
      JoinLinesCrlf(lines[1..]);
      assert WithCarriageReturns(lines)[1..] == WithCarriageReturns(lines[1..]);
      assert lines[0] + "\r\n" == lines[0] + "\r" + "\n";
    }
  }

  /**
   * Lines free of line feeds, joined by CRLF, split back into the same lines;
   * joined by LF, they do too as long as no line but the last ends in a
   * carriage return (otherwise `\r?\n` would consume it).
   */
  lemma SplitLinesOfJoin(lines: seq<string>, crlf: bool)
    requires |lines| >= 1
    requires forall k :: 0 <= k < |lines| ==> '\n' !in lines[k]
    requires !crlf ==> forall k :: 0 <= k < |lines| - 1 ==> lines[k] == [] || lines[k][|lines[k]| - 1] != '\r'
    ensures SplitLines(JoinLines(lines, if crlf then "\r\n" else "\n")) == lines
  {
    if crlf {
      var pieces := WithCarriageReturns(lines);
      JoinLinesCrlf(lines);
      forall k | 0 <= k < |pieces| ensures '\n' !in pieces[k] {
        assert k < |lines| - 1 ==> pieces[k] == lines[k] + "\r";
      }
      SplitOfJoin(pieces, '\n');
      forall k | 0 <= k < |lines| - 1 ensures DropCarriageReturn(pieces[k]) == lines[k] {
        assert pieces[k] == lines[k] + "\r";
      }
    } else {
      JoinLinesLf(lines);
      SplitOfJoin(lines, '\n');
    }
  }

  /** `lines.filter(Boolean)`: the non-empty lines, in their order. */
  function DropEmpty(lines: seq<string>): (r: seq<string>)
    ensures |r| <= |lines|
    ensures forall k :: 0 <= k < |r| ==> r[k] != []
    ensures forall l :: l in r <==> l in lines && l != []
    ensures (forall k :: 0 <= k < |lines| ==> lines[k] != []) ==> r == lines
  {
    if lines == [] then []
    else if lines[0] == [] then DropEmpty(lines[1..])
    else [lines[0]] + DropEmpty(lines[1..])
  }

  /** Filtering a single line keeps it exactly when it is not empty. */
  lemma DropEmptySingle(line: string)
    ensures DropEmpty([line]) == if line == [] then [] else [line]
  {
  }

  /** Filtering works line by line: the filter of a concatenation is the concatenation of the filters, in order. */
  lemma {:induction false} DropEmptyAppend(a: seq<string>, b: seq<string>)
    decreases |a|
    ensures DropEmpty(a + b) == DropEmpty(a) + DropEmpty(b)
  {
    if a != [] {
      assert (a + b)[0] == a[0];
      assert (a + b)[1..] == a[1..] + b;
      DropEmptyAppend(a[1..], b);
    } else {
      assert a + b == b;
    }
  }
}
