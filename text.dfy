// String utilities shared by the SNG parser and serializer: the whitespace
// class used by `trim()` and by `\s`, trimming, prefix tests, joining, and
// the two splits the editor performs (lines on `\r?\n`, fields on one char).

module Text {

  /** The whitespace class shared by `String.prototype.trim` and `\s`:
      the ASCII blanks plus no-break space and the byte-order mark. */
  predicate IsSpace(c: char) {
    c == ' ' || c == '\t' || c == '\n' || c == '\r' || c == '\U{B}' || c == '\U{C}'
    || c == '\U{A0}' || c == '\U{FEFF}'
  }

  predicate IsDigit(c: char) {
    '0' <= c <= '9'
  }

  /** `s.startsWith(p)` */
  predicate StartsWith(s: string, p: string) {
    |p| <= |s| && s[..|p|] == p
  }

  /** No line break inside, and no carriage return at the end: a line that
      survives being joined with `\n` and split again on `\r?\n`. */
  predicate SplitSafe(line: string) {
    '\n' !in line && (line == [] || line[|line| - 1] != '\r')
  }

  /** Leading whitespace removed. */
  function TrimStart(s: string): string {
    if s != [] && IsSpace(s[0]) then TrimStart(s[1..]) else s
  }

  /** Trailing whitespace removed. */
  function TrimEnd(s: string): string {
    if s != [] && IsSpace(s[|s| - 1]) then TrimEnd(s[..|s| - 1]) else s
  }

  /** `s.trim()`: whitespace removed at both ends. */
  function Trim(s: string): string {
    TrimEnd(TrimStart(s))
  }

  /** `TrimStart` keeps a suffix that does not start with whitespace and
      drops whitespace only. */
  lemma {:induction false} TrimStartShape(s: string)
    ensures var r := TrimStart(s);
      && |r| <= |s| && r == s[|s| - |r|..] && (r == [] || !IsSpace(r[0]))
      && (forall k :: 0 <= k < |s| - |r| ==> IsSpace(s[k]))
    decreases |s|
  {
    if s != [] && IsSpace(s[0]) {
      TrimStartShape(s[1..]);
      assert forall k :: 1 <= k < |s| ==> s[k] == s[1..][k - 1];
    }
  }

  /** `TrimEnd` keeps a prefix that does not end with whitespace and drops
      whitespace only. */
  lemma {:induction false} TrimEndShape(s: string)
    ensures var r := TrimEnd(s);
      && |r| <= |s| && r == s[..|r|] && (r == [] || !IsSpace(r[|r| - 1]))
      && (forall k :: |r| <= k < |s| ==> IsSpace(s[k]))
    decreases |s|
  {
    if s != [] && IsSpace(s[|s| - 1]) {
      TrimEndShape(s[..|s| - 1]);
      assert forall k :: 0 <= k < |s| - 1 ==> s[k] == s[..|s| - 1][k];
    }
  }

  /** A trimmed string is no longer than the original and neither starts
      nor ends with whitespace. */
  lemma TrimShape(s: string)
    ensures |Trim(s)| <= |s|
    ensures Trim(s) == [] || (!IsSpace(Trim(s)[0]) && !IsSpace(Trim(s)[|Trim(s)| - 1]))
  {
    var t := TrimStart(s);
    TrimStartShape(s);
    TrimEndShape(t);
    var u := Trim(s);
    if u != [] {
      assert u == t[..|u|];
      assert u[0] == t[0];
    }
  }

  /** Trimming empties exactly the blank strings. */
  lemma TrimBlank(s: string)
    ensures Trim(s) == [] <==> forall k :: 0 <= k < |s| ==> IsSpace(s[k])
  {
    var t := TrimStart(s);
    var a := |s| - |t|;
    TrimStartShape(s);
    TrimEndShape(t);
    assert forall k :: a <= k < |s| ==> s[k] == t[k - a];
  }

  /** Trimming only removes characters. */
  lemma TrimKeepsAbsent(s: string, c: char)
    requires c !in s
    ensures c !in Trim(s)
  {
    var t := TrimStart(s);
    TrimStartShape(s);
    TrimEndShape(t);
    assert c !in t;
  }

  /** Trimming is the identity on a string that neither starts nor ends
      with whitespace; in particular `Trim` is idempotent. */
  lemma TrimmedIsFixed(s: string)
    requires s == [] || (!IsSpace(s[0]) && !IsSpace(s[|s| - 1]))
    ensures Trim(s) == s
  {
  }

  lemma TrimIdempotent(s: string)
    ensures Trim(Trim(s)) == Trim(s)
  {
    TrimShape(s);
    TrimmedIsFixed(Trim(s));
  }

  /** A string that starts with a non-blank character keeps it in front
      after trimming. */
  lemma {:induction false} TrimKeepsFirst(s: string)
    requires s != [] && !IsSpace(s[0])
    ensures Trim(s) != [] && Trim(s)[0] == s[0]
  {
    assert TrimStart(s) == s;
    TrimEndShape(s);
  }

  /** A string that is not blank starts either with whitespace or with the
      first character of its trimmed form. */
  lemma TrimFirst(s: string)
    requires Trim(s) != []
    ensures s != [] && (IsSpace(s[0]) || s[0] == Trim(s)[0])
  {
    if s != [] && !IsSpace(s[0]) {
      TrimKeepsFirst(s);
    }
  }

  /** Trimming a space-prefixed trimmed string gives the string back (the
      `", "` separator of a joined label list). */
  lemma TrimLeadingBlank(t: string)
    requires t != [] && !IsSpace(t[0]) && !IsSpace(t[|t| - 1])
    ensures Trim(" " + t) == t
  {
    var s := " " + t;
    assert s[1..] == t;
    assert TrimStart(s) == TrimStart(t);
    assert TrimStart(t) == t;
    assert TrimEnd(t) == t;
  }

  /** `parts.join(sep)` */
  function Join(parts: seq<string>, sep: string): (r: string)
    ensures |parts| == 1 ==> r == parts[0]
    decreases |parts|
  {
    if |parts| == 0 then ""
    else if |parts| == 1 then parts[0]
    else parts[0] + sep + Join(parts[1..], sep)
  }

  /** `s.split(sep)` for a one-character separator: the maximal pieces
      between separators, none of which contains the separator. */
  function SplitOn(s: string, sep: char): (r: seq<string>)
    ensures |r| >= 1
    ensures forall k :: 0 <= k < |r| ==> sep !in r[k]
    decreases |s|
  {
    if s == [] then [""]
    else if s[0] == sep then [""] + SplitOn(s[1..], sep)
    else
      var rest := SplitOn(s[1..], sep);
      [[s[0]] + rest[0]] + rest[1..]
  }

  /** Index of the first occurrence of `c` in `s`, or `|s|` when absent. */
  function FirstIndex(s: string, c: char): (p: nat)
    ensures p <= |s| && c !in s[..p]
    ensures p < |s| ==> s[p] == c
    ensures p == |s| <==> c !in s
  {
    if s == [] then 0
    else if s[0] == c then 0
    else
      var q := FirstIndex(s[1..], c);
      assert s[..q + 1] == [s[0]] + s[1..][..q];
      q + 1
  }

  /** Splitting and joining with the same one-character separator are
      inverse: `s.split(c).join(c) == s`. */
  lemma {:induction false} JoinSplitOn(s: string, sep: char)
    ensures Join(SplitOn(s, sep), [sep]) == s
    decreases |s|
  {
    if s == [] {
    } else if s[0] == sep {
      JoinSplitOn(s[1..], sep);
      var rest := SplitOn(s[1..], sep);
      assert SplitOn(s, sep) == [""] + rest;
      assert ([""] + rest)[1..] == rest;
      assert s == "" + [sep] + s[1..];
    } else {
      JoinSplitOn(s[1..], sep);
      var rest := SplitOn(s[1..], sep);
      var r := SplitOn(s, sep);
      assert r == [[s[0]] + rest[0]] + rest[1..];
      if |rest| == 1 {
        assert s == [s[0]] + s[1..];
      } else {
        assert r[1..] == rest[1..];
        assert Join(rest, [sep]) == rest[0] + [sep] + Join(rest[1..], [sep]);
        assert s == [s[0]] + s[1..];
      }
    }
  }

  /** The first piece of a split is everything before the first
      separator; the others are the split of what follows it. */
  lemma {:induction false} SplitOnFirst(s: string, sep: char)
    requires sep in s
    ensures var p := FirstIndex(s, sep);
      SplitOn(s, sep) == [s[..p]] + SplitOn(s[p + 1..], sep)
    decreases |s|
  {
    if s[0] != sep {
      assert sep in s[1..] by {
        var k :| 0 <= k < |s| && s[k] == sep;
        assert s[1..][k - 1] == sep;
      }
      SplitOnFirst(s[1..], sep);
      var q := FirstIndex(s[1..], sep);
      assert s[1..][q + 1..] == s[q + 2..];
      assert [s[0]] + s[1..][..q] == s[..q + 1];
    }
  }

  /** Without a separator there is a single piece, the whole string. */
  lemma {:induction false} SplitOnAbsent(s: string, sep: char)
    requires sep !in s
    ensures SplitOn(s, sep) == [s]
    decreases |s|
  {
    if s != [] {
      SplitOnAbsent(s[1..], sep);
      assert [s[0]] + s[1..] == s;
    }
  }

  /** Joining pieces that contain no separator and splitting again gives
      the pieces back. */
  lemma {:induction false} SplitOnJoin(parts: seq<string>, sep: char)
    requires |parts| >= 1
    requires forall k :: 0 <= k < |parts| ==> sep !in parts[k]
    ensures SplitOn(Join(parts, [sep]), sep) == parts
    decreases |parts|
  {
    if |parts| == 1 {
      SplitOnAbsent(parts[0], sep);
    } else {
      var s := Join(parts, [sep]);
      var tail := Join(parts[1..], [sep]);
      assert s == parts[0] + [sep] + tail;
      assert sep in s by { assert s[|parts[0]|] == sep; }
      assert FirstIndex(s, sep) == |parts[0]| by {
        assert s[..|parts[0]|] == parts[0];
      }
      SplitOnFirst(s, sep);
      assert s[..|parts[0]|] == parts[0];
      assert s[|parts[0]| + 1..] == tail;
      SplitOnJoin(parts[1..], sep);
      assert [parts[0]] + parts[1..] == parts;
    }
  }

  /** `text.split(/\r?\n/)`: lines separated by LF or CR LF. */
  function SplitLines(s: string): (r: seq<string>)
    ensures |r| >= 1
    ensures forall k :: 0 <= k < |r| ==> '\n' !in r[k]
    decreases |s|
  {
    if s == [] then [""]
    else if s[0] == '\n' then [""] + SplitLines(s[1..])
    else if s[0] == '\r' && |s| > 1 && s[1] == '\n' then [""] + SplitLines(s[2..])
    else
      var rest := SplitLines(s[1..]);
      [[s[0]] + rest[0]] + rest[1..]
  }

  /** A line without LF and without a final CR, followed by LF, splits off
      as one line. */
  lemma {:induction false} SplitLinesCons(a: string, b: string)
    requires SplitSafe(a)
    ensures SplitLines(a + "\n" + b) == [a] + SplitLines(b)
    decreases |a|
  {
    var s := a + "\n" + b;
    if a == [] {
      assert s == "\n" + b;
      assert s[1..] == b;
    } else {
      assert s[0] == a[0] && a[0] != '\n';
      if |a| == 1 {
        assert a[0] != '\r';
      } else {
        assert s[1] == a[1] && a[1] != '\n';
      }
      var a' := a[1..];
      assert SplitSafe(a') by {
        if a' != [] { assert a'[|a'| - 1] == a[|a| - 1]; }
        assert forall c :: c in a' ==> c in a;
      }
      assert s[1..] == a' + "\n" + b;
      SplitLinesCons(a', b);
      assert [a[0]] + a' == a;
    }
  }

  /** A text without LF is a single line. */
  lemma {:induction false} SplitLinesSingle(a: string)
    requires '\n' !in a
    ensures SplitLines(a) == [a]
    decreases |a|
  {
    if a != [] {
      assert a[1..] == a[1..] && '\n' !in a[1..];
      SplitLinesSingle(a[1..]);
      assert [a[0]] + a[1..] == a;
    }
  }

  /** Joining safe lines with `\n` and splitting on `\r?\n` gives the lines
      back: the serializer's output is read back line for line. */
  lemma {:induction false} SplitLinesJoin(lines: seq<string>)
    requires |lines| >= 1
    requires forall k :: 0 <= k < |lines| ==> SplitSafe(lines[k])
    ensures SplitLines(Join(lines, "\n")) == lines
    decreases |lines|
  {
    if |lines| == 1 {
      SplitLinesSingle(lines[0]);
    } else {
      SplitLinesJoin(lines[1..]);
      SplitLinesCons(lines[0], Join(lines[1..], "\n"));
      assert [lines[0]] + lines[1..] == lines;
    }
  }
}
