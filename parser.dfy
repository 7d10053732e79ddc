// The SNG line parser (`parseSNG`, script.js:33-92 and script-2.js:19-78)
// as a specification: one step of the line loop (`Step`), the whole loop
// (`Scan`), the format detector, and what the loop guarantees about the
// metadata and the slides it produces.  The loop itself, over mutable
// state, is `Editor.Session.Load`.

module Parser {
  import opened Text
  import opened Titles
  import opened Song

  /** A header line `#key=value`. */
  predicate IsMetaLine(line: string) {
    StartsWith(line, "#")
  }

  /** A slide separator: any line beginning with `---`. */
  predicate IsSeparator(line: string) {
    StartsWith(line, "---")
  }

  /** The detector: the text is in titled format when some line, trimmed,
      is a title. */
  predicate IsTitledFormat(lines: seq<string>) {
    exists k | 0 <= k < |lines| :: IsTitle(Trim(lines[k]))
  }

  /** `line.slice(1).split('=')`: the key is the first piece, the value the
      rest joined back with `=`, both trimmed. */
  function ParseMetaLine(line: string): (kv: (string, string))
    requires IsMetaLine(line)
  {
    var pieces := SplitOn(line[1..], '=');
    (Trim(pieces[0]), Trim(Join(pieces[1..], "=")))
  }

  /** A metadata line splits at its first `=`: the key is what precedes it,
      the value all that follows it (later `=` included), both trimmed; a
      line without `=` gives an empty value. */
  lemma MetaLineSplitsAtFirstEquals(line: string)
    requires IsMetaLine(line)
    ensures var s := line[1..]; var p := FirstIndex(s, '=');
      && ParseMetaLine(line).0 == Trim(s[..p])
      && ParseMetaLine(line).1 == (if p < |s| then Trim(s[p + 1..]) else "")
  {
    var s := line[1..];
    var pieces := SplitOn(s, '=');
    var p := FirstIndex(s, '=');
    if p < |s| {
      SplitOnFirst(s, '=');
      assert pieces[1..] == SplitOn(s[p + 1..], '=');
      JoinSplitOn(s[p + 1..], '=');
    } else {
      SplitOnAbsent(s, '=');
      assert s[..p] == s;
    }
  }

  /** The parser's state between two lines: the metadata so far, the slides
      already pushed, and the slide being filled (`currentSlide`). */
  datatype Cursor = Cursor(meta: map<string, string>, done: seq<Slide>, open: Option<Slide>)

  const Start := Cursor(map[], [], None)

  /** The slides pushed so far followed by the open slide, if any: what the
      parser has produced once it pushes the open slide. */
  function Close(c: Cursor): (r: seq<Slide>)
    ensures |r| == |c.done| + (if c.open.Some? then 1 else 0)
    ensures c.done <= r
  {
    c.done + (if c.open.Some? then [c.open.value] else [])
  }

  /** `lines[i + 1] || ''` */
  function Lookahead(rest: seq<string>): string {
    if |rest| > 1 then rest[1] else ""
  }

  /** The open slide after a content line: opened if there is none, titled
      by the trimmed line in untitled format when it is the slide's first
      line and not blank, and the line appended verbatim. */
  function AddContent(open: Option<Slide>, line: string, titled: bool): (r: Slide)
    ensures r.content == (if open.Some? then open.value.content else []) + [line]
    ensures titled ==> r.title == (if open.Some? then open.value.title else "")
  {
    var cur := if open.Some? then open.value else Slide("", []);
    var cur := if !titled && |cur.content| == 0 && Trim(line) != "" then cur.(title := Trim(line)) else cur;
    cur.(content := cur.content + [line])
  }

  /** One turn of the line loop on the remaining lines `rest`: how many
      lines it consumes and the cursor afterwards. */
  function Step(rest: seq<string>, titled: bool, c: Cursor): (r: (nat, Cursor))
    requires rest != []
    ensures 1 <= r.0 <= |rest|
  {
    var line := rest[0];
    if IsMetaLine(line) then
      var kv := ParseMetaLine(line);
      (1, c.(meta := c.meta[kv.0 := kv.1]))
    else if IsSeparator(line) then
      if titled then
        var next := Lookahead(rest);
        if IsTitle(Trim(next)) then
          (2, Cursor(c.meta, Close(c), Some(Slide(Trim(next), []))))
        else if c.open.Some? then
          (1, c.(open := Some(c.open.value.(content := c.open.value.content + ["---"]))))
        else
          (1, c)
      else
        (1, Cursor(c.meta, Close(c), Some(Slide("", []))))
    else
      (1, c.(open := Some(AddContent(c.open, line, titled))))
  }

  /** The line loop from the cursor `c` over the remaining lines. */
  function Scan(rest: seq<string>, titled: bool, c: Cursor): Cursor
    decreases |rest|
  {
    if rest == [] then c
    else
      var r := Step(rest, titled, c);
      Scan(rest[r.0..], titled, r.1)
  }

  /** `parseSNG` on already split lines and a known format. */
  function ParseLines(lines: seq<string>, titled: bool): Document {
    var c := Scan(lines, titled, Start);
    Document(c.meta, Close(c))
  }

  /** `parseSNG` on a text: split into lines, detect the format, parse. */
  function ParseText(text: string): Document {
    var lines := SplitLines(text);
    ParseLines(lines, IsTitledFormat(lines))
  }

  // ---------------------------------------------------------------------
  // Metadata

  /** The `(key, value)` pairs of the `#` lines, in order. */
  function MetaEntries(lines: seq<string>): seq<(string, string)>
    decreases |lines|
  {
    if lines == [] then []
    else (if IsMetaLine(lines[0]) then [ParseMetaLine(lines[0])] else []) + MetaEntries(lines[1..])
  }

  /** The map after writing the entries in order, later ones winning. */
  function Apply(m: map<string, string>, entries: seq<(string, string)>): map<string, string>
    decreases |entries|
  {
    if entries == [] then m else Apply(m[entries[0].0 := entries[0].1], entries[1..])
  }

  /** A line whose trimmed text is a title is never a metadata line. */
  lemma TitleLineIsNotMeta(line: string)
    requires IsTitle(Trim(line))
    ensures !IsMetaLine(line) && !IsSeparator(line)
  {
    TitleStartsWithLetter(Trim(line));
    TrimFirst(line);
    LeadingCharRulesOut(line);
  }

  /** A line starting with neither `#` nor `-` is content. */
  lemma LeadingCharRulesOut(line: string)
    requires line != [] && line[0] != '#' && line[0] != '-'
    ensures !IsMetaLine(line) && !IsSeparator(line)
  {
    assert line[..1][0] == line[0];
    assert |line| >= 3 ==> line[..3][0] == line[0];
  }

  /** A separator followed by a title line: the title line exists and is
      content, neither a header line nor a separator. */
  lemma TitleAhead(rest: seq<string>)
    requires IsTitle(Trim(Lookahead(rest)))
    ensures |rest| > 1 && Lookahead(rest) == rest[1]
    ensures !IsMetaLine(rest[1]) && !IsSeparator(rest[1])
  {
    TitleStartsWithLetter(Trim(Lookahead(rest)));
    TrimFirst(Lookahead(rest));
    TitleLineIsNotMeta(rest[1]);
  }

  /** A step consumes two lines exactly when, in titled format, a separator
      is followed by a title line. */
  lemma StepTakesTwo(rest: seq<string>, titled: bool, c: Cursor)
    requires rest != []
    ensures Step(rest, titled, c).0 == 2
      <==> titled && !IsMetaLine(rest[0]) && IsSeparator(rest[0]) && IsTitle(Trim(Lookahead(rest)))
  {
  }

  /** A step that consumes two lines consumes no `#` line. */
  lemma StepSkipsNoMeta(rest: seq<string>, titled: bool, c: Cursor)
    requires rest != []
    ensures Step(rest, titled, c).0 == 2 ==> !IsMetaLine(rest[0]) && !IsMetaLine(rest[1])
  {
    StepTakesTwo(rest, titled, c);
    if Step(rest, titled, c).0 == 2 {
      TitleAhead(rest);
    }
  }

  /** One step changes the metadata only on a `#` line. */
  lemma StepMeta(rest: seq<string>, titled: bool, c: Cursor)
    requires rest != []
    ensures Step(rest, titled, c).1.meta == (if IsMetaLine(rest[0]) then c.meta[ParseMetaLine(rest[0]).0 := ParseMetaLine(rest[0]).1] else c.meta)
  {
  }

  /** The parser's metadata is exactly the `#` lines applied in order,
      whatever the format: a line consumed as a title is never a `#` line. */
  lemma {:induction false} ScanMeta(rest: seq<string>, titled: bool, c: Cursor)
    ensures Scan(rest, titled, c).meta == Apply(c.meta, MetaEntries(rest))
    decreases |rest|
  {
    if rest != [] {
      var r := Step(rest, titled, c); var n, c' := r.0, r.1;
      assert Scan(rest, titled, c) == Scan(rest[n..], titled, c');
      StepMeta(rest, titled, c);
      StepSkipsNoMeta(rest, titled, c);
      ScanMeta(rest[n..], titled, c');
      var es := MetaEntries(rest[1..]);
      if IsMetaLine(rest[0]) {
        assert MetaEntries(rest) == [ParseMetaLine(rest[0])] + es;
        assert ([ParseMetaLine(rest[0])] + es)[1..] == es;
      } else {
        assert MetaEntries(rest) == es;
        if n == 2 {
          assert rest[1..][1..] == rest[2..];
          assert es == MetaEntries(rest[2..]);
        }
      }
    }
  }

  /** The value of a key is the one from the last entry that writes it. */
  lemma {:induction false} ApplyLastWriter(m: map<string, string>, es: seq<(string, string)>, j: nat)
    requires j < |es|
    requires forall k :: j < k < |es| ==> es[k].0 != es[j].0
    ensures es[j].0 in Apply(m, es) && Apply(m, es)[es[j].0] == es[j].1
    decreases |es|
  {
    if j == 0 {
      ApplyUnwritten(m[es[0].0 := es[0].1], es[1..], es[0].0);
    } else {
      ApplyLastWriter(m[es[0].0 := es[0].1], es[1..], j - 1);
    }
  }

  /** A key no entry writes keeps its value (or stays absent). */
  lemma {:induction false} ApplyUnwritten(m: map<string, string>, es: seq<(string, string)>, key: string)
    requires forall k :: 0 <= k < |es| ==> es[k].0 != key
    ensures key in Apply(m, es) <==> key in m
    ensures key in m ==> Apply(m, es)[key] == m[key]
    decreases |es|
  {
    if es != [] {
      ApplyUnwritten(m[es[0].0 := es[0].1], es[1..], key);
    }
  }

  /** The index of the last entry writing `key`. */
  lemma {:induction false} LastWriter(es: seq<(string, string)>, key: string) returns (j: nat)
    requires exists k :: 0 <= k < |es| && es[k].0 == key
    ensures j < |es| && es[j].0 == key
    ensures forall k :: j < k < |es| ==> es[k].0 != key
    decreases |es|
  {
    var n := |es| - 1;
    if es[n].0 == key {
      j := n;
    } else {
      j := LastWriter(es[..n], key);
      assert es[..n][j] == es[j];
      forall k | j < k < |es| ensures es[k].0 != key {
        if k < n {
          assert es[..n][k] == es[k];
        }
      }
    }
  }

  /** Metadata of a parsed text: a key is present exactly when some `#`
      line writes it, and then holds the value of the last such line. */
  lemma ParsedMeta(lines: seq<string>, titled: bool, key: string)
    ensures var es := MetaEntries(lines);
      && (key in ParseLines(lines, titled).meta <==> exists k :: 0 <= k < |es| && es[k].0 == key)
      && (forall j :: 0 <= j < |es| && es[j].0 == key && (forall k :: j < k < |es| ==> es[k].0 != key)
            ==> ParseLines(lines, titled).meta[key] == es[j].1)
  {
    var es := MetaEntries(lines);
    ScanMeta(lines, titled, Start);
    if exists k :: 0 <= k < |es| && es[k].0 == key {
      var j := LastWriter(es, key);
      ApplyLastWriter(map[], es, j);
    } else {
      ApplyUnwritten(map[], es, key);
    }
    forall j | 0 <= j < |es| && es[j].0 == key && (forall k :: j < k < |es| ==> es[k].0 != key)
      ensures ParseLines(lines, titled).meta[key] == es[j].1
    {
      ApplyLastWriter(map[], es, j);
    }
  }

  // ---------------------------------------------------------------------
  // Slides in both formats

  /** No slide holds a metadata line. */
  predicate NoMetaContent(slides: seq<Slide>) {
    forall k, l :: 0 <= k < |slides| && 0 <= l < |slides[k].content| ==> !IsMetaLine(slides[k].content[l])
  }

  /** Header lines never reach a slide, in either format. */
  lemma {:induction false} ScanNoMetaContent(rest: seq<string>, titled: bool, c: Cursor)
    requires NoMetaContent(Close(c))
    ensures NoMetaContent(Close(Scan(rest, titled, c)))
    decreases |rest|
  {
    if rest != [] {
      var r := Step(rest, titled, c);
      assert Scan(rest, titled, c) == Scan(rest[r.0..], titled, r.1);
      StepNoMetaContent(rest, titled, c);
      ScanNoMetaContent(rest[r.0..], titled, r.1);
    }
  }

  lemma StepNoMetaContent(rest: seq<string>, titled: bool, c: Cursor)
    requires rest != []
    requires NoMetaContent(Close(c))
    ensures NoMetaContent(Close(Step(rest, titled, c).1))
  {
    var line := rest[0];
    var c' := Step(rest, titled, c).1;
    if IsMetaLine(line) {
      assert Close(c') == Close(c);
    } else if IsSeparator(line) {
      SeparatorNoMetaContent(rest, titled, c);
    } else {
      assert c' == c.(open := Some(AddContent(c.open, line, titled)));
      ContentNoMetaContent(c, line, titled);
    }
  }

  lemma SeparatorNoMetaContent(rest: seq<string>, titled: bool, c: Cursor)
    requires rest != [] && !IsMetaLine(rest[0]) && IsSeparator(rest[0])
    requires NoMetaContent(Close(c))
    ensures NoMetaContent(Close(Step(rest, titled, c).1))
  {
    var c' := Step(rest, titled, c).1;
    OpenNoMetaContent(c);
    if titled && IsTitle(Trim(Lookahead(rest))) {
      assert Close(c') == Close(c) + [Slide(Trim(Lookahead(rest)), [])];
      NoMetaContentAppend(Close(c), Slide(Trim(Lookahead(rest)), []));
    } else if titled && c.open.Some? {
      var s := c.open.value.(content := c.open.value.content + ["---"]);
      assert Close(c') == c.done + [s];
      assert !IsMetaLine("---");
      forall l | 0 <= l < |s.content| ensures !IsMetaLine(s.content[l]) {
        if l < |s.content| - 1 {
          assert s.content[l] == c.open.value.content[l];
        }
      }
      NoMetaContentAppend(c.done, s);
    } else if titled {
      assert c' == c;
    } else {
      assert Close(c') == Close(c) + [Slide("", [])];
      NoMetaContentAppend(Close(c), Slide("", []));
    }
  }

  /** A content line that is no header line keeps the slides free of
      header lines. */
  lemma ContentNoMetaContent(c: Cursor, line: string, titled: bool)
    requires !IsMetaLine(line)
    requires NoMetaContent(Close(c))
    ensures NoMetaContent(Close(c.(open := Some(AddContent(c.open, line, titled)))))
  {
    var s := AddContent(c.open, line, titled);
    assert Close(c.(open := Some(s))) == c.done + [s];
    OpenNoMetaContent(c);
    forall l | 0 <= l < |s.content| ensures !IsMetaLine(s.content[l]) {
      if l < |s.content| - 1 {
        assert c.open.Some? && s.content[l] == c.open.value.content[l];
      }
    }
    NoMetaContentAppend(c.done, s);
  }

  /** The pushed slides and the open slide of a cursor without header
      lines hold none either. */
  lemma OpenNoMetaContent(c: Cursor)
    requires NoMetaContent(Close(c))
    ensures NoMetaContent(c.done)
    ensures c.open.Some? ==> forall l :: 0 <= l < |c.open.value.content| ==> !IsMetaLine(c.open.value.content[l])
  {
    forall k, l | 0 <= k < |c.done| && 0 <= l < |c.done[k].content| ensures !IsMetaLine(c.done[k].content[l]) {
      assert Close(c)[k] == c.done[k];
    }
    if c.open.Some? {
      assert Close(c)[|c.done|] == c.open.value;
    }
  }

  lemma NoMetaContentAppend(done: seq<Slide>, s: Slide)
    requires NoMetaContent(done)
    requires forall l :: 0 <= l < |s.content| ==> !IsMetaLine(s.content[l])
    ensures NoMetaContent(done + [s])
  {
    var all := done + [s];
    forall k, l | 0 <= k < |all| && 0 <= l < |all[k].content| ensures !IsMetaLine(all[k].content[l]) {
      if k < |done| {
        assert all[k] == done[k];
      }
    }
  }

  lemma ParsedNoMetaContent(lines: seq<string>, titled: bool)
    ensures NoMetaContent(ParseLines(lines, titled).slides)
  {
    ScanNoMetaContent(lines, titled, Start);
  }

  /** Slides already pushed are never touched again: storage order is the
      order in which slides are opened. */
  lemma {:induction false} ScanKeepsPushed(rest: seq<string>, titled: bool, c: Cursor)
    ensures c.done <= Scan(rest, titled, c).done
    ensures c.open.Some? ==> |c.done| < |Close(Scan(rest, titled, c))|
    decreases |rest|
  {
    if rest != [] {
      var r := Step(rest, titled, c); var n, c' := r.0, r.1;
      ScanKeepsPushed(rest[n..], titled, c');
    }
  }

  // ---------------------------------------------------------------------
  // Untitled format

  /** The lines that are neither header lines nor separators, in order. */
  function BodyLines(lines: seq<string>): seq<string>
    decreases |lines|
  {
    if lines == [] then []
    else if IsMetaLine(lines[0]) || IsSeparator(lines[0]) then BodyLines(lines[1..])
    else [lines[0]] + BodyLines(lines[1..])
  }

  /** The number of separator lines. */
  function CountSeparators(lines: seq<string>): nat
    decreases |lines|
  {
    if lines == [] then 0
    else (if !IsMetaLine(lines[0]) && IsSeparator(lines[0]) then 1 else 0) + CountSeparators(lines[1..])
  }

  /** Whether a content line comes before any slide-opening separator, so
      that the parser opens an untitled slide for it.  In titled format a
      separator opens a slide only when a title follows it. */
  predicate OpensImplicitly(lines: seq<string>, titled: bool)
    decreases |lines|
  {
    if lines == [] then false
    else if IsMetaLine(lines[0]) then OpensImplicitly(lines[1..], titled)
    else if IsSeparator(lines[0]) then
      titled && !IsTitle(Trim(Lookahead(lines))) && OpensImplicitly(lines[1..], titled)
    else true
  }

  lemma FlattenAppend(slides: seq<Slide>, s: Slide)
    ensures Flatten(slides + [s]) == Flatten(slides) + s.content
  {
    assert (slides + [s])[..|slides|] == slides;
  }

  /** One untitled step: every line is consumed alone, and only header
      lines, separators and content lines are told apart. */
  lemma UntitledStep(rest: seq<string>, c: Cursor)
    requires rest != []
    ensures Step(rest, false, c).0 == 1
    ensures Step(rest, false, c).1 ==
      if IsMetaLine(rest[0]) then c.(meta := Step(rest, false, c).1.meta)
      else if IsSeparator(rest[0]) then Cursor(c.meta, Close(c), Some(Slide("", [])))
      else c.(open := Some(AddContent(c.open, rest[0], false)))
  {
  }

  /** In untitled format the slides' contents, concatenated, are the body
      lines of the input in order. */
  lemma {:induction false} ScanUntitledContent(rest: seq<string>, c: Cursor)
    ensures Flatten(Close(Scan(rest, false, c))) == Flatten(Close(c)) + BodyLines(rest)
    decreases |rest|
  {
    if rest != [] {
      UntitledStep(rest, c);
      var c' := Step(rest, false, c).1;
      assert Scan(rest, false, c) == Scan(rest[1..], false, c');
      StepUntitledContent(rest, c);
      ScanUntitledContent(rest[1..], c');
    }
  }

  /** The untitled step appends a content line to the open slide and adds
      nothing else to the slides' contents. */
  lemma StepUntitledContent(rest: seq<string>, c: Cursor)
    requires rest != []
    ensures Flatten(Close(Step(rest, false, c).1))
      == Flatten(Close(c)) + (if IsMetaLine(rest[0]) || IsSeparator(rest[0]) then [] else [rest[0]])
  {
    UntitledStep(rest, c);
    if IsMetaLine(rest[0]) {
    } else if IsSeparator(rest[0]) {
      FlattenAppend(Close(c), Slide("", []));
    } else {
      var s := AddContent(c.open, rest[0], false);
      assert Close(Step(rest, false, c).1) == c.done + [s];
      FlattenAppend(c.done, s);
      if c.open.Some? {
        FlattenAppend(c.done, c.open.value);
        assert Flatten(c.done + [s]) == Flatten(c.done) + c.open.value.content + [rest[0]];
      } else {
        assert Close(c) == c.done;
      }
    }
  }

  /** In untitled format there is one slide per separator, plus one when
      content precedes the first separator. */
  lemma {:induction false} ScanUntitledCount(rest: seq<string>, c: Cursor)
    ensures |Close(Scan(rest, false, c))|
      == |Close(c)| + CountSeparators(rest) + (if c.open.None? && OpensImplicitly(rest, false) then 1 else 0)
    decreases |rest|
  {
    if rest != [] {
      UntitledStep(rest, c);
      var c' := Step(rest, false, c).1;
      assert Scan(rest, false, c) == Scan(rest[1..], false, c');
      ScanUntitledCount(rest[1..], c');
    }
  }

  /** The title the untitled format gives a slide: its first content line,
      trimmed, unless that line is blank or missing. */
  function UntitledTitle(content: seq<string>): string {
    if |content| > 0 && Trim(content[0]) != "" then Trim(content[0]) else ""
  }

  predicate UntitledTitles(slides: seq<Slide>) {
    forall k :: 0 <= k < |slides| ==> slides[k].title == UntitledTitle(slides[k].content)
  }

  /** The untitled format titles each slide by its first content line, once:
      a blank first line leaves the title empty for good. */
  lemma {:induction false} ScanUntitledTitles(rest: seq<string>, c: Cursor)
    requires UntitledTitles(Close(c))
    ensures UntitledTitles(Close(Scan(rest, false, c)))
    decreases |rest|
  {
    if rest != [] {
      UntitledStep(rest, c);
      var c' := Step(rest, false, c).1;
      assert Scan(rest, false, c) == Scan(rest[1..], false, c');
      assert UntitledTitles(Close(c')) by {
        if c.open.Some? {
          assert Close(c) == c.done + [c.open.value];
          assert Close(c)[|c.done|] == c.open.value;
        }
        if !IsMetaLine(rest[0]) && !IsSeparator(rest[0]) {
          assert Close(c') == c.done + [AddContent(c.open, rest[0], false)];
        }
      }
      ScanUntitledTitles(rest[1..], c');
    }
  }

  /** Everything the untitled format promises about parsed slides. */
  lemma ParsedUntitled(lines: seq<string>)
    ensures var slides := ParseLines(lines, false).slides;
      && Flatten(slides) == BodyLines(lines)
      && |slides| == CountSeparators(lines) + (if OpensImplicitly(lines, false) then 1 else 0)
      && UntitledTitles(slides)
  {
    ScanUntitledContent(lines, Start);
    ScanUntitledCount(lines, Start);
    ScanUntitledTitles(lines, Start);
  }

  // ---------------------------------------------------------------------
  // Titled format

  /** A title as the titled format produces it: a trimmed title. */
  predicate IsCleanTitle(t: string) {
    IsTitle(t) && Trim(t) == t
  }

  /** Titled-format slides: every title is a trimmed title, except that the
      first slide may be untitled. */
  predicate TitledTitles(slides: seq<Slide>) {
    forall k :: 0 <= k < |slides| ==> IsCleanTitle(slides[k].title) || (k == 0 && slides[k].title == "")
  }

  lemma {:induction false} ScanTitledTitles(rest: seq<string>, c: Cursor)
    requires TitledTitles(Close(c))
    requires c.open.None? ==> c.done == []
    ensures TitledTitles(Close(Scan(rest, true, c)))
    decreases |rest|
  {
    if rest != [] {
      var r := Step(rest, true, c);
      assert Scan(rest, true, c) == Scan(rest[r.0..], true, r.1);
      StepTitledTitles(rest, c);
      ScanTitledTitles(rest[r.0..], r.1);
    }
  }

  lemma StepTitledTitles(rest: seq<string>, c: Cursor)
    requires rest != []
    requires TitledTitles(Close(c))
    requires c.open.None? ==> c.done == []
    ensures var c' := Step(rest, true, c).1;
      TitledTitles(Close(c')) && (c'.open.None? ==> c'.done == [])
  {
    var line := rest[0];
    var c' := Step(rest, true, c).1;
    if IsMetaLine(line) {
      assert Close(c') == Close(c);
    } else if IsSeparator(line) {
      if IsTitle(Trim(Lookahead(rest))) {
        var t := Trim(Lookahead(rest));
        TrimIdempotent(Lookahead(rest));
        assert Close(c') == Close(c) + [Slide(t, [])];
        TitledTitlesAppend(Close(c), Slide(t, []));
      } else if c.open.Some? {
        assert Close(c) == c.done + [c.open.value];
        assert Close(c') == c.done + [c.open.value.(content := c.open.value.content + ["---"])];
        TitledTitlesRetitle(c.done, c.open.value, c.open.value.(content := c.open.value.content + ["---"]));
      } else {
        assert c' == c;
      }
    } else {
      var s := AddContent(c.open, line, true);
      assert Close(c') == c.done + [s];
      if c.open.Some? {
        assert Close(c) == c.done + [c.open.value];
        TitledTitlesRetitle(c.done, c.open.value, s);
      } else {
        TitledTitlesAppend(c.done, s);
      }
    }
  }

  /** A slide appended to titled-format slides keeps them so when its
      title is clean, or when it is the first slide and untitled. */
  lemma TitledTitlesAppend(slides: seq<Slide>, s: Slide)
    requires TitledTitles(slides)
    requires IsCleanTitle(s.title) || (slides == [] && s.title == "")
    ensures TitledTitles(slides + [s])
  {
  }

  /** Replacing the last slide by one with the same title. */
  lemma TitledTitlesRetitle(done: seq<Slide>, a: Slide, b: Slide)
    requires TitledTitles(done + [a])
    requires b.title == a.title
    ensures TitledTitles(done + [b])
  {
    var before, after := done + [a], done + [b];
    forall k | 0 <= k < |after|
      ensures IsCleanTitle(after[k].title) || (k == 0 && after[k].title == "")
    {
      assert after[k].title == before[k].title;
    }
  }

  /** In titled format the first slide is untitled exactly when content
      comes before every separator that a title follows. */
  lemma {:induction false} ScanTitledFirst(rest: seq<string>, c: Cursor)
    requires c.done == [] && c.open.None?
    ensures var slides := Close(Scan(rest, true, c));
      (|slides| > 0 && slides[0].title == "") <==> OpensImplicitly(rest, true)
    decreases |rest|
  {
    if rest != [] {
      var r := Step(rest, true, c); var n, c' := r.0, r.1;
      if c'.open.None? {
        ScanTitledFirst(rest[n..], c');
      } else {
        ScanKeepsPushed(rest[n..], true, c');
        ScanKeepsTitle(rest[n..], c');
        if IsSeparator(rest[0]) && !IsMetaLine(rest[0]) {
          TitleStartsWithLetter(Trim(Lookahead(rest)));
        }
      }
    }
  }

  /** In titled format a slide keeps the title it was opened with. */
  lemma {:induction false} ScanKeepsTitle(rest: seq<string>, c: Cursor)
    requires c.open.Some?
    ensures var slides := Close(Scan(rest, true, c));
      |c.done| < |slides| && slides[|c.done|].title == c.open.value.title
    decreases |rest|
  {
    ScanKeepsPushed(rest, true, c);
    if rest != [] {
      var r := Step(rest, true, c); var n, c' := r.0, r.1;
      ScanKeepsPushed(rest[n..], true, c');
      if c'.open.Some? && |c'.done| == |c.done| {
        ScanKeepsTitle(rest[n..], c');
      } else {
        assert c'.done == Close(c);
        assert Close(c)[|c.done|] == c.open.value;
      }
    }
  }

  /** A separator that opens a titled slide: the next line, trimmed, is a
      title. */
  predicate OpensTitled(lines: seq<string>)
    requires lines != []
  {
    !IsMetaLine(lines[0]) && IsSeparator(lines[0]) && |lines| > 1 && IsTitle(Trim(lines[1]))
  }

  /** The content lines of a titled text, with `open` telling whether a
      slide is open: header lines and the title line after a separator are
      consumed, a separator without a title is kept as `---` inside an open
      slide and dropped before any, and every other line is content. */
  function TitledBody(lines: seq<string>, open: bool): seq<string>
    decreases |lines|
  {
    if lines == [] then []
    else if IsMetaLine(lines[0]) then TitledBody(lines[1..], open)
    else if OpensTitled(lines) then TitledBody(lines[2..], true)
    else if IsSeparator(lines[0]) then (if open then ["---"] else []) + TitledBody(lines[1..], open)
    else [lines[0]] + TitledBody(lines[1..], true)
  }

  /** The number of separators followed by a title line, each consuming
      its title line. */
  function CountTitledSeparators(lines: seq<string>): nat
    decreases |lines|
  {
    if lines == [] then 0
    else if OpensTitled(lines) then 1 + CountTitledSeparators(lines[2..])
    else CountTitledSeparators(lines[1..])
  }

  /** A titled step consumes two lines exactly at a separator that opens a
      titled slide. */
  lemma TitledStepShape(rest: seq<string>, c: Cursor)
    requires rest != []
    ensures var r := Step(rest, true, c);
      && (OpensTitled(rest) <==> r.0 == 2)
      && (OpensTitled(rest) ==> r.1 == Cursor(c.meta, Close(c), Some(Slide(Trim(rest[1]), []))))
  {
    if |rest| <= 1 {
      assert !IsTitle(Trim(""));
    }
  }

  /** One titled step adds to the slides' contents what `TitledBody` says
      the consumed lines contribute, and leaves a slide open exactly when
      `TitledBody` counts one as open. */
  lemma StepTitledContent(rest: seq<string>, c: Cursor)
    requires rest != []
    ensures var r := Step(rest, true, c); var n, c' := r.0, r.1;
      && Flatten(Close(c')) + TitledBody(rest[n..], c'.open.Some?)
         == Flatten(Close(c)) + TitledBody(rest, c.open.Some?)
  {
    TitledStepShape(rest, c);
    var r := Step(rest, true, c); var n, c' := r.0, r.1;
    var line := rest[0];
    if IsMetaLine(line) {
    } else if OpensTitled(rest) {
      FlattenAppend(Close(c), Slide(Trim(rest[1]), []));
    } else if IsSeparator(line) {
      if c.open.Some? {
        var s := c.open.value;
        assert Close(c) == c.done + [s];
        assert Close(c') == c.done + [s.(content := s.content + ["---"])];
        FlattenAppend(c.done, s);
        FlattenAppend(c.done, s.(content := s.content + ["---"]));
      } else {
        assert c' == c;
      }
    } else {
      var s := AddContent(c.open, line, true);
      assert Close(c') == c.done + [s];
      FlattenAppend(c.done, s);
      if c.open.Some? {
        FlattenAppend(c.done, c.open.value);
      } else {
        assert Close(c) == c.done;
      }
    }
  }

  /** In titled format the slides' contents, concatenated, are the content
      lines `TitledBody` names. */
  lemma {:induction false} ScanTitledContent(rest: seq<string>, c: Cursor)
    ensures Flatten(Close(Scan(rest, true, c))) == Flatten(Close(c)) + TitledBody(rest, c.open.Some?)
    decreases |rest|
  {
    if rest != [] {
      var r := Step(rest, true, c); var n, c' := r.0, r.1;
      assert Scan(rest, true, c) == Scan(rest[n..], true, c');
      StepTitledContent(rest, c);
      ScanTitledContent(rest[n..], c');
    }
  }

  /** In titled format there is one slide per separator that a title line
      follows, plus one when content comes before the first of them. */
  lemma {:induction false} ScanTitledCount(rest: seq<string>, c: Cursor)
    ensures |Close(Scan(rest, true, c))|
      == |Close(c)| + CountTitledSeparators(rest) + (if c.open.None? && OpensImplicitly(rest, true) then 1 else 0)
    decreases |rest|
  {
    if rest != [] {
      TitledStepShape(rest, c);
      var r := Step(rest, true, c); var n, c' := r.0, r.1;
      assert Scan(rest, true, c) == Scan(rest[n..], true, c');
      ScanTitledCount(rest[n..], c');
      if OpensTitled(rest) {
        TitleAhead(rest);
      }
    }
  }

  /** Everything the titled format promises about parsed slides. */
  lemma ParsedTitled(lines: seq<string>)
    ensures var slides := ParseLines(lines, true).slides;
      && Flatten(slides) == TitledBody(lines, false)
      && |slides| == CountTitledSeparators(lines) + (if OpensImplicitly(lines, true) then 1 else 0)
      && TitledTitles(slides)
      && ((|slides| > 0 && slides[0].title == "") <==> OpensImplicitly(lines, true))
  {
    ScanTitledContent(lines, Start);
    ScanTitledCount(lines, Start);
    ScanTitledTitles(lines, Start);
    ScanTitledFirst(lines, Start);
  }

  // ---------------------------------------------------------------------
  // Detection

  /** Empty text is a single empty line and is not in titled format. */
  lemma EmptyTextIsUntitled()
    ensures SplitLines("") == [""]
    ensures !IsTitledFormat(SplitLines(""))
  {
    assert !IsTitle(Trim(""));
  }
}
