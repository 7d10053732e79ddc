// The save handler of the SNG editor (script.js:219-237, script-2.js:195-213)
// as a specification: the header lines written for the attribute fields
// and the verse order, the `---` block written for every slide, and the
// text joined with `\n`.  The lemmas show what reading that text back with
// the parser gives: the same metadata, the same titled slides, and the same
// verse order.  The loop that builds the lines over mutable state is
// `Editor.Session.Serialize`.

module Serializer {
  import opened Text
  import opened Titles
  import opened Song
  import opened Parser
  import opened Order

  /** An attribute input: its `id` and its current `value`. */
  type Field = (string, string)

  /** `#${input.id}=${input.value.trim()}` */
  function FieldLine(f: Field): string {
    "#" + f.0 + "=" + Trim(f.1)
  }

  /** One header line per field whose trimmed value is not blank, in field
      order.  Written from the right, as the loop appends. */
  function FieldLines(fields: seq<Field>): seq<string>
    decreases |fields|
  {
    if fields == [] then []
    else
      var f := fields[|fields| - 1];
      FieldLines(fields[..|fields| - 1]) + (if Trim(f.1) != "" then [FieldLine(f)] else [])
  }

  /** `verseOrder.map(i => allSlides[i].title.trim()).filter(Boolean)` */
  function OrderLabels(order: seq<int>, slides: seq<Slide>): seq<string>
    requires ValidIndices(order, |slides|)
    decreases |order|
  {
    if order == [] then []
    else
      var i := order[|order| - 1];
      assert i in order;
      var init := order[..|order| - 1];
      assert ValidIndices(init, |slides|) by {
        forall v | v in init ensures 0 <= v < |slides| {
          var k :| 0 <= k < |order| - 1 && order[k] == v;
          assert v in order;
        }
      }
      var t := Trim(slides[i].title);
      OrderLabels(init, slides) + (if t != "" then [t] else [])
  }

  /** The `#VerseOrder` line, written in titled format when the order is
      not empty. */
  function OrderLines(order: seq<int>, slides: seq<Slide>, titled: bool): seq<string>
    requires titled && |order| > 0 ==> ValidIndices(order, |slides|)
  {
    if titled && |order| > 0 then ["#VerseOrder=" + Join(OrderLabels(order, slides), ", ")] else []
  }

  /** A titled slide must have a first content line: the handler reads
      `slide.content[0]` to decide whether to write the title. */
  predicate HasFirstLine(s: Slide) {
    s.title != "" ==> |s.content| > 0
  }

  /** The lines of one slide: a separator, the title unless the first
      content line already starts with it, then the content verbatim. */
  function SlideLines(s: Slide): seq<string>
    requires HasFirstLine(s)
  {
    ["---"] + (if s.title != "" && !StartsWith(s.content[0], s.title) then [s.title] else []) + s.content
  }

  predicate AllHaveFirstLine(slides: seq<Slide>) {
    forall k :: 0 <= k < |slides| ==> HasFirstLine(slides[k])
  }

  /** The lines of all slides, in storage order. */
  function SlidesLines(slides: seq<Slide>): seq<string>
    requires AllHaveFirstLine(slides)
    decreases |slides|
  {
    if slides == [] then []
    else
      var n := |slides| - 1;
      SlidesLines(slides[..n]) + SlideLines(slides[n])
  }

  /** When the save handler runs to the end instead of throwing a
      `TypeError`: every order entry names a slide (when the order line is
      written) and every titled slide has a first content line. */
  predicate CanSave(order: seq<int>, slides: seq<Slide>, titled: bool) {
    && (titled && |order| > 0 ==> ValidIndices(order, |slides|))
    && AllHaveFirstLine(slides)
  }

  /** Every line the handler writes, in order. */
  function SaveLines(fields: seq<Field>, order: seq<int>, slides: seq<Slide>, titled: bool): seq<string>
    requires CanSave(order, slides, titled)
  {
    FieldLines(fields) + OrderLines(order, slides, titled) + SlidesLines(slides)
  }

  /** The saved text: the lines joined with `\n`. */
  function SaveText(fields: seq<Field>, order: seq<int>, slides: seq<Slide>, titled: bool): string
    requires CanSave(order, slides, titled)
  {
    Join(SaveLines(fields, order, slides, titled), "\n")
  }

  // ---------------------------------------------------------------------
  // Header lines read back

  /** A field whose header line reads back as itself: an id that is
      trimmed and holds neither `=` nor a line break, and a value without
      a line break. */
  predicate CleanField(f: Field) {
    Trim(f.0) == f.0 && '=' !in f.0 && '\n' !in f.0 && '\n' !in f.1
  }

  /** A header line `#key=value` with a trimmed key free of `=` and a
      trimmed value reads back as `(key, value)`. */
  lemma HeaderLineParses(key: string, value: string)
    requires Trim(key) == key && '=' !in key
    requires Trim(value) == value
    ensures IsMetaLine("#" + key + "=" + value)
    ensures ParseMetaLine("#" + key + "=" + value) == (key, value)
  {
    var line := "#" + key + "=" + value;
    assert line[..1] == "#";
    var s := line[1..];
    assert s == key + "=" + value;
    assert s[..|key|] == key && s[|key|] == '=';
    assert FirstIndex(s, '=') == |key|;
    MetaLineSplitsAtFirstEquals(line);
    assert s[|key| + 1..] == value;
  }

  /** A field line reads back as the field's id and trimmed value. */
  lemma FieldLineParses(f: Field)
    requires CleanField(f)
    ensures IsMetaLine(FieldLine(f))
    ensures ParseMetaLine(FieldLine(f)) == (f.0, Trim(f.1))
  {
    TrimIdempotent(f.1);
    HeaderLineParses(f.0, Trim(f.1));
  }

  /** A field line with a non-blank value survives the split into lines. */
  lemma FieldLineSafe(f: Field)
    requires '\n' !in f.0 && '\n' !in f.1 && Trim(f.1) != ""
    ensures SplitSafe(FieldLine(f))
  {
    TrimKeepsAbsent(f.1, '\n');
    TrimShape(f.1);
    var line := FieldLine(f);
    assert line[|line| - 1] == Trim(f.1)[|Trim(f.1)| - 1];
  }

  /** The `(id, trimmed value)` pairs of the non-blank fields, in order. */
  function FieldEntries(fields: seq<Field>): seq<(string, string)>
    decreases |fields|
  {
    if fields == [] then []
    else
      var f := fields[|fields| - 1];
      FieldEntries(fields[..|fields| - 1]) + (if Trim(f.1) != "" then [(f.0, Trim(f.1))] else [])
  }

  lemma {:induction false} MetaEntriesAppend(a: seq<string>, b: seq<string>)
    ensures MetaEntries(a + b) == MetaEntries(a) + MetaEntries(b)
    decreases |a|
  {
    if a == [] {
      assert a + b == b;
    } else {
      var head := if IsMetaLine(a[0]) then [ParseMetaLine(a[0])] else [];
      assert (a + b)[0] == a[0];
      assert (a + b)[1..] == a[1..] + b;
      assert MetaEntries(a + b) == head + MetaEntries(a[1..] + b);
      assert MetaEntries(a) == head + MetaEntries(a[1..]);
      MetaEntriesAppend(a[1..], b);
    }
  }

  /** The parser reads the field lines back as the field entries. */
  lemma {:induction false} FieldLinesRead(fields: seq<Field>)
    requires forall i :: 0 <= i < |fields| ==> CleanField(fields[i])
    ensures MetaEntries(FieldLines(fields)) == FieldEntries(fields)
    decreases |fields|
  {
    if fields != [] {
      var n := |fields| - 1;
      var f := fields[n];
      FieldLinesRead(fields[..n]);
      var last := if Trim(f.1) != "" then [FieldLine(f)] else [];
      MetaEntriesAppend(FieldLines(fields[..n]), last);
      if Trim(f.1) != "" {
        FieldLineParses(f);
        assert MetaEntries(last) == [(f.0, Trim(f.1))] + MetaEntries([]);
      }
    }
  }

  /** Field lines are header lines that survive the split into lines. */
  lemma {:induction false} FieldLinesShape(fields: seq<Field>)
    requires forall i :: 0 <= i < |fields| ==> '\n' !in fields[i].0 && '\n' !in fields[i].1
    ensures forall k :: 0 <= k < |FieldLines(fields)| ==>
      IsMetaLine(FieldLines(fields)[k]) && SplitSafe(FieldLines(fields)[k])
    decreases |fields|
  {
    if fields != [] {
      var n := |fields| - 1;
      var f := fields[n];
      FieldLinesShape(fields[..n]);
      if Trim(f.1) != "" {
        FieldLineSafe(f);
        assert FieldLine(f)[..1] == "#";
      }
    }
  }

  lemma {:induction false} ApplyAppend(m: map<string, string>, a: seq<(string, string)>, b: seq<(string, string)>)
    ensures Apply(m, a + b) == Apply(Apply(m, a), b)
    decreases |a|
  {
    if a == [] {
      assert a + b == b;
    } else {
      assert (a + b)[0] == a[0];
      assert (a + b)[1..] == a[1..] + b;
      ApplyAppend(m[a[0].0 := a[0].1], a[1..], b);
    }
  }

  /** No two fields share an id. */
  predicate DistinctIds(fields: seq<Field>) {
    forall i, j :: 0 <= i < j < |fields| ==> fields[i].0 != fields[j].0
  }

  /** A key no field carries is written by no field entry. */
  lemma {:induction false} FieldEntriesAvoid(fields: seq<Field>, key: string)
    requires forall i :: 0 <= i < |fields| ==> fields[i].0 != key
    ensures forall n :: 0 <= n < |FieldEntries(fields)| ==> FieldEntries(fields)[n].0 != key
    decreases |fields|
  {
    if fields != [] {
      FieldEntriesAvoid(fields[..|fields| - 1], key);
    }
  }

  /** After the field entries, a field's id holds its trimmed value when
      that is not blank; a blank field leaves the key as it was. */
  lemma {:induction false} FieldWritten(m: map<string, string>, fields: seq<Field>, j: nat)
    requires j < |fields| && DistinctIds(fields)
    ensures var r := Apply(m, FieldEntries(fields)); var f := fields[j];
      && (f.0 in r <==> Trim(f.1) != "" || f.0 in m)
      && (f.0 in r ==> r[f.0] == if Trim(f.1) != "" then Trim(f.1) else m[f.0])
    decreases |fields|
  {
    var n := |fields| - 1;
    var init := fields[..n];
    var last := fields[n];
    var e := if Trim(last.1) != "" then [(last.0, Trim(last.1))] else [];
    assert FieldEntries(fields) == FieldEntries(init) + e;
    ApplyAppend(m, FieldEntries(init), e);
    var x := Apply(m, FieldEntries(init));
    var key := fields[j].0;
    if j == n {
      FieldEntriesAvoid(init, key);
      ApplyUnwritten(m, FieldEntries(init), key);
      if e != [] {
        assert Apply(x, e) == Apply(x[key := Trim(last.1)], []);
      }
    } else {
      FieldWritten(m, init, j);
      ApplyUnwritten(x, e, key);
    }
  }

  // ---------------------------------------------------------------------
  // The `#VerseOrder` line

  lemma {:induction false} JoinEnds(parts: seq<string>, sep: string)
    requires |parts| >= 1 && forall k :: 0 <= k < |parts| ==> parts[k] != []
    ensures var r := Join(parts, sep);
      r != [] && r[0] == parts[0][0] && r[|r| - 1] == parts[|parts| - 1][|parts[|parts| - 1]| - 1]
    decreases |parts|
  {
    if |parts| > 1 {
      JoinEnds(parts[1..], sep);
    }
  }

  lemma {:induction false} JoinKeepsAbsent(parts: seq<string>, sep: string, c: char)
    requires c !in sep && forall k :: 0 <= k < |parts| ==> c !in parts[k]
    ensures c !in Join(parts, sep)
    decreases |parts|
  {
    if |parts| > 1 {
      JoinKeepsAbsent(parts[1..], sep, c);
    }
  }

  /** The order labels are non-blank trimmed titles, so none starts or
      ends with whitespace; titles without line breaks give labels
      without line breaks. */
  lemma {:induction false} OrderLabelsShape(order: seq<int>, slides: seq<Slide>)
    requires ValidIndices(order, |slides|)
    ensures forall k :: 0 <= k < |OrderLabels(order, slides)| ==>
      var t := OrderLabels(order, slides)[k];
      t != [] && !IsSpace(t[0]) && !IsSpace(t[|t| - 1])
    ensures (forall i :: 0 <= i < |slides| ==> '\n' !in slides[i].title) ==>
      forall k :: 0 <= k < |OrderLabels(order, slides)| ==> '\n' !in OrderLabels(order, slides)[k]
    decreases |order|
  {
    if order != [] {
      var init := order[..|order| - 1];
      var i := order[|order| - 1];
      assert i in order;
      assert ValidIndices(init, |slides|) by {
        forall v | v in init ensures 0 <= v < |slides| {
          assert v in order;
        }
      }
      OrderLabelsShape(init, slides);
      TrimShape(slides[i].title);
      if '\n' !in slides[i].title {
        TrimKeepsAbsent(slides[i].title, '\n');
      }
    }
  }

  /** The joined labels are already trimmed and, for titles without line
      breaks, survive the split into lines. */
  lemma OrderValueShape(order: seq<int>, slides: seq<Slide>)
    requires ValidIndices(order, |slides|)
    ensures Trim(Join(OrderLabels(order, slides), ", ")) == Join(OrderLabels(order, slides), ", ")
    ensures (forall i :: 0 <= i < |slides| ==> '\n' !in slides[i].title) ==>
      SplitSafe("#VerseOrder=" + Join(OrderLabels(order, slides), ", "))
  {
    var labels := OrderLabels(order, slides);
    var v := Join(labels, ", ");
    OrderLabelsShape(order, slides);
    if labels != [] {
      JoinEnds(labels, ", ");
    }
    TrimmedIsFixed(v);
    if forall i :: 0 <= i < |slides| ==> '\n' !in slides[i].title {
      JoinKeepsAbsent(labels, ", ", '\n');
      var line := "#VerseOrder=" + v;
      assert line[|line| - 1] == if v == [] then '=' else v[|v| - 1];
    }
  }

  /** The `#VerseOrder` line reads back as the joined labels. */
  lemma OrderLineRead(v: string, key: string)
    requires Trim(v) == v && key == "VerseOrder"
    ensures IsMetaLine("#VerseOrder=" + v) && ParseMetaLine("#VerseOrder=" + v) == (key, v)
  {
    assert key[0] == 'V' && key[|key| - 1] == 'r';
    TrimmedIsFixed(key);
    assert '=' !in key;
    HeaderLineParses(key, v);
    assert "#" + key + "=" + v == "#VerseOrder=" + v;
  }

  lemma OrderLinesRead(order: seq<int>, slides: seq<Slide>, titled: bool, key: string)
    requires titled && |order| > 0 ==> ValidIndices(order, |slides|)
    requires key == "VerseOrder"
    ensures forall k :: 0 <= k < |OrderLines(order, slides, titled)| ==> IsMetaLine(OrderLines(order, slides, titled)[k])
    ensures MetaEntries(OrderLines(order, slides, titled)) ==
      if titled && |order| > 0 then [(key, Join(OrderLabels(order, slides), ", "))] else []
  {
    if titled && |order| > 0 {
      var v := Join(OrderLabels(order, slides), ", ");
      OrderValueShape(order, slides);
      OrderLineRead(v, key);
      var lines := OrderLines(order, slides, titled);
      assert lines == ["#VerseOrder=" + v];
      assert MetaEntries(lines) == [ParseMetaLine(lines[0])] + MetaEntries([]);
    }
  }

  // ---------------------------------------------------------------------
  // Reading the lines back

  /** Header lines at the front only update the metadata. */
  lemma {:induction false} ScanHeader(header: seq<string>, rest: seq<string>, titled: bool, c: Cursor)
    requires forall k :: 0 <= k < |header| ==> IsMetaLine(header[k])
    ensures Scan(header + rest, titled, c) == Scan(rest, titled, c.(meta := Apply(c.meta, MetaEntries(header))))
    decreases |header|
  {
    if header == [] {
      assert header + rest == rest;
    } else {
      var all := header + rest;
      assert all[0] == header[0];
      var kv := ParseMetaLine(header[0]);
      var c1 := c.(meta := c.meta[kv.0 := kv.1]);
      assert Step(all, titled, c) == (1, c1);
      assert all[1..] == header[1..] + rest;
      ScanHeader(header[1..], rest, titled, c1);
      var es := MetaEntries(header);
      assert es == [kv] + MetaEntries(header[1..]);
      assert es[0] == kv && es[1..] == MetaEntries(header[1..]);
    }
  }

  /** The separator the handler writes is a separator, not a header line,
      and survives the split into lines. */
  lemma SeparatorLine()
    ensures IsSeparator("---") && !IsMetaLine("---") && SplitSafe("---")
  {
    assert "---"[..1] == ['-'];
  }

  /** A line the titled format keeps as content: neither a header line nor
      a separator. */
  predicate PlainLine(line: string) {
    !IsMetaLine(line) && !IsSeparator(line)
  }

  /** In titled format, plain lines are appended to the open slide. */
  lemma {:induction false} ScanPlainLines(lines: seq<string>, rest: seq<string>, c: Cursor)
    requires c.open.Some?
    requires forall k :: 0 <= k < |lines| ==> PlainLine(lines[k])
    ensures Scan(lines + rest, true, c)
      == Scan(rest, true, c.(open := Some(c.open.value.(content := c.open.value.content + lines))))
    decreases |lines|
  {
    var s := c.open.value;
    if lines == [] {
      assert lines + rest == rest;
      assert s.content + lines == s.content;
      assert c.(open := Some(s.(content := s.content + lines))) == c;
    } else {
      var all := lines + rest;
      assert all[0] == lines[0];
      var c1 := c.(open := Some(s.(content := s.content + [lines[0]])));
      ScanPlainLine(all, c);
      assert all[1..] == lines[1..] + rest;
      ScanPlainLines(lines[1..], rest, c1);
      assert s.content + [lines[0]] + lines[1..] == s.content + lines;
    }
  }

  /** One plain line in titled format joins the open slide. */
  lemma ScanPlainLine(all: seq<string>, c: Cursor)
    requires all != [] && PlainLine(all[0]) && c.open.Some?
    ensures Scan(all, true, c)
      == Scan(all[1..], true, c.(open := Some(c.open.value.(content := c.open.value.content + [all[0]]))))
  {
    var s := c.open.value;
    assert Step(all, true, c) == (1, c.(open := Some(s.(content := s.content + [all[0]]))));
  }

  /** A slide the titled format reads back unchanged: a trimmed title of
      the title grammar, written out because the first content line does
      not start with it, and content lines that are neither header lines
      nor separators; title and content survive the split into lines. */
  predicate Rereadable(s: Slide) {
    && IsCleanTitle(s.title) && SplitSafe(s.title)
    && |s.content| > 0 && !StartsWith(s.content[0], s.title)
    && forall l :: 0 <= l < |s.content| ==> PlainLine(s.content[l]) && SplitSafe(s.content[l])
  }

  /** Every slide is rereadable (and so has a first content line). */
  predicate AllRereadable(slides: seq<Slide>)
    ensures AllRereadable(slides) ==> AllHaveFirstLine(slides)
  {
    forall k :: 0 <= k < |slides| ==> Rereadable(slides[k])
  }

  /** The lines of a rereadable slide: separator, title, content. */
  lemma RereadableLines(s: Slide)
    requires Rereadable(s)
    ensures SlideLines(s) == ["---", s.title] + s.content
  {
    TitleStartsWithLetter(s.title);
  }

  /** In titled format a separator followed by a title line opens a slide
      with that title. */
  lemma ScanOpensTitled(rest: seq<string>, c: Cursor)
    requires |rest| > 1 && rest[0] == "---" && IsTitle(Trim(rest[1]))
    ensures Scan(rest, true, c) == Scan(rest[2..], true, Cursor(c.meta, Close(c), Some(Slide(Trim(rest[1]), []))))
  {
    SeparatorLine();
    assert Lookahead(rest) == rest[1];
    assert Step(rest, true, c) == (2, Cursor(c.meta, Close(c), Some(Slide(Trim(rest[1]), []))));
  }

  /** A separator, a title line and plain lines: the title line opens a
      slide, the plain lines fill it. */
  lemma ScanTitledBlock(title: string, content: seq<string>, rest: seq<string>, c: Cursor)
    requires IsTitle(title) && Trim(title) == title
    requires forall l :: 0 <= l < |content| ==> PlainLine(content[l])
    ensures Scan(["---", title] + content + rest, true, c)
      == Scan(rest, true, Cursor(c.meta, Close(c), Some(Slide(title, content))))
  {
    var all := ["---", title] + content + rest;
    assert all[0] == "---" && all[1] == title;
    assert all[2..] == content + rest;
    ScanOpensTitled(all, c);
    ScanPlainLines(content, rest, Cursor(c.meta, Close(c), Some(Slide(title, []))));
    assert [] + content == content;
  }

  /** The lines of a rereadable slide read back as that slide. */
  lemma ScanRereadable(s: Slide, rest: seq<string>, c: Cursor)
    requires Rereadable(s)
    ensures Scan(SlideLines(s) + rest, true, c) == Scan(rest, true, Cursor(c.meta, Close(c), Some(s)))
  {
    RereadableLines(s);
    ScanTitledBlock(s.title, s.content, rest, c);
  }

  /** The cursor after the lines of `slides`: all but the last pushed, the
      last one open. */
  function After(c: Cursor, slides: seq<Slide>): (r: Cursor)
    ensures Close(r) == Close(c) + slides
  {
    if slides == [] then c
    else Cursor(c.meta, Close(c) + slides[..|slides| - 1], Some(slides[|slides| - 1]))
  }

  /** The lines of all slides, the last slide's block split off. */
  lemma SlidesLinesSplit(slides: seq<Slide>, rest: seq<string>)
    requires slides != [] && AllHaveFirstLine(slides)
    ensures var n := |slides| - 1;
      AllHaveFirstLine(slides[..n])
      && SlidesLines(slides) + rest == SlidesLines(slides[..n]) + (SlideLines(slides[n]) + rest)
  {
    var n := |slides| - 1;
    assert SlidesLines(slides) == SlidesLines(slides[..n]) + SlideLines(slides[n]);
    LinesAssoc(SlidesLines(slides[..n]), SlideLines(slides[n]), rest);
  }

  lemma LinesAssoc(a: seq<string>, b: seq<string>, c: seq<string>)
    ensures (a + b) + c == a + (b + c)
  {
  }

  lemma {:induction false} ScanRereadableSlides(slides: seq<Slide>, rest: seq<string>, c: Cursor)
    requires AllRereadable(slides)
    ensures Scan(SlidesLines(slides) + rest, true, c) == Scan(rest, true, After(c, slides))
    decreases |slides|
  {
    if slides == [] {
      assert SlidesLines(slides) + rest == rest;
    } else {
      var n := |slides| - 1;
      var init, last := slides[..n], slides[n];
      assert AllRereadable(init) by {
        forall k | 0 <= k < |init|
          ensures Rereadable(init[k])
        {
          assert init[k] == slides[k];
        }
      }
      SlidesLinesSplit(slides, rest);
      ScanRereadableSlides(init, SlideLines(last) + rest, c);
      var c1 := After(c, init);
      ScanRereadable(last, rest, c1);
      assert c1.meta == c.meta && Close(c1) == Close(c) + init;
      assert After(c, slides) == Cursor(c1.meta, Close(c1), Some(last));
    }
  }

  // ---------------------------------------------------------------------
  // Round trips

  /** A slide whose lines are no header lines and survive the split into
      lines. */
  predicate QuietSlide(s: Slide) {
    && SplitSafe(s.title) && !IsMetaLine(s.title)
    && forall l :: 0 <= l < |s.content| ==> SplitSafe(s.content[l]) && !IsMetaLine(s.content[l])
  }

  lemma {:induction false} QuietLines(slides: seq<Slide>)
    requires AllHaveFirstLine(slides)
    requires forall k :: 0 <= k < |slides| ==> QuietSlide(slides[k])
    ensures forall k :: 0 <= k < |SlidesLines(slides)| ==>
      SplitSafe(SlidesLines(slides)[k]) && !IsMetaLine(SlidesLines(slides)[k])
    decreases |slides|
  {
    if slides != [] {
      var n := |slides| - 1;
      QuietLines(slides[..n]);
      var s := slides[n];
      SeparatorLine();
      assert forall k :: 0 <= k < |SlideLines(s)| ==> SplitSafe(SlideLines(s)[k]) && !IsMetaLine(SlideLines(s)[k]);
    }
  }

  lemma {:induction false} NoMetaEntries(lines: seq<string>)
    requires forall k :: 0 <= k < |lines| ==> !IsMetaLine(lines[k])
    ensures MetaEntries(lines) == []
    decreases |lines|
  {
    if lines != [] {
      NoMetaEntries(lines[1..]);
    }
  }

  /** Safe lines joined with `\n` split back into themselves; no lines at
      all give the empty text, which is one empty line. */
  lemma ReadBack(lines: seq<string>)
    requires forall k :: 0 <= k < |lines| ==> SplitSafe(lines[k])
    ensures SplitLines(Join(lines, "\n")) == if lines == [] then [""] else lines
  {
    if lines != [] {
      SplitLinesJoin(lines);
    }
  }

  /** Every saved line survives the split when no field and no slide line
      holds a line break; the header lines come first. */
  lemma SaveLinesSafe(fields: seq<Field>, order: seq<int>, slides: seq<Slide>, titled: bool)
    requires CanSave(order, slides, titled)
    requires forall i :: 0 <= i < |fields| ==> '\n' !in fields[i].0 && '\n' !in fields[i].1
    requires forall k :: 0 <= k < |slides| ==> QuietSlide(slides[k])
    ensures var header := FieldLines(fields) + OrderLines(order, slides, titled);
      && SaveLines(fields, order, slides, titled) == header + SlidesLines(slides)
      && (forall k :: 0 <= k < |header| ==> IsMetaLine(header[k]) && SplitSafe(header[k]))
      && (forall k :: 0 <= k < |SlidesLines(slides)| ==> SplitSafe(SlidesLines(slides)[k]) && !IsMetaLine(SlidesLines(slides)[k]))
  {
    FieldLinesShape(fields);
    var key := "VerseOrder";
    OrderLinesRead(order, slides, titled, key);
    if titled && |order| > 0 {
      OrderValueShape(order, slides);
    }
    QuietLines(slides);
  }

  /** The header entries among the saved lines: the field entries, then
      the order line's. */
  lemma SaveLinesEntries(fields: seq<Field>, order: seq<int>, slides: seq<Slide>, titled: bool, key: string)
    requires CanSave(order, slides, titled)
    requires forall i :: 0 <= i < |fields| ==> CleanField(fields[i])
    requires forall k :: 0 <= k < |slides| ==> QuietSlide(slides[k])
    requires key == "VerseOrder"
    ensures MetaEntries(SaveLines(fields, order, slides, titled))
      == FieldEntries(fields) + (if titled && |order| > 0 then [(key, Join(OrderLabels(order, slides), ", "))] else [])
  {
    var fl, ol, body := FieldLines(fields), OrderLines(order, slides, titled), SlidesLines(slides);
    FieldLinesRead(fields);
    OrderLinesRead(order, slides, titled, key);
    QuietLines(slides);
    MetaEntriesAppend(fl, ol);
    MetaEntriesAppend(fl + ol, body);
    NoMetaEntries(body);
  }

  /** The header entries of the saved text, read line by line: the field
      entries, then the order line's. */
  lemma SavedEntries(fields: seq<Field>, order: seq<int>, slides: seq<Slide>, titled: bool, key: string)
    requires CanSave(order, slides, titled)
    requires forall i :: 0 <= i < |fields| ==> CleanField(fields[i])
    requires forall k :: 0 <= k < |slides| ==> QuietSlide(slides[k])
    requires key == "VerseOrder"
    ensures MetaEntries(SplitLines(SaveText(fields, order, slides, titled)))
      == FieldEntries(fields) + (if titled && |order| > 0 then [(key, Join(OrderLabels(order, slides), ", "))] else [])
  {
    var lines := SaveLines(fields, order, slides, titled);
    SaveLinesSafe(fields, order, slides, titled);
    SaveLinesEntries(fields, order, slides, titled, key);
    ReadBack(lines);
    if lines == [] {
      assert MetaEntries([""]) == [] + MetaEntries([]);
    }
  }

  /** The metadata of a parsed text is its header entries applied in
      order, whichever format is detected. */
  lemma TextMeta(text: string)
    ensures ParseText(text).meta == Apply(map[], MetaEntries(SplitLines(text)))
  {
    var lines := SplitLines(text);
    ScanMeta(lines, IsTitledFormat(lines), Start);
  }

  /** Field entries followed by at most one entry for a key no field
      carries: each non-blank field under its id, the extra key exactly
      when its entry is there. */
  lemma EntriesApplied(fields: seq<Field>, extra: seq<(string, string)>, key: string)
    requires DistinctIds(fields)
    requires forall i :: 0 <= i < |fields| ==> fields[i].0 != key
    requires |extra| <= 1 && (extra != [] ==> extra[0].0 == key)
    ensures var meta := Apply(map[], FieldEntries(fields) + extra);
      && (forall j :: 0 <= j < |fields| ==>
            (fields[j].0 in meta <==> Trim(fields[j].1) != "")
            && (fields[j].0 in meta ==> meta[fields[j].0] == Trim(fields[j].1)))
      && (key in meta <==> extra != [])
      && (extra != [] ==> meta[key] == extra[0].1)
  {
    var fe := FieldEntries(fields);
    ApplyAppend(map[], fe, extra);
    var x := Apply(map[], fe);
    var meta := Apply(x, extra);
    forall j | 0 <= j < |fields|
      ensures fields[j].0 in meta <==> Trim(fields[j].1) != ""
      ensures fields[j].0 in meta ==> meta[fields[j].0] == Trim(fields[j].1)
    {
      FieldWritten(map[], fields, j);
      ApplyUnwritten(x, extra, fields[j].0);
    }
    FieldEntriesAvoid(fields, key);
    ApplyUnwritten(map[], fe, key);
    if extra != [] {
      assert meta == Apply(x[key := extra[0].1], []);
    }
  }

  /** Saving and loading again keeps the metadata: a field with a non-blank
      value is read back under its id with its trimmed value, a blank one
      not at all, and `VerseOrder` holds the joined order labels exactly
      when the order line was written. */
  lemma MetaRoundTrip(fields: seq<Field>, order: seq<int>, slides: seq<Slide>, titled: bool)
    requires CanSave(order, slides, titled)
    requires forall i :: 0 <= i < |fields| ==> CleanField(fields[i]) && fields[i].0 != "VerseOrder"
    requires DistinctIds(fields)
    requires forall k :: 0 <= k < |slides| ==> QuietSlide(slides[k])
    ensures var meta := ParseText(SaveText(fields, order, slides, titled)).meta;
      && (forall j :: 0 <= j < |fields| ==>
            (fields[j].0 in meta <==> Trim(fields[j].1) != "")
            && (fields[j].0 in meta ==> meta[fields[j].0] == Trim(fields[j].1)))
      && ("VerseOrder" in meta <==> titled && |order| > 0)
      && ("VerseOrder" in meta ==> meta["VerseOrder"] == Join(OrderLabels(order, slides), ", "))
  {
    var key := "VerseOrder";
    SavedEntries(fields, order, slides, titled, key);
    TextMeta(SaveText(fields, order, slides, titled));
    var extra := if titled && |order| > 0 then [(key, Join(OrderLabels(order, slides), ", "))] else [];
    EntriesApplied(fields, extra, key);
  }

  lemma RereadableIsQuiet(s: Slide)
    requires Rereadable(s)
    ensures QuietSlide(s)
  {
    TitleLineIsNotMeta(s.title);
  }

  /** The premises shared by the titled round trips: rereadable slides, an
      order that names slides, and fields without line breaks. */
  predicate TitledSaveable(fields: seq<Field>, order: seq<int>, slides: seq<Slide>) {
    && |slides| > 0 && AllRereadable(slides)
    && (|order| > 0 ==> ValidIndices(order, |slides|))
    && forall i :: 0 <= i < |fields| ==> '\n' !in fields[i].0 && '\n' !in fields[i].1
  }

  lemma SavedHeader(fields: seq<Field>, order: seq<int>, slides: seq<Slide>)
    requires TitledSaveable(fields, order, slides)
    ensures var header := FieldLines(fields) + OrderLines(order, slides, true);
      && SaveLines(fields, order, slides, true) == header + SlidesLines(slides)
      && (forall k :: 0 <= k < |header| ==> IsMetaLine(header[k]))
      && SplitLines(SaveText(fields, order, slides, true)) == SaveLines(fields, order, slides, true)
  {
    forall k | 0 <= k < |slides| ensures QuietSlide(slides[k]) {
      RereadableIsQuiet(slides[k]);
    }
    SaveLinesSafe(fields, order, slides, true);
    ReadBack(SaveLines(fields, order, slides, true));
  }

  /** One title line is enough for the titled format. */
  lemma DetectedBy(lines: seq<string>, at: nat)
    requires at < |lines| && IsTitle(Trim(lines[at]))
    ensures IsTitledFormat(lines)
  {
  }

  /** The last slide's title line, in the lines of rereadable slides. */
  lemma LastTitleLine(slides: seq<Slide>) returns (at: nat)
    requires |slides| > 0 && AllRereadable(slides)
    ensures at < |SlidesLines(slides)| && SlidesLines(slides)[at] == slides[|slides| - 1].title
  {
    var n := |slides| - 1;
    RereadableLines(slides[n]);
    at := |SlidesLines(slides[..n])| + 1;
  }

  /** The last slide's title line is a title: the saved text is detected
      as titled. */
  lemma SavedDetected(fields: seq<Field>, order: seq<int>, slides: seq<Slide>)
    requires TitledSaveable(fields, order, slides)
    ensures IsTitledFormat(SaveLines(fields, order, slides, true))
  {
    var header := FieldLines(fields) + OrderLines(order, slides, true);
    var lines := SaveLines(fields, order, slides, true);
    var at := LastTitleLine(slides);
    var title := slides[|slides| - 1].title;
    assert lines == header + SlidesLines(slides);
    assert lines[|header| + at] == title;
    assert IsTitle(Trim(title));
    DetectedBy(lines, |header| + at);
  }

  /** Header lines change only the metadata; the blocks give the slides. */
  lemma SavedSlides(fields: seq<Field>, order: seq<int>, slides: seq<Slide>)
    requires TitledSaveable(fields, order, slides)
    ensures Close(Scan(SaveLines(fields, order, slides, true), true, Start)) == slides
  {
    SavedHeader(fields, order, slides);
    var header := FieldLines(fields) + OrderLines(order, slides, true);
    var start := Start.(meta := Apply(Start.meta, MetaEntries(header)));
    ScanHeader(header, SlidesLines(slides), true, Start);
    assert SlidesLines(slides) + [] == SlidesLines(slides);
    ScanRereadableSlides(slides, [], start);
    assert Close(start) == [];
  }

  /** Saving rereadable slides in titled format and loading the text again
      detects the titled format and gives the same slides in the same
      order. */
  lemma TitledRoundTrip(fields: seq<Field>, order: seq<int>, slides: seq<Slide>)
    requires TitledSaveable(fields, order, slides)
    ensures var lines := SplitLines(SaveText(fields, order, slides, true));
      IsTitledFormat(lines) && ParseText(SaveText(fields, order, slides, true)).slides == slides
  {
    SavedHeader(fields, order, slides);
    SavedDetected(fields, order, slides);
    SavedSlides(fields, order, slides);
  }

  // ---------------------------------------------------------------------
  // The verse order read back

  /** `", "`-joined parts, each with the blank that follows the comma. */
  function Spaced(parts: seq<string>): (r: seq<string>)
    ensures |r| == |parts|
    decreases |parts|
  {
    if parts == [] then [] else [" " + parts[0]] + Spaced(parts[1..])
  }

  lemma {:induction false} JoinSpaced(parts: seq<string>, c: char)
    requires |parts| >= 1
    ensures " " + Join(parts, [c, ' ']) == Join(Spaced(parts), [c])
    decreases |parts|
  {
    if |parts| > 1 {
      var tail := Join(parts[1..], [c, ' ']);
      JoinSpaced(parts[1..], c);
      assert Spaced(parts)[1..] == Spaced(parts[1..]);
      assert Join(parts, [c, ' ']) == parts[0] + [c, ' '] + tail;
      assert " " + (parts[0] + [c, ' '] + tail) == (" " + parts[0]) + [c] + (" " + tail);
    }
  }

  /** A `", "`-joined list is the `","`-join of its first label and the
      blank-prefixed others. */
  lemma CommaPieces(first: string, rest: seq<string>, c: char)
    ensures Join([first] + rest, [c, ' ']) == Join([first] + Spaced(rest), [c])
  {
    var labels := [first] + rest;
    var sp := Spaced(rest);
    var pieces := [first] + sp;
    if rest == [] {
      assert pieces == labels;
    } else {
      var tail := Join(rest, [c, ' ']);
      JoinSpaced(rest, c);
      assert labels[0] == first && labels[1..] == rest;
      assert pieces[0] == first && pieces[1..] == sp;
      assert Join(pieces, [c]) == first + [c] + Join(sp, [c]);
      assert Join(labels, [c, ' ']) == first + [c, ' '] + tail;
      assert first + [c, ' '] + tail == first + [c] + (" " + tail);
    }
  }

  /** A label that is not blank and neither starts nor ends with
      whitespace. */
  predicate SolidLabel(t: string) {
    t != [] && !IsSpace(t[0]) && !IsSpace(t[|t| - 1])
  }

  /** Trimming the pieces drops the blank after each comma again. */
  lemma {:induction false} LabelsOfSpaced(parts: seq<string>)
    requires forall k :: 0 <= k < |parts| ==> SolidLabel(parts[k])
    ensures Labels(Spaced(parts)) == parts
    decreases |parts|
  {
    if parts != [] {
      TrimLeadingBlank(parts[0]);
      LabelsOfSpaced(parts[1..]);
      assert Spaced(parts)[1..] == Spaced(parts[1..]);
    }
  }

  /** Splitting a `c`-and-blank-joined list at `c`, trimming and dropping
      blanks gives the labels back. */
  lemma LabelsOfCommaJoin(first: string, rest: seq<string>, c: char)
    requires c != ' ' && SolidLabel(first) && c !in first
    requires forall k :: 0 <= k < |rest| ==> SolidLabel(rest[k]) && c !in rest[k]
    ensures Labels(SplitOn(Join([first] + rest, [c, ' ']), c)) == [first] + rest
  {
    var sp := Spaced(rest);
    var pieces := [first] + sp;
    CommaPieces(first, rest, c);
    forall k | 0 <= k < |pieces| ensures c !in pieces[k] {
      if k > 0 {
        SpacedAt(rest, k - 1);
        assert pieces[k] == sp[k - 1];
      }
    }
    SplitOnJoin(pieces, c);
    TrimmedIsFixed(first);
    LabelsOfSpaced(rest);
    assert pieces[0] == first && pieces[1..] == sp;
    assert Labels(pieces) == [first] + Labels(sp);
    assert SplitOn(Join([first] + rest, [c, ' ']), c) == pieces;
  }

  lemma {:induction false} SpacedAt(parts: seq<string>, k: nat)
    requires k < |parts|
    ensures Spaced(parts)[k] == " " + parts[k]
    decreases k
  {
    if k > 0 {
      SpacedAt(parts[1..], k - 1);
    }
  }

  /** Reading the labels back from the order value: splitting at `,`,
      trimming and dropping blanks gives the labels written. */
  lemma TokensOfJoin(labels: seq<string>)
    requires |labels| >= 1
    requires forall k :: 0 <= k < |labels| ==> SolidLabel(labels[k]) && ',' !in labels[k]
    ensures Tokens(Join(labels, ", ")) == labels
  {
    var first, rest := labels[0], labels[1..];
    assert labels == [first] + rest;
    forall k | 0 <= k < |rest|
      ensures SolidLabel(rest[k]) && ',' !in rest[k]
    {
      assert rest[k] == labels[k + 1];
    }
    LabelsOfCommaJoin(first, rest, ',');
    assert [',', ' '] == ", ";
  }

  /** The titles of the slides the order names, in order, when every title
      is non-blank and trimmed. */
  lemma {:induction false} OrderLabelsOfTrimmed(order: seq<int>, slides: seq<Slide>)
    requires ValidIndices(order, |slides|)
    requires forall k :: 0 <= k < |slides| ==> slides[k].title != "" && Trim(slides[k].title) == slides[k].title
    ensures |OrderLabels(order, slides)| == |order|
    ensures forall k :: 0 <= k < |order| ==>
      0 <= order[k] < |slides| && OrderLabels(order, slides)[k] == slides[order[k]].title
    decreases |order|
  {
    if order != [] {
      var n := |order| - 1;
      var init := order[..n];
      assert order[n] in order;
      assert ValidIndices(init, |slides|) by {
        forall v | v in init ensures 0 <= v < |slides| {
          assert v in order;
        }
      }
      OrderLabelsOfTrimmed(init, slides);
      assert forall k :: 0 <= k < n ==> init[k] == order[k];
    }
  }

  /** No two slides share a title. */
  predicate DistinctTitles(slides: seq<Slide>) {
    forall j, k :: 0 <= j < k < |slides| ==> slides[j].title != slides[k].title
  }

  /** With distinct trimmed titles, a slide's title matches that slide
      alone. */
  lemma {:induction false} MatchesBelowOne(slides: seq<Slide>, i: nat, n: nat)
    requires i < |slides| && n <= |slides|
    requires DistinctTitles(slides)
    requires forall k :: 0 <= k < |slides| ==> Trim(slides[k].title) == slides[k].title
    ensures MatchesBelow(slides, slides[i].title, n) == if i < n then [i] else []
  {
    if n > 0 {
      MatchesBelowOne(slides, i, n - 1);
      var t, u := slides[i].title, slides[n - 1].title;
      assert Trim(t) == t && Trim(u) == u;
      if n - 1 < i {
        assert u != t;
      } else if i < n - 1 {
        assert t != u;
      }
      assert Carries(slides[n - 1], t) <==> n - 1 == i;
    }
  }

  /** Deriving the order from the titles of the slides it names gives the
      order back when titles are distinct. */
  lemma {:induction false} DerivedFromTitles(labels: seq<string>, order: seq<int>, slides: seq<Slide>)
    requires DistinctTitles(slides)
    requires forall k :: 0 <= k < |slides| ==> Trim(slides[k].title) == slides[k].title
    requires |labels| == |order|
    requires forall k :: 0 <= k < |order| ==> 0 <= order[k] < |slides| && labels[k] == slides[order[k]].title
    ensures DerivedFrom(labels, slides) == order
    decreases |order|
  {
    if order != [] {
      var n := |order| - 1;
      DerivedFromTitles(labels[..n], order[..n], slides);
      MatchesBelowOne(slides, order[n], |slides|);
      assert order == order[..n] + [order[n]];
    }
  }

  /** The order value read back names the order's slides: its tokens are
      their titles. */
  lemma OrderValueTokens(order: seq<int>, slides: seq<Slide>)
    requires |order| > 0 && ValidIndices(order, |slides|) && AllRereadable(slides)
    ensures |Tokens(Join(OrderLabels(order, slides), ", "))| == |order|
    ensures forall k :: 0 <= k < |order| ==>
      0 <= order[k] < |slides| && Tokens(Join(OrderLabels(order, slides), ", "))[k] == slides[order[k]].title
  {
    forall k | 0 <= k < |slides|
      ensures slides[k].title != "" && Trim(slides[k].title) == slides[k].title
    {
      TitleStartsWithLetter(slides[k].title);
    }
    var labels := OrderLabels(order, slides);
    OrderLabelsOfTrimmed(order, slides);
    forall k | 0 <= k < |labels| ensures SolidLabel(labels[k]) && ',' !in labels[k] {
      var t := slides[order[k]].title;
      TitleHasNoPunctuation(t);
      TrimShape(t);
    }
    TokensOfJoin(labels);
  }

  /** Saving in titled format and loading again gives the verse order back
      when the slides' titles are distinct: the order line is read back
      into the labels written, and each label names its slide alone. */
  lemma VerseOrderRoundTrip(fields: seq<Field>, order: seq<int>, slides: seq<Slide>)
    requires TitledSaveable(fields, order, slides)
    requires ValidIndices(order, |slides|) && DistinctTitles(slides)
    requires forall i :: 0 <= i < |fields| ==> CleanField(fields[i]) && fields[i].0 != "VerseOrder"
    requires DistinctIds(fields)
    ensures var doc := ParseText(SaveText(fields, order, slides, true));
      DerivedOrder(Lookup(doc.meta, "VerseOrder"), doc.slides, true) == order
  {
    forall k | 0 <= k < |slides| ensures QuietSlide(slides[k]) {
      RereadableIsQuiet(slides[k]);
    }
    var doc := ParseText(SaveText(fields, order, slides, true));
    TitledRoundTrip(fields, order, slides);
    MetaRoundTrip(fields, order, slides, true);
    assert doc.slides == slides;
    if order != [] {
      OrderFromValue(order, slides);
      assert Lookup(doc.meta, "VerseOrder") == Some(Join(OrderLabels(order, slides), ", "));
    } else {
      assert Lookup(doc.meta, "VerseOrder") == None;
    }
  }

  /** The order value the save handler writes derives the order back. */
  lemma OrderFromValue(order: seq<int>, slides: seq<Slide>)
    requires |order| > 0 && ValidIndices(order, |slides|) && AllRereadable(slides) && DistinctTitles(slides)
    ensures DerivedOrder(Some(Join(OrderLabels(order, slides), ", ")), slides, true) == order
  {
    OrderValueTokens(order, slides);
    var value := Join(OrderLabels(order, slides), ", ");
    var tokens := Tokens(value);
    assert value != "";
    assert forall k :: 0 <= k < |slides| ==> Trim(slides[k].title) == slides[k].title;
    DerivedFromTitles(tokens, order, slides);
  }

  /** The titled format reads a separator followed by a title line and
      nothing else as a slide with no content, and the save handler cannot
      write such a slide back: it reads the missing first content line. */
  lemma EmptyTitledSlideBlocksSave(lines: seq<string>, title: string)
    requires IsTitle(title) && Trim(title) == title
    requires lines == ["---", title]
    ensures IsTitledFormat(lines)
    ensures ParseLines(lines, true).slides == [Slide(title, [])]
    ensures !CanSave([], ParseLines(lines, true).slides, true)
  {
    SeparatorLine();
    assert Lookahead(lines) == title;
    TitleAhead(lines);
    assert IsTitle(Trim(lines[1]));
    var c := Cursor(map[], [], Some(Slide(title, [])));
    assert Step(lines, true, Start) == (2, c);
    assert lines[2..] == [];
    assert Scan(lines, true, Start) == c;
    assert Close(c) == [Slide(title, [])];
    TitleStartsWithLetter(title);
    var slides := [Slide(title, [])];
    assert !HasFirstLine(slides[0]);
    assert !AllHaveFirstLine(slides);
  }
}
