// Worked texts for the SNG editor: what `parseSNG` makes of a small
// untitled song, of a titled song with a separator that opens nothing, and
// of a titled song with a `#VerseOrder` header, which the save handler
// writes back line for line.

module Scenarios {
  import opened Text
  import opened Titles
  import opened Song
  import opened Parser
  import opened Order
  import opened Serializer
  import opened Editor

  /** A string whose first character is no keyword initial is not a
      title. */
  lemma NotTitleByInitial(s: string)
    requires s == [] || var c := Lower(s[0]); c != 'v' && c != 'c' && c != 'p' && c != 'b' && c != 'e'
    ensures !IsTitle(s)
  {
    if IsTitle(s) {
      TitleInitial(s);
    }
  }

  /** An untitled song ending in a line break: the text splits into its
      five lines, the last one empty, and none of them is a title. */
  lemma UntitledSongLines(lines: seq<string>, text: string)
    requires lines == ["Hello", "World", "---", "Foo", ""]
    requires text == Join(lines, "\n")
    ensures SplitLines(text) == lines
    ensures !IsTitledFormat(lines)
  {
    forall k | 0 <= k < |lines| ensures SplitSafe(lines[k]) {
    }
    SplitLinesJoin(lines);
    forall k | 0 <= k < |lines| ensures !IsTitle(Trim(lines[k])) {
      TrimmedIsFixed(lines[k]);
      NotTitleByInitial(lines[k]);
    }
  }

  /** The untitled song's slides: a line that is not blank titles the slide
      it opens, `---` opens an untitled slide, and the empty line after the
      final break is kept as the last slide's last content line. */
  lemma UntitledSong(lines: seq<string>, text: string)
    requires lines == ["Hello", "World", "---", "Foo", ""]
    requires text == Join(lines, "\n")
    ensures ParseText(text) == Document(map[], [Slide("Hello", ["Hello", "World"]), Slide("Foo", ["Foo", ""])])
  {
    UntitledSongLines(lines, text);
    assert ParseText(text) == ParseLines(lines, false);
    TrimmedIsFixed("Hello");
    TrimmedIsFixed("Foo");
    assert !IsMetaLine("Hello") && !IsSeparator("Hello");
    assert !IsMetaLine("World") && !IsSeparator("World");
    assert !IsMetaLine("Foo") && !IsSeparator("Foo");
    UntitledSongScan("Hello", "World", "Foo");
  }

  /** In untitled format, a line that is not blank opens a slide titled by
      it when no slide is open. */
  lemma ScanFirstLine(line: string, rest: seq<string>, c: Cursor)
    requires !IsMetaLine(line) && !IsSeparator(line) && Trim(line) == line != ""
    requires c.open == None || c.open == Some(Slide("", []))
    ensures Scan([line] + rest, false, c) == Scan(rest, false, c.(open := Some(Slide(line, [line]))))
  {
    assert ([line] + rest)[1..] == rest;
    assert AddContent(c.open, line, false) == Slide(line, [line]);
  }

  /** A line after the first one of a slide is appended to it. */
  lemma ScanNextLine(line: string, rest: seq<string>, c: Cursor)
    requires !IsMetaLine(line) && !IsSeparator(line)
    requires c.open.Some? && c.open.value.content != []
    ensures Scan([line] + rest, false, c)
      == Scan(rest, false, c.(open := Some(c.open.value.(content := c.open.value.content + [line]))))
  {
    assert ([line] + rest)[1..] == rest;
    assert AddContent(c.open, line, false) == c.open.value.(content := c.open.value.content + [line]);
  }

  /** A separator in untitled format, in front of the remaining lines. */
  lemma ScanUntitledSeparator(rest: seq<string>, c: Cursor)
    ensures Scan(["---"] + rest, false, c) == Scan(rest, false, Cursor(c.meta, Close(c), Some(Slide("", []))))
  {
    SeparatorLine();
    assert (["---"] + rest)[1..] == rest;
  }

  /** The untitled song's first slide: two lines, then the separator. */
  lemma UntitledSongFirst(x: string, y: string, rest: seq<string>)
    requires !IsMetaLine(x) && !IsSeparator(x) && Trim(x) == x != ""
    requires !IsMetaLine(y) && !IsSeparator(y)
    ensures Scan([x] + ([y] + (["---"] + rest)), false, Start)
      == Scan(rest, false, Cursor(map[], [Slide(x, [x, y])], Some(Slide("", []))))
  {
    var c1 := Cursor(map[], [], Some(Slide(x, [x])));
    var c2 := Cursor(map[], [], Some(Slide(x, [x, y])));
    assert Start.(open := Some(Slide(x, [x]))) == c1;
    ScanFirstLine(x, [y] + (["---"] + rest), Start);
    assert [x] + [y] == [x, y];
    assert c1.(open := Some(c1.open.value.(content := c1.open.value.content + [y]))) == c2;
    ScanNextLine(y, ["---"] + rest, c1);
    assert Close(c2) == [Slide(x, [x, y])];
    ScanUntitledSeparator(rest, c2);
  }

  /** The shape of the untitled song, for any first lines of its two
      slides that are not blank and any second line of the first. */
  lemma UntitledSongScan(x: string, y: string, z: string)
    requires !IsMetaLine(x) && !IsSeparator(x) && Trim(x) == x != ""
    requires !IsMetaLine(y) && !IsSeparator(y)
    requires !IsMetaLine(z) && !IsSeparator(z) && Trim(z) == z != ""
    ensures ParseLines([x, y, "---", z, ""], false) == Document(map[], [Slide(x, [x, y]), Slide(z, [z, ""])])
  {
    var r4: seq<string> := [""];
    var r3 := [z] + r4;
    assert [x] + ([y] + (["---"] + r3)) == [x, y, "---", z, ""];
    UntitledSongFirst(x, y, r3);
    var first := Slide(x, [x, y]);
    var c3 := Cursor(map[], [first], Some(Slide("", [])));
    var c4 := Cursor(map[], [first], Some(Slide(z, [z])));
    var c5 := Cursor(map[], [first], Some(Slide(z, [z, ""])));
    assert c3.(open := Some(Slide(z, [z]))) == c4;
    ScanFirstLine(z, r4, c3);
    assert [z] + [""] == [z, ""];
    assert c4.(open := Some(c4.open.value.(content := c4.open.value.content + [""]))) == c5;
    ScanNextLine("", [], c4);
    assert r4 == [""] + [];
    assert Scan([], false, c5) == c5;
    assert Close(c5) == [first, Slide(z, [z, ""])];
  }

  /** `Vers 1` is a title: the keyword `vers`, a blank and a digit. */
  lemma VersOne(t: string)
    requires t == "Vers 1"
    ensures IsTitle(t) && Trim(t) == t
  {
    assert SpellsCI(t[..4], "vers");
    assert t[4..][1..] == "1";
    assert MatchesKeyword(t, 0);
    KeywordGivesTitleFrom(t, 0, 0);
    TrimmedIsFixed(t);
  }

  /** In titled format a separator not followed by a title stays in the
      open slide as a content line. */
  lemma ScanKeptSeparator(rest: seq<string>, c: Cursor)
    requires c.open.Some? && !IsTitle(Trim(Lookahead(["---"] + rest)))
    ensures Scan(["---"] + rest, true, c)
      == Scan(rest, true, c.(open := Some(c.open.value.(content := c.open.value.content + ["---"]))))
  {
    SeparatorLine();
    assert (["---"] + rest)[1..] == rest;
  }

  /** A titled song's first separator and title line open its first
      slide. */
  lemma TitledOpening(t: string, rest: seq<string>)
    requires IsTitle(t) && Trim(t) == t
    ensures Scan(["---", t] + rest, true, Start) == Scan(rest, true, Cursor(map[], [], Some(Slide(t, []))))
  {
    var lines := ["---", t] + rest;
    assert lines[0] == "---" && lines[1] == t && lines[2..] == rest;
    ScanOpensTitled(lines, Start);
  }

  /** In titled format a plain line is appended to the open slide. */
  lemma ScanTitledLine(line: string, rest: seq<string>, meta: map<string, string>, t: string, content: seq<string>)
    requires PlainLine(line)
    ensures Scan([line] + rest, true, Cursor(meta, [], Some(Slide(t, content))))
      == Scan(rest, true, Cursor(meta, [], Some(Slide(t, content + [line]))))
  {
    ScanPlainLine([line] + rest, Cursor(meta, [], Some(Slide(t, content))));
    assert ([line] + rest)[1..] == rest;
  }

  /** After the first slide opened: a separator before a line that is no
      title, that line and an empty one all land in the open slide. */
  lemma DanglingTail(t: string, n: string)
    requires PlainLine(n) && !IsTitle(Trim(n))
    ensures Scan(["---"] + ([n] + [""]), true, Cursor(map[], [], Some(Slide(t, []))))
      == Cursor(map[], [], Some(Slide(t, ["---", n, ""])))
  {
    var c1 := Cursor(map[], [], Some(Slide(t, [])));
    assert Lookahead(["---"] + ([n] + [""])) == n;
    ScanKeptSeparator([n] + [""], c1);
    assert [] + ["---"] == ["---"];
    ScanTitledLine(n, [""], map[], t, ["---"]);
    assert ["---"] + [n] == ["---", n];
    ScanTitledLine("", [], map[], t, ["---", n]);
    assert ["---", n] + [""] == ["---", n, ""];
  }

  /** The shape of a titled song whose second separator is followed by a
      line that is no title. */
  lemma DanglingSeparatorScan(t: string, n: string)
    requires IsTitle(t) && Trim(t) == t
    requires PlainLine(n) && !IsTitle(Trim(n))
    ensures ParseLines(["---", t, "---", n, ""], true) == Document(map[], [Slide(t, ["---", n, ""])])
  {
    var r1 := ["---"] + ([n] + [""]);
    assert ["---", t] + r1 == ["---", t, "---", n, ""];
    TitledOpening(t, r1);
    DanglingTail(t, n);
    var c4 := Cursor(map[], [], Some(Slide(t, ["---", n, ""])));
    assert Close(c4) == [Slide(t, ["---", n, ""])];
  }

  /** The titled song with a dangling separator splits into its five
      lines, and `Vers 1` makes it titled. */
  lemma DanglingSeparatorLines(lines: seq<string>, text: string)
    requires lines == ["---", "Vers 1", "---", "NotATitle", ""]
    requires text == Join(lines, "\n")
    ensures SplitLines(text) == lines && IsTitledFormat(lines)
  {
    forall k | 0 <= k < |lines| ensures SplitSafe(lines[k]) {
    }
    SplitLinesJoin(lines);
    VersOne("Vers 1");
    TitleLineWitness(lines, 1);
  }

  /** A separator followed by `NotATitle` in a titled song opens no slide:
      it is kept, with the line after it, in the slide `Vers 1` opened. */
  lemma DanglingSeparator(lines: seq<string>, text: string)
    requires lines == ["---", "Vers 1", "---", "NotATitle", ""]
    requires text == Join(lines, "\n")
    ensures ParseText(text) == Document(map[], [Slide("Vers 1", ["---", "NotATitle", ""])])
  {
    DanglingSeparatorLines(lines, text);
    assert ParseText(text) == ParseLines(lines, true);
    VersOne("Vers 1");
    TrimmedIsFixed("NotATitle");
    NotTitleByInitial("NotATitle");
    assert PlainLine("NotATitle");
    DanglingSeparatorScan("Vers 1", "NotATitle");
  }

  /** The slide blocks of two titled one-line slides whose line does not
      begin with the title: each block writes its title. */
  lemma TwoSlideLines(s1: Slide, s2: Slide)
    requires |s1.content| == 1 && s1.title != "" && !StartsWith(s1.content[0], s1.title)
    requires |s2.content| == 1 && s2.title != "" && !StartsWith(s2.content[0], s2.title)
    ensures AllHaveFirstLine([s1, s2])
    ensures SlidesLines([s1, s2]) == ["---", s1.title, s1.content[0], "---", s2.title, s2.content[0]]
  {
    var slides := [s1, s2];
    assert AllHaveFirstLine(slides);
    assert slides[..1] == [s1] && [s1][..0] == [];
    var a := ["---", s1.title, s1.content[0]];
    var b := ["---", s2.title, s2.content[0]];
    assert SlideLines(s1) == a by {
      assert s1.content == [s1.content[0]];
    }
    assert SlideLines(s2) == b by {
      assert s2.content == [s2.content[0]];
    }
    assert SlidesLines([s1]) == a;
    assert SlidesLines(slides) == a + b;
  }

  /** The order `[0, 1]` over two slides with clean titles is written as
      the two titles. */
  lemma TwoSlideLabels(s1: Slide, s2: Slide)
    requires IsCleanTitle(s1.title) && IsCleanTitle(s2.title)
    ensures ValidIndices([0, 1], 2)
    ensures Join(OrderLabels([0, 1], [s1, s2]), ", ") == s1.title + ", " + s2.title
  {
    var slides := [s1, s2];
    TitleStartsWithLetter(s1.title);
    TitleStartsWithLetter(s2.title);
    assert [0, 1][..1] == [0] && [0][..0] == [];
    assert OrderLabels([0], slides) == [s1.title];
    assert OrderLabels([0, 1], slides) == [s1.title, s2.title];
    assert [s1.title, s2.title][1..] == [s2.title];
  }

  /** What the save handler writes for two titled one-line slides,
      played in storage order, with no attribute fields: the order line,
      then each slide's separator, title and line. */
  lemma TwoSlideSave(t1: string, l1: string, t2: string, l2: string)
    requires IsCleanTitle(t1) && !StartsWith(l1, t1)
    requires IsCleanTitle(t2) && !StartsWith(l2, t2)
    ensures var slides := [Slide(t1, [l1]), Slide(t2, [l2])];
      && CanSave([0, 1], slides, true)
      && Join(OrderLabels([0, 1], slides), ", ") == t1 + ", " + t2
      && SaveLines([], [0, 1], slides, true) == ["#VerseOrder=" + (t1 + ", " + t2), "---", t1, l1, "---", t2, l2]
  {
    var slides := [Slide(t1, [l1]), Slide(t2, [l2])];
    TitleStartsWithLetter(t1);
    TitleStartsWithLetter(t2);
    TwoSlideLines(slides[0], slides[1]);
    TwoSlideLabels(slides[0], slides[1]);
    assert FieldLines([]) == [];
    assert OrderLines([0, 1], slides, true) == ["#VerseOrder=" + (t1 + ", " + t2)];
  }

  /** A slide with a clean title and one plain line that does not begin
      with its first letter can be written and read back. */
  lemma OneLineSlideRereadable(t: string, l: string)
    requires IsCleanTitle(t) && SplitSafe(t)
    requires l != [] && l[0] != '#' && l[0] != '-' && SplitSafe(l)
    requires t != [] && l[0] != t[0]
    ensures Rereadable(Slide(t, [l]))
  {
    assert !IsMetaLine(l) by {
      assert l[..1][0] == l[0] && "#"[0] == '#';
    }
    assert !IsSeparator(l) by {
      if 3 <= |l| {
        assert l[..3][0] == l[0] && "---"[0] == '-';
      }
    }
    assert !StartsWith(l, t) by {
      if |t| <= |l| {
        assert l[..|t|][0] == l[0];
      }
    }
  }

  lemma VersOneSlide(t: string, l: string)
    requires t == "Vers 1" && l == "Line one"
    ensures Rereadable(Slide(t, [l]))
  {
    VersOne(t);
    assert SplitSafe(t) && SplitSafe(l);
    OneLineSlideRereadable(t, l);
  }

  lemma ChorusSlide(t: string, l: string)
    requires t == "Chorus" && l == "Line two"
    ensures Rereadable(Slide(t, [l]))
  {
    TitleExamples();
    TrimmedIsFixed(t);
    assert SplitSafe(t) && SplitSafe(l);
    OneLineSlideRereadable(t, l);
  }

  /** Two rereadable one-line slides with different titles, saved with
      the order `[0, 1]`, read back as the same slides, with a
      `#VerseOrder` header listing both titles that derives `[0, 1]`
      again. */
  lemma TwoSlideSong(t1: string, l1: string, t2: string, l2: string)
    requires Rereadable(Slide(t1, [l1])) && Rereadable(Slide(t2, [l2])) && t1 != t2
    ensures var slides := [Slide(t1, [l1]), Slide(t2, [l2])];
      CanSave([0, 1], slides, true) &&
      var doc := ParseText(SaveText([], [0, 1], slides, true));
      && IsTitledFormat(SplitLines(SaveText([], [0, 1], slides, true)))
      && doc.slides == slides
      && Lookup(doc.meta, "VerseOrder") == Some(t1 + ", " + t2)
      && DerivedOrder(Lookup(doc.meta, "VerseOrder"), doc.slides, true) == [0, 1]
  {
    var slides := [Slide(t1, [l1]), Slide(t2, [l2])];
    TwoSlideSave(t1, l1, t2, l2);
    assert AllRereadable(slides);
    assert DistinctTitles(slides);
    assert TitledSaveable([], [0, 1], slides);
    TitledRoundTrip([], [0, 1], slides);
    RereadableIsQuiet(slides[0]);
    RereadableIsQuiet(slides[1]);
    MetaRoundTrip([], [0, 1], slides, true);
    VerseOrderRoundTrip([], [0, 1], slides);
  }

  /** The header line of the titled song, as the save handler spells it. */
  lemma HeaderSpelling()
    ensures "Vers 1" + ", " + "Chorus" == "Vers 1, Chorus"
    ensures "#VerseOrder=" + ("Vers 1" + ", " + "Chorus") == "#VerseOrder=Vers 1, Chorus"
  {
  }

  /** The titled song with the header `#VerseOrder=Vers 1, Chorus` reads
      as two slides titled `Vers 1` and `Chorus` whose order is `[0, 1]`;
      saved with that order and no attribute fields, it is written back as
      the very same text. */
  lemma VerseOrderSong(lines: seq<string>, text: string, slides: seq<Slide>)
    requires lines == ["#VerseOrder=Vers 1, Chorus", "---", "Vers 1", "Line one", "---", "Chorus", "Line two"]
    requires text == Join(lines, "\n")
    requires slides == [Slide("Vers 1", ["Line one"]), Slide("Chorus", ["Line two"])]
    ensures CanSave([0, 1], slides, true) && SaveText([], [0, 1], slides, true) == text
    ensures IsTitledFormat(SplitLines(text))
    ensures ParseText(text).slides == slides
    ensures Lookup(ParseText(text).meta, "VerseOrder") == Some("Vers 1, Chorus")
    ensures DerivedOrder(Lookup(ParseText(text).meta, "VerseOrder"), ParseText(text).slides, true) == [0, 1]
  {
    VersOneSlide("Vers 1", "Line one");
    ChorusSlide("Chorus", "Line two");
    assert "Vers 1"[0] != "Chorus"[0];
    TwoSlideSave("Vers 1", "Line one", "Chorus", "Line two");
    TwoSlideSong("Vers 1", "Line one", "Chorus", "Line two");
    HeaderSpelling();
    assert SaveLines([], [0, 1], slides, true) == lines;
  }
}
