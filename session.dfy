// The editor's state and its operations: the slides (`allSlides`), the
// verse order (`verseOrder`) and the detected format (`isTitledFormat`),
// kept in script.js:29-31 and script-2.js:15-17 as globals that every
// handler updates in place.  Each method is the handler's loop or splice,
// proved against the specification functions of `Parser`, `Order` and
// `Serializer`.

module Editor {
  import opened Text
  import opened Titles
  import opened Song
  import opened Parser
  import opened Order
  import opened Serializer

  /** The format detector's loop: the first line whose trimmed text is a
      title decides, and the loop stops there. */
  method DetectFormat(lines: seq<string>) returns (titled: bool)
    ensures titled <==> IsTitledFormat(lines)
  {
    titled := false;
    var i := 0;
    while i < |lines|
      invariant 0 <= i <= |lines|
      invariant !IsTitledFormat(lines[..i])
    {
      if IsTitle(Trim(lines[i])) {
        TitleLineWitness(lines, i);
        titled := true;
        return;
      }
      NoTitleYet(lines, i);
      i := i + 1;
    }
    assert lines[..|lines|] == lines;
  }

  /** A title line anywhere makes the text titled. */
  lemma TitleLineWitness(lines: seq<string>, k: nat)
    requires k < |lines| && IsTitle(Trim(lines[k]))
    ensures IsTitledFormat(lines)
  {
  }

  /** A prefix without a title line, extended by a line that is not one,
      still has none. */
  lemma NoTitleYet(lines: seq<string>, i: nat)
    requires i < |lines| && !IsTitledFormat(lines[..i]) && !IsTitle(Trim(lines[i]))
    ensures !IsTitledFormat(lines[..i + 1])
  {
    var p := lines[..i + 1];
    forall k | 0 <= k < |p|
      ensures !IsTitle(Trim(p[k]))
    {
      if k < i {
        assert p[k] == lines[..i][k];
      }
    }
  }

  /** One turn of the line loop, in each of its cases: the scan from line
      `i` on equals the scan from the next unread line, from the cursor
      that turn leaves. */
  lemma ScanAdvance(lines: seq<string>, i: nat, titled: bool, c: Cursor, k: nat, c': Cursor)
    requires i < |lines| && Step(lines[i..], titled, c) == (k, c')
    ensures i + k <= |lines| && Scan(lines[i..], titled, c) == Scan(lines[i + k..], titled, c')
  {
    assert lines[i..][k..] == lines[i + k..];
  }

  lemma ScanMetaLine(lines: seq<string>, i: nat, titled: bool, c: Cursor)
    requires i < |lines| && IsMetaLine(lines[i])
    ensures var kv := ParseMetaLine(lines[i]);
      Scan(lines[i..], titled, c) == Scan(lines[i + 1..], titled, c.(meta := c.meta[kv.0 := kv.1]))
  {
    var kv := ParseMetaLine(lines[i]);
    ScanAdvance(lines, i, titled, c, 1, c.(meta := c.meta[kv.0 := kv.1]));
  }

  lemma ScanOpens(lines: seq<string>, i: nat, titled: bool, c: Cursor, title: string)
    requires i < |lines| && !IsMetaLine(lines[i]) && IsSeparator(lines[i])
    requires titled ==> IsTitle(Trim(Lookahead(lines[i..]))) && title == Trim(Lookahead(lines[i..]))
    requires !titled ==> title == ""
    ensures var k := if titled then 2 else 1;
      i + k <= |lines| && Scan(lines[i..], titled, c) == Scan(lines[i + k..], titled, Cursor(c.meta, Close(c), Some(Slide(title, []))))
  {
    ScanAdvance(lines, i, titled, c, if titled then 2 else 1, Cursor(c.meta, Close(c), Some(Slide(title, []))));
  }

  lemma ScanKeepsSeparator(lines: seq<string>, i: nat, c: Cursor)
    requires i < |lines| && !IsMetaLine(lines[i]) && IsSeparator(lines[i]) && !IsTitle(Trim(Lookahead(lines[i..])))
    ensures Scan(lines[i..], true, c) == Scan(lines[i + 1..], true,
      if c.open.Some? then c.(open := Some(c.open.value.(content := c.open.value.content + ["---"]))) else c)
  {
    ScanAdvance(lines, i, true, c, 1,
      if c.open.Some? then c.(open := Some(c.open.value.(content := c.open.value.content + ["---"]))) else c);
  }

  lemma ScanContent(lines: seq<string>, i: nat, titled: bool, c: Cursor)
    requires i < |lines| && !IsMetaLine(lines[i]) && !IsSeparator(lines[i])
    ensures Scan(lines[i..], titled, c) == Scan(lines[i + 1..], titled, c.(open := Some(AddContent(c.open, lines[i], titled))))
  {
    ScanAdvance(lines, i, titled, c, 1, c.(open := Some(AddContent(c.open, lines[i], titled))));
  }

  /** The field lines grow by at most one line per field. */
  lemma FieldLinesSnoc(fields: seq<Field>, i: nat)
    requires i < |fields|
    ensures FieldLines(fields[..i + 1])
      == FieldLines(fields[..i]) + (if Trim(fields[i].1) != "" then [FieldLine(fields[i])] else [])
  {
    assert fields[..i + 1][..i] == fields[..i];
  }

  /** The slides' lines grow by one slide's block per slide. */
  lemma SlidesLinesSnoc(slides: seq<Slide>, k: nat)
    requires k < |slides| && AllHaveFirstLine(slides)
    ensures AllHaveFirstLine(slides[..k]) && AllHaveFirstLine(slides[..k + 1])
    ensures SlidesLines(slides[..k + 1]) == SlidesLines(slides[..k]) + SlideLines(slides[k])
  {
    assert slides[..k + 1][..k] == slides[..k];
  }

  /** The attribute loop of the save handler: one `#id=value` line per
      field whose trimmed value is not empty, in field order. */
  method WriteFields(fields: seq<Field>) returns (lines: seq<string>)
    ensures lines == FieldLines(fields)
  {
    lines := [];
    var i := 0;
    while i < |fields|
      invariant 0 <= i <= |fields|
      invariant lines == FieldLines(fields[..i])
    {
      var f := fields[i];
      FieldLinesSnoc(fields, i);
      if Trim(f.1) != "" {
        lines := lines + ["#" + f.0 + "=" + Trim(f.1)];
      }
      i := i + 1;
    }
    assert fields[..|fields|] == fields;
  }

  /** The slide loop of the save handler: per slide a separator, the title
      unless the first content line already starts with it, then the
      content lines. */
  method WriteSlides(slides: seq<Slide>) returns (lines: seq<string>)
    requires AllHaveFirstLine(slides)
    ensures lines == SlidesLines(slides)
  {
    lines := [];
    var k := 0;
    while k < |slides|
      invariant 0 <= k <= |slides|
      invariant AllHaveFirstLine(slides[..k])
      invariant lines == SlidesLines(slides[..k])
    {
      var s := slides[k];
      SlidesLinesSnoc(slides, k);
      lines := lines + ["---"];
      if s.title != "" && !StartsWith(s.content[0], s.title) {
        lines := lines + [s.title];
      }
      lines := lines + s.content;
      k := k + 1;
    }
    assert slides[..|slides|] == slides;
  }

  /** The two nested loops of `renderOrderFromVerseOrder`: for each label
      in turn, the index of every slide whose trimmed title equals the
      trimmed label, in storage order. */
  method CollectMatches(labels: seq<string>, slides: seq<Slide>) returns (order: seq<int>)
    ensures order == DerivedFrom(labels, slides)
  {
    order := [];
    var t := 0;
    while t < |labels|
      invariant 0 <= t <= |labels|
      invariant order == DerivedFrom(labels[..t], slides)
    {
      var j := 0;
      while j < |slides|
        invariant 0 <= j <= |slides|
        invariant order == DerivedFrom(labels[..t], slides) + MatchesBelow(slides, labels[t], j)
      {
        if Trim(slides[j].title) == Trim(labels[t]) {
          order := order + [j];
        }
        j := j + 1;
      }
      DerivedFromSnoc(labels, t, slides);
      t := t + 1;
    }
    assert labels[..|labels|] == labels;
  }

  /** The outer loop's order grows by one label's matches per label. */
  lemma DerivedFromSnoc(labels: seq<string>, t: nat, slides: seq<Slide>)
    requires t < |labels|
    ensures DerivedFrom(labels[..t + 1], slides) == DerivedFrom(labels[..t], slides) + Matches(slides, labels[t])
  {
    assert labels[..t + 1][..t] == labels[..t];
  }

  /** The line loop of `parseSNG` on already split lines and a known
      format, and the final push of the open slide. */
  method ParseLinesLoop(lines: seq<string>, titled: bool) returns (meta: map<string, string>, done: seq<Slide>)
    ensures Document(meta, done) == ParseLines(lines, titled)
  {
    meta := map[];
    done := [];
    var current: Option<Slide> := None;
    var i := 0;
    ghost var goal := Scan(lines, titled, Start);
    assert lines[0..] == lines;
    while i < |lines|
      invariant 0 <= i <= |lines|
      invariant Scan(lines[i..], titled, Cursor(meta, done, current)) == goal
      decreases |lines| - i
    {
      ghost var c := Cursor(meta, done, current);
      var line := lines[i];
      if IsMetaLine(line) {
        ScanMetaLine(lines, i, titled, c);
        var kv := ParseMetaLine(line);
        meta := meta[kv.0 := kv.1];
        i := i + 1;
      } else if IsSeparator(line) {
        if titled {
          var next := if i + 1 < |lines| then lines[i + 1] else "";
          assert next == Lookahead(lines[i..]);
          if IsTitle(Trim(next)) {
            ScanOpens(lines, i, titled, c, Trim(next));
            if current.Some? {
              done := done + [current.value];
            }
            assert done == Close(c);
            current := Some(Slide(Trim(next), []));
            i := i + 2;
          } else {
            ScanKeepsSeparator(lines, i, c);
            if current.Some? {
              current := Some(current.value.(content := current.value.content + ["---"]));
            }
            i := i + 1;
          }
        } else {
          ScanOpens(lines, i, titled, c, "");
          if current.Some? {
            done := done + [current.value];
          }
          assert done == Close(c);
          current := Some(Slide("", []));
          i := i + 1;
        }
      } else {
        ScanContent(lines, i, titled, c);
        var cur := if current.Some? then current.value else Slide("", []);
        if !titled && |cur.content| == 0 && Trim(line) != "" {
          cur := cur.(title := Trim(line));
        }
        cur := cur.(content := cur.content + [line]);
        current := Some(cur);
        i := i + 1;
      }
    }
    assert lines[i..] == [];
    assert goal == Cursor(meta, done, current);
    if current.Some? {
      done := done + [current.value];
    }
  }

  /** `renderOrderList`'s loop over the order: it reaches the end exactly
      when every entry names one of the `n` slides, and throws at the first
      entry that does not. */
  method RendersOrder(order: seq<int>, n: nat) returns (ok: bool)
    ensures ok <==> ValidIndices(order, n)
  {
    var idx := 0;
    while idx < |order|
      invariant 0 <= idx <= |order|
      invariant forall k :: 0 <= k < idx ==> 0 <= order[k] < n
    {
      if !(0 <= order[idx] < n) {
        assert order[idx] in order;
        return false;
      }
      idx := idx + 1;
    }
    return true;
  }

  /** A state whose order entries all name slides can be saved in titled
      format when every slide has content, and in untitled format when
      each slide is titled by its first line, as an untitled load leaves
      it. */
  lemma ValidCanSave(order: seq<int>, slides: seq<Slide>, titled: bool)
    requires ValidIndices(order, |slides|)
    requires titled ==> forall k :: 0 <= k < |slides| ==> slides[k].content != []
    requires !titled ==> UntitledTitles(slides)
    ensures CanSave(order, slides, titled)
  {
    forall k | 0 <= k < |slides| ensures HasFirstLine(slides[k]) {
      if !titled {
        assert slides[k].title == UntitledTitle(slides[k].content);
      }
    }
  }

  class Session {
    var slides: seq<Slide>
    var order: seq<int>
    var titled: bool

    /** Every order entry names a slide: what the order list needs to
        render each entry's title. */
    predicate Valid()
      reads this
    {
      ValidIndices(order, |slides|)
    }

    /** The state before any text is loaded. */
    constructor ()
      ensures slides == [] && order == [] && !titled
      ensures Valid()
    {
      slides := [];
      order := [];
      titled := false;
    }

    /** `parseSNG`: split the text into lines, detect the format, run the
        line loop, push the last open slide, then derive the order from
        `#VerseOrder`.  Returns the metadata read.  Before deriving, the
        slides are rendered together with the order list of the previous
        song; when an entry of that order names no new slide, rendering
        throws a `TypeError` and the load stops (`ok` false) with the new
        slides and flag but the old order. */
    method Load(text: string) returns (meta: map<string, string>, ok: bool)
      modifies this
      ensures titled == IsTitledFormat(SplitLines(text))
      ensures meta == ParseText(text).meta && slides == ParseText(text).slides
      ensures ok <==> ValidIndices(old(order), |slides|)
      ensures ok ==> order == DerivedOrder(Lookup(meta, "VerseOrder"), slides, titled) && Valid()
      ensures !ok ==> order == old(order) && !Valid()
      ensures ok && !titled ==> CanSave(order, slides, titled)
    {
      var lines := SplitLines(text);
      titled := DetectFormat(lines);
      meta, slides := ParseLinesLoop(lines, titled);
      ok := RendersOrder(order, |slides|);
      if !ok {
        return;
      }
      DeriveOrder(Lookup(meta, "VerseOrder"));
      if !titled {
        ParsedUntitled(lines);
        ValidCanSave(order, slides, titled);
      }
    }

    /** `renderOrderFromVerseOrder`: for each label of the header, in
        order, every slide carrying it, in storage order. */
    method DeriveOrder(orderStr: Option<string>)
      modifies this
      ensures slides == old(slides) && titled == old(titled)
      ensures order == DerivedOrder(orderStr, slides, titled)
      ensures Valid()
    {
      DerivedOrderValid(orderStr, slides, titled);
      order := [];
      if orderStr.None? || orderStr.value == "" || !titled {
        return;
      }
      order := CollectMatches(Tokens(orderStr.value), slides);
    }

    /** The remove button: `verseOrder.splice(idx, 1)`. */
    method RemoveFromOrder(idx: nat)
      modifies this
      ensures slides == old(slides) && titled == old(titled)
      ensures order == RemoveAt(old(order), idx)
      ensures idx < |old(order)| ==> multiset(order) == multiset(old(order)) - multiset{old(order)[idx]}
      ensures old(Valid()) ==> Valid()
    {
      if idx < |order| {
        RemoveAtSpec(order, idx);
      }
      if Valid() {
        RemoveKeepsValid(order, |slides|, idx);
      }
      if idx < |order| {
        order := order[..idx] + order[idx + 1..];
      }
    }

    /** Dropping an order entry onto the order list: take it out at `from`,
        then insert it before entry `to` (`to` counted before the removal)
        or, dropped outside any entry (`to < 0`), append it. */
    method MoveWithinOrder(from: nat, to: int)
      requires from < |order|
      modifies this
      ensures slides == old(slides) && titled == old(titled)
      ensures order == Moved(old(order), from, to)
      ensures multiset(order) == multiset(old(order))
      ensures NoDuplicates(old(order)) ==> NoDuplicates(order)
      ensures old(Valid()) ==> Valid()
    {
      MovedIsPermutation(order, from, to);
      if NoDuplicates(order) {
        MovedKeepsNoDuplicates(order, from, to);
      }
      if Valid() {
        MovedKeepsValid(order, |slides|, from, to);
      }
      var moved := order[from];
      order := order[..from] + order[from + 1..];
      if to >= 0 {
        order := InsertAt(order, to, moved);
      } else {
        order := order + [moved];
      }
    }

    /** Dropping a slide onto the order list: a parsed index (`None` when
        the drag data is not a number) that is not yet in the order is
        inserted before entry `to`, or appended when `to < 0`. */
    method AddToOrder(slideIndex: Option<int>, to: int)
      modifies this
      ensures slides == old(slides) && titled == old(titled)
      ensures order == WithAdded(old(order), slideIndex, to)
      ensures NoDuplicates(old(order)) ==> NoDuplicates(order)
      ensures old(Valid()) && (slideIndex.Some? ==> 0 <= slideIndex.value < |slides|) ==> Valid()
    {
      if NoDuplicates(order) {
        WithAddedKeepsNoDuplicates(order, slideIndex, to);
      }
      if Valid() && (slideIndex.Some? ==> 0 <= slideIndex.value < |slides|) {
        WithAddedKeepsValid(order, |slides|, slideIndex, to);
      }
      if slideIndex.Some? && slideIndex.value !in order {
        if to >= 0 {
          order := InsertAt(order, to, slideIndex.value);
        } else {
          order := order + [slideIndex.value];
        }
      }
    }

    /** Typing into a title field: the slide at index `i`, if there is
        one, takes the new title verbatim; nothing else changes. */
    method EditTitle(i: int, title: string)
      modifies this
      ensures order == old(order) && titled == old(titled)
      ensures |slides| == |old(slides)|
      ensures forall k :: 0 <= k < |slides| && k != i ==> slides[k] == old(slides)[k]
      ensures 0 <= i < |slides| ==> slides[i] == Slide(title, old(slides)[i].content)
      ensures !(0 <= i < |old(slides)|) ==> slides == old(slides)
      ensures old(Valid()) ==> Valid()
    {
      if 0 <= i < |slides| {
        slides := slides[i := slides[i].(title := title)];
      }
    }

    /** The add-slide button: a slide titled "Neue Folie" with one empty
        line is appended; existing slides and the order stay. */
    method AddSlide()
      modifies this
      ensures order == old(order) && titled == old(titled)
      ensures slides == old(slides) + [Slide("Neue Folie", [""])]
      ensures old(Valid()) ==> Valid()
    {
      slides := slides + [Slide("Neue Folie", [""])];
    }

    /** The save handler's text: the field lines, the order line, then each
        slide's block, joined with `\n`.  It changes nothing. */
    method Serialize(fields: seq<Field>) returns (text: string)
      requires CanSave(order, slides, titled)
      ensures text == SaveText(fields, order, slides, titled)
    {
      var lines := WriteFields(fields);
      if titled && |order| > 0 {
        lines := lines + ["#VerseOrder=" + Join(OrderLabels(order, slides), ", ")];
      }
      assert lines == FieldLines(fields) + OrderLines(order, slides, titled);
      var blocks := WriteSlides(slides);
      lines := lines + blocks;
      assert lines == SaveLines(fields, order, slides, titled);
      text := Join(lines, "\n");
    }
  }
}
