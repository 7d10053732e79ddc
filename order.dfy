// The verse order of the SNG editor: its derivation from the `#VerseOrder`
// header (`renderOrderFromVerseOrder`, script.js:122-134) and the edits the
// order list allows (remove, move, add; script.js:148-151, 171-190).  The
// order is a list of slide indices; the edits are `Array.prototype.splice`
// and `push` on it.

module Order {
  import opened Text
  import opened Song

  // ---------------------------------------------------------------------
  // Derivation from `#VerseOrder`

  /** `orderStr.split(',').map(s => s.trim()).filter(Boolean)` on the pieces
      of the split. */
  function Labels(pieces: seq<string>): seq<string>
    decreases |pieces|
  {
    if pieces == [] then []
    else (if Trim(pieces[0]) != "" then [Trim(pieces[0])] else []) + Labels(pieces[1..])
  }

  /** The labels of a `#VerseOrder` value: its comma-separated items,
      trimmed, blank ones dropped. */
  function Tokens(orderStr: string): seq<string> {
    Labels(SplitOn(orderStr, ','))
  }

  /** `slide.title.trim() === label.trim()` */
  predicate Carries(slide: Slide, wanted: string) {
    Trim(slide.title) == Trim(wanted)
  }

  /** The indices below `n` of the slides carrying the label `wanted`, in
      ascending order: the inner `forEach` after `n` slides. */
  function MatchesBelow(slides: seq<Slide>, wanted: string, n: nat): seq<int>
    requires n <= |slides|
  {
    if n == 0 then []
    else MatchesBelow(slides, wanted, n - 1) + (if Carries(slides[n - 1], wanted) then [n - 1] else [])
  }

  /** The indices the inner loop pushes for one label. */
  function Matches(slides: seq<Slide>, wanted: string): seq<int> {
    MatchesBelow(slides, wanted, |slides|)
  }

  /** The order after the outer loop has handled `labels`. */
  function DerivedFrom(labels: seq<string>, slides: seq<Slide>): seq<int>
    decreases |labels|
  {
    if labels == [] then []
    else DerivedFrom(labels[..|labels| - 1], slides) + Matches(slides, labels[|labels| - 1])
  }

  /** The order `renderOrderFromVerseOrder` builds: empty when the header is
      missing or empty or the text is untitled, otherwise, label by label,
      every slide carrying that title. */
  function DerivedOrder(orderStr: Option<string>, slides: seq<Slide>, titled: bool): seq<int> {
    if orderStr.None? || orderStr.value == "" || !titled then []
    else DerivedFrom(Tokens(orderStr.value), slides)
  }

  /** What one label contributes: every index of a slide carrying it... */
  lemma {:induction false} MatchesBelowMembers(slides: seq<Slide>, wanted: string, n: nat)
    requires n <= |slides|
    ensures forall k :: k in MatchesBelow(slides, wanted, n) <==> 0 <= k < n && Carries(slides[k], wanted)
  {
    if n > 0 {
      MatchesBelowMembers(slides, wanted, n - 1);
      var m := MatchesBelow(slides, wanted, n - 1);
      var e := if Carries(slides[n - 1], wanted) then [n - 1] else [];
      assert MatchesBelow(slides, wanted, n) == m + e;
      forall k ensures k in m + e <==> k in m || k in e {
      }
    }
  }

  /** ... each once, in ascending order. */
  lemma {:induction false} MatchesBelowAscending(slides: seq<Slide>, wanted: string, n: nat)
    requires n <= |slides|
    ensures forall i, j :: 0 <= i < j < |MatchesBelow(slides, wanted, n)| ==> MatchesBelow(slides, wanted, n)[i] < MatchesBelow(slides, wanted, n)[j]
  {
    if n > 0 {
      MatchesBelowAscending(slides, wanted, n - 1);
      MatchesBelowMembers(slides, wanted, n - 1);
      var m := MatchesBelow(slides, wanted, n - 1);
      var r := MatchesBelow(slides, wanted, n);
      forall i, j | 0 <= i < j < |r| ensures r[i] < r[j] {
        assert r[i] == m[i];
        if j < |m| {
          assert r[j] == m[j];
        } else {
          assert m[i] in m;
        }
      }
    }
  }

  lemma MatchesSpec(slides: seq<Slide>, wanted: string)
    ensures forall k :: k in Matches(slides, wanted) <==> 0 <= k < |slides| && Carries(slides[k], wanted)
    ensures forall i, j :: 0 <= i < j < |Matches(slides, wanted)| ==> Matches(slides, wanted)[i] < Matches(slides, wanted)[j]
  {
    MatchesBelowMembers(slides, wanted, |slides|);
    MatchesBelowAscending(slides, wanted, |slides|);
  }

  /** Some label carried by the slide. */
  predicate CarriesSome(slide: Slide, labels: seq<string>) {
    exists l :: 0 <= l < |labels| && Carries(slide, labels[l])
  }

  /** An index is in the derived order exactly when its slide carries one
      of the labels. */
  lemma {:induction false} DerivedFromMembers(labels: seq<string>, slides: seq<Slide>)
    ensures forall k :: (k in DerivedFrom(labels, slides) <==> 0 <= k < |slides| && CarriesSome(slides[k], labels))
    decreases |labels|
  {
    if labels != [] {
      var init, last := labels[..|labels| - 1], labels[|labels| - 1];
      DerivedFromMembers(init, slides);
      MatchesSpec(slides, last);
      var d := DerivedFrom(init, slides);
      var m := Matches(slides, last);
      assert DerivedFrom(labels, slides) == d + m;
      forall k | 0 <= k < |slides|
        ensures CarriesSome(slides[k], labels) <==> CarriesSome(slides[k], init) || Carries(slides[k], last)
      {
        if CarriesSome(slides[k], labels) {
          var l :| 0 <= l < |labels| && Carries(slides[k], labels[l]);
          if l < |init| {
            assert labels[l] == init[l];
          }
        }
        if CarriesSome(slides[k], init) {
          var l :| 0 <= l < |init| && Carries(slides[k], init[l]);
          assert labels[l] == init[l];
        }
        assert labels[|init|] == last;
      }
      forall k ensures k in d + m <==> k in d || k in m {
      }
    }
  }

  /** Every entry of a derived order is the index of a slide. */
  lemma DerivedOrderValid(orderStr: Option<string>, slides: seq<Slide>, titled: bool)
    ensures ValidIndices(DerivedOrder(orderStr, slides, titled), |slides|)
  {
    if orderStr.Some? && orderStr.value != "" && titled {
      DerivedFromMembers(Tokens(orderStr.value), slides);
    }
  }

  /** In a titled text with a non-empty `#VerseOrder`, a slide is in the
      order exactly when its trimmed title is one of the header's labels;
      otherwise the order is empty. */
  lemma DerivedOrderMembers(orderStr: Option<string>, slides: seq<Slide>, titled: bool, k: int)
    ensures k in DerivedOrder(orderStr, slides, titled)
      <==> orderStr.Some? && orderStr.value != "" && titled && 0 <= k < |slides| && Trim(slides[k].title) in Tokens(orderStr.value)
  {
    if orderStr.Some? && orderStr.value != "" && titled {
      var labels := Tokens(orderStr.value);
      DerivedFromMembers(labels, slides);
      LabelsAreTrimmed(SplitOn(orderStr.value, ','));
      if 0 <= k < |slides| && Trim(slides[k].title) in labels {
        var l :| 0 <= l < |labels| && labels[l] == Trim(slides[k].title);
        TrimIdempotent(slides[k].title);
      }
      if k in DerivedOrder(orderStr, slides, titled) {
        var l :| 0 <= l < |labels| && Trim(slides[k].title) == Trim(labels[l]);
        assert Trim(labels[l]) == labels[l];
      }
    }
  }

  /** Labels are trimmed and never blank. */
  lemma {:induction false} LabelsAreTrimmed(pieces: seq<string>)
    ensures forall l :: 0 <= l < |Labels(pieces)| ==> Labels(pieces)[l] != "" && Trim(Labels(pieces)[l]) == Labels(pieces)[l]
    decreases |pieces|
  {
    if pieces != [] {
      LabelsAreTrimmed(pieces[1..]);
      TrimIdempotent(pieces[0]);
    }
  }

  /** The labels of the example header `Vers 1, Chorus`. */
  lemma TokensExample(header: string)
    requires header == "Vers 1, Chorus"
    ensures Tokens(header) == ["Vers 1", "Chorus"]
  {
    var pieces := ["Vers 1", " Chorus"];
    assert Join(pieces, ",") == header;
    SplitOnJoin(pieces, ',');
    TrimmedIsFixed("Vers 1");
    TrimLeadingBlank("Chorus");
    assert pieces[1..] == [" Chorus"];
  }

  /** The labels of the example header `Chorus,Chorus`. */
  lemma RepeatedTokensExample(header: string)
    requires header == "Chorus,Chorus"
    ensures Tokens(header) == ["Chorus", "Chorus"]
  {
    var pieces := ["Chorus", "Chorus"];
    assert Join(pieces, ",") == header;
    SplitOnJoin(pieces, ',');
    TrimmedIsFixed("Chorus");
    assert pieces[1..] == ["Chorus"];
  }

  /** The slides of the example carrying each label. */
  lemma MatchesExample(slides: seq<Slide>)
    requires slides == [Slide("Vers 1", ["a"]), Slide("Chorus", ["b"]), Slide("Vers 1", ["c"])]
    ensures Matches(slides, "Vers 1") == [0, 2] && Matches(slides, "Chorus") == [1]
  {
    TrimmedIsFixed("Vers 1");
    TrimmedIsFixed("Chorus");
    assert Carries(slides[0], "Vers 1") && !Carries(slides[1], "Vers 1") && Carries(slides[2], "Vers 1");
    assert !Carries(slides[0], "Chorus") && Carries(slides[1], "Chorus") && !Carries(slides[2], "Chorus");
    assert MatchesBelow(slides, "Vers 1", 1) == [0];
    assert MatchesBelow(slides, "Vers 1", 2) == [0];
    assert MatchesBelow(slides, "Chorus", 1) == [];
    assert MatchesBelow(slides, "Chorus", 2) == [1];
  }

  /** The derived order lists the labels' slides label by label: a title
      shared by two slides gives both, in storage order, a label named
      twice gives its slides twice, and untitled text gets no order. */
  lemma DerivedOrderExample(slides: seq<Slide>, header: string, repeated: string)
    requires slides == [Slide("Vers 1", ["a"]), Slide("Chorus", ["b"]), Slide("Vers 1", ["c"])]
    requires header == "Vers 1, Chorus" && repeated == "Chorus,Chorus"
    ensures DerivedOrder(Some(header), slides, true) == [0, 2, 1]
    ensures DerivedOrder(Some(repeated), slides, true) == [1, 1]
    ensures DerivedOrder(Some(header), slides, false) == []
  {
    TokensExample(header);
    RepeatedTokensExample(repeated);
    MatchesExample(slides);
    assert ["Vers 1", "Chorus"][..1] == ["Vers 1"];
    assert DerivedFrom(["Vers 1"], slides) == [0, 2];
    assert ["Chorus", "Chorus"][..1] == ["Chorus"];
    assert DerivedFrom(["Chorus"], slides) == [1];
  }

  // ---------------------------------------------------------------------
  // Edits

  /** `order.splice(p, 1)`: the entry at `p` removed, nothing when `p` is
      past the end. */
  function RemoveAt(s: seq<int>, p: nat): (r: seq<int>) {
    if p < |s| then s[..p] + s[p + 1..] else s
  }

  /** `order.splice(p, 0, x)`: `x` inserted before position `p`, at the end
      when `p` is past it. */
  function InsertAt(s: seq<int>, p: nat, x: int): (r: seq<int>) {
    var q := if p < |s| then p else |s|;
    s[..q] + [x] + s[q..]
  }

  /** The drop handler for an entry dragged within the order: the entry at
      `from` is taken out and put back before the entry at `to`, or at the
      end when the drop hit no entry (`to < 0`). */
  function Moved(order: seq<int>, from: nat, to: int): seq<int>
    requires from < |order|
  {
    var x := order[from];
    var rest := RemoveAt(order, from);
    if to >= 0 then InsertAt(rest, to, x) else rest + [x]
  }

  /** The drop handler for a slide dragged into the order: ignored when the
      drag carried no index or the slide is already in the order, else the
      index is inserted before the entry at `to`, or appended. */
  function WithAdded(order: seq<int>, slideIndex: Option<int>, to: int): seq<int> {
    if slideIndex.None? || slideIndex.value in order then order
    else if to >= 0 then InsertAt(order, to, slideIndex.value)
    else order + [slideIndex.value]
  }

  predicate NoDuplicates(s: seq<int>) {
    forall i, j :: 0 <= i < j < |s| ==> s[i] != s[j]
  }

  /** Every entry is the index of one of `n` slides. */
  predicate ValidIndices(s: seq<int>, n: nat) {
    forall v :: v in s ==> 0 <= v < n
  }

  /** Removing keeps the other entries in order and takes exactly one
      occurrence of the removed entry. */
  lemma RemoveAtSpec(s: seq<int>, p: nat)
    requires p < |s|
    ensures |RemoveAt(s, p)| == |s| - 1
    ensures forall k :: 0 <= k < p ==> RemoveAt(s, p)[k] == s[k]
    ensures forall k :: p <= k < |s| - 1 ==> RemoveAt(s, p)[k] == s[k + 1]
    ensures multiset(RemoveAt(s, p)) + multiset{s[p]} == multiset(s)
  {
    assert s == s[..p] + [s[p]] + s[p + 1..];
  }

  /** Inserting puts `x` at the clamped position and shifts what follows. */
  lemma InsertAtSpec(s: seq<int>, p: nat, x: int)
    ensures var q := if p < |s| then p else |s|;
      && |InsertAt(s, p, x)| == |s| + 1
      && InsertAt(s, p, x)[q] == x
      && (forall k :: 0 <= k < q ==> InsertAt(s, p, x)[k] == s[k])
      && (forall k :: q <= k < |s| ==> InsertAt(s, p, x)[k + 1] == s[k])
      && multiset(InsertAt(s, p, x)) == multiset(s) + multiset{x}
  {
    var q := if p < |s| then p else |s|;
    assert s == s[..q] + s[q..];
  }

  /** Removing what was just inserted gives the list back. */
  lemma RemoveUndoesInsert(s: seq<int>, p: nat, x: int)
    ensures RemoveAt(InsertAt(s, p, x), if p < |s| then p else |s|) == s
  {
    var q := if p < |s| then p else |s|;
    var t := InsertAt(s, p, x);
    assert t[..q] == s[..q];
    assert t[q + 1..] == s[q..];
    assert s == s[..q] + s[q..];
  }

  /** Moving an entry rearranges the order: same entries, same length. */
  lemma MovedIsPermutation(order: seq<int>, from: nat, to: int)
    requires from < |order|
    ensures |Moved(order, from, to)| == |order|
    ensures multiset(Moved(order, from, to)) == multiset(order)
  {
    var rest := RemoveAt(order, from);
    RemoveAtSpec(order, from);
    if to >= 0 {
      InsertAtSpec(rest, to, order[from]);
    }
  }

  /** Dropping an entry on its own place, or the last entry past the end,
      changes nothing. */
  lemma MovedInPlace(order: seq<int>, from: nat)
    requires from < |order|
    ensures Moved(order, from, from) == order
    ensures from == |order| - 1 ==> Moved(order, from, -1) == order
  {
    assert order == order[..from] + [order[from]] + order[from + 1..];
    assert RemoveAt(order, from)[..from] == order[..from];
    assert RemoveAt(order, from)[from..] == order[from + 1..];
  }

  /** Moving puts the moved entry where it was dropped and keeps the others
      in their relative order: taking it out again gives the order without
      it. */
  lemma MovedPlacesEntry(order: seq<int>, from: nat, to: int)
    requires from < |order|
    ensures var q := if 0 <= to < |order| - 1 then to else |order| - 1;
      Moved(order, from, to)[q] == order[from] && RemoveAt(Moved(order, from, to), q) == RemoveAt(order, from)
  {
    var rest := RemoveAt(order, from);
    RemoveAtSpec(order, from);
    if to >= 0 {
      InsertAtSpec(rest, to, order[from]);
      RemoveUndoesInsert(rest, to, order[from]);
    } else {
      assert (rest + [order[from]])[..|rest|] == rest;
    }
  }

  /** Two equal entries make a count of at least two. */
  lemma DuplicateCount(t: seq<int>, i: nat, j: nat)
    requires i < j < |t| && t[i] == t[j]
    ensures multiset(t)[t[i]] >= 2
  {
    assert t == t[..j] + t[j..];
    assert t[..j][i] == t[i];
    assert t[j..][0] == t[j];
  }

  /** In a duplicate-free list an entry occurs at most once. */
  lemma {:induction false} UniqueCount(s: seq<int>, x: int)
    requires NoDuplicates(s)
    ensures multiset(s)[x] <= 1
    decreases |s|
  {
    if s != [] {
      var t := s[1..];
      assert NoDuplicates(t);
      UniqueCount(t, x);
      assert s == [s[0]] + t;
      if s[0] == x {
        assert x !in t;
      }
    }
  }

  /** A list is duplicate-free exactly when no entry occurs twice. */
  lemma NoDuplicatesByCount(t: seq<int>)
    ensures NoDuplicates(t) <==> forall v :: multiset(t)[v] <= 1
  {
    if NoDuplicates(t) {
      forall v ensures multiset(t)[v] <= 1 {
        UniqueCount(t, v);
      }
    }
    if !NoDuplicates(t) {
      var i, j :| 0 <= i < j < |t| && t[i] == t[j];
      DuplicateCount(t, i, j);
    }
  }

  /** Moving never creates a duplicate. */
  lemma MovedKeepsNoDuplicates(order: seq<int>, from: nat, to: int)
    requires from < |order| && NoDuplicates(order)
    ensures NoDuplicates(Moved(order, from, to))
  {
    MovedIsPermutation(order, from, to);
    NoDuplicatesByCount(order);
    NoDuplicatesByCount(Moved(order, from, to));
  }

  /** Adding a slide already in the order, or with no index, changes
      nothing; otherwise the slide is inserted exactly once, at the drop
      position or at the end, with the other entries kept in order. */
  lemma WithAddedSpec(order: seq<int>, slideIndex: Option<int>, to: int)
    ensures slideIndex.None? || slideIndex.value in order ==> WithAdded(order, slideIndex, to) == order
    ensures slideIndex.Some? && slideIndex.value !in order ==>
      var r := WithAdded(order, slideIndex, to);
      var q := if 0 <= to < |order| then to else |order|;
      && multiset(r) == multiset(order) + multiset{slideIndex.value}
      && r[q] == slideIndex.value && RemoveAt(r, q) == order
  {
    if slideIndex.Some? && slideIndex.value !in order {
      var x := slideIndex.value;
      if to >= 0 {
        InsertAtSpec(order, to, x);
        RemoveUndoesInsert(order, to, x);
      } else {
        assert (order + [x])[..|order|] == order;
      }
    }
  }

  /** Adding keeps the order free of duplicates, which is what the
      `includes` check is for. */
  lemma WithAddedKeepsNoDuplicates(order: seq<int>, slideIndex: Option<int>, to: int)
    requires NoDuplicates(order)
    ensures NoDuplicates(WithAdded(order, slideIndex, to))
  {
    if slideIndex.Some? && slideIndex.value !in order {
      var r := WithAdded(order, slideIndex, to);
      WithAddedSpec(order, slideIndex, to);
      NoDuplicatesByCount(order);
      NoDuplicatesByCount(r);
      assert multiset(order)[slideIndex.value] == 0;
    }
  }

  /** Removing an entry keeps every entry a valid slide index. */
  lemma RemoveKeepsValid(order: seq<int>, n: nat, p: nat)
    requires ValidIndices(order, n)
    ensures ValidIndices(RemoveAt(order, p), n)
  {
    if p < |order| {
      RemoveAtSpec(order, p);
      forall v | v in RemoveAt(order, p) ensures 0 <= v < n {
        assert v in multiset(RemoveAt(order, p));
        assert v in multiset(order);
        assert v in order;
      }
    }
  }

  /** Moving an entry keeps every entry a valid slide index. */
  lemma MovedKeepsValid(order: seq<int>, n: nat, from: nat, to: int)
    requires from < |order| && ValidIndices(order, n)
    ensures ValidIndices(Moved(order, from, to), n)
  {
    MovedIsPermutation(order, from, to);
    forall v | v in Moved(order, from, to) ensures 0 <= v < n {
      assert v in multiset(Moved(order, from, to));
      assert v in multiset(order);
      assert v in order;
    }
  }

  /** Adding a valid slide index keeps every entry a valid slide index. */
  lemma WithAddedKeepsValid(order: seq<int>, n: nat, slideIndex: Option<int>, to: int)
    requires ValidIndices(order, n)
    requires slideIndex.Some? ==> 0 <= slideIndex.value < n
    ensures ValidIndices(WithAdded(order, slideIndex, to), n)
  {
    if slideIndex.Some? && slideIndex.value !in order {
      WithAddedSpec(order, slideIndex, to);
      var r := WithAdded(order, slideIndex, to);
      forall v | v in r ensures 0 <= v < n {
        assert v in multiset(r);
        if v != slideIndex.value {
          assert v in multiset(order);
          assert v in order;
        }
      }
    }
  }
}
