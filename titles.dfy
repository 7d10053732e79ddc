// The slide-title grammar of the SNG editor (script.js:39, script-2.js:25):
//   ^(Vers(\s*\d*)?|Chorus(\s*\d*)?|Pre[- ]?Chorus(\s*\d*)?|Bridge|Ending|Eingangsspiel|Blank)$
// matched case-insensitively, written out as a predicate.

module Titles {
  import opened Text

  /** ASCII case folding, which is what a non-Unicode `/i` regular
      expression does for the ASCII letters of the keywords. */
  function Lower(c: char): char {
    if 'A' <= c <= 'Z' then (c as int + 32) as char else c
  }

  function LowerString(s: string): (r: string)
    ensures |r| == |s|
    ensures forall k :: 0 <= k < |s| ==> r[k] == Lower(s[k])
  {
    seq(|s|, k requires 0 <= k < |s| => Lower(s[k]))
  }

  /** `s` spells the lower-case keyword `kw`, ignoring case. */
  predicate SpellsCI(s: string, kw: string) {
    |s| == |kw| && forall k :: 0 <= k < |s| ==> Lower(s[k]) == kw[k]
  }

  /** The optional suffix `(\s*\d*)?`: some whitespace, then some digits. */
  predicate SpacesThenDigits(s: string)
    decreases |s|
  {
    if s == [] then true
    else if IsSpace(s[0]) then SpacesThenDigits(s[1..])
    else forall k :: 0 <= k < |s| ==> IsDigit(s[k])
  }

  /** `kw(\s*\d*)?`, ignoring the case of the keyword. */
  predicate Numbered(s: string, kw: string) {
    |kw| <= |s| && SpellsCI(s[..|kw|], kw) && SpacesThenDigits(s[|kw|..])
  }

  /** The grammar's nine keywords in lower case: the first five (`Vers`,
      `Chorus` and the three spellings of `Pre[- ]?Chorus`) may carry a
      number, the last four stand alone. */
  const KeywordCount: nat := 9
  const NumberedCount: nat := 5

  function KeywordAt(i: nat): string {
    if i == 0 then "vers" else if i == 1 then "chorus" else if i == 2 then "prechorus"
    else if i == 3 then "pre-chorus" else if i == 4 then "pre chorus" else if i == 5 then "bridge"
    else if i == 6 then "ending" else if i == 7 then "eingangsspiel" else "blank"
  }

  /** `s` is the `i`-th alternative of the grammar. */
  predicate MatchesKeyword(s: string, i: nat) {
    if i < NumberedCount then Numbered(s, KeywordAt(i)) else SpellsCI(s, KeywordAt(i))
  }

  /** One of the alternatives `i`, `i + 1`, ... matches `s`. */
  predicate TitleFrom(s: string, i: nat)
    decreases KeywordCount - i
  {
    i < KeywordCount && (MatchesKeyword(s, i) || TitleFrom(s, i + 1))
  }

  /** The whole title grammar, anchored at both ends. */
  predicate IsTitle(s: string) {
    TitleFrom(s, 0)
  }

  /** The alternatives from `i` on are exactly the keywords at `i` or
      later. */
  lemma {:induction false} TitleFromAt(s: string, i: nat) returns (j: nat)
    requires TitleFrom(s, i)
    ensures i <= j < KeywordCount && MatchesKeyword(s, j)
    decreases KeywordCount - i
  {
    if MatchesKeyword(s, i) {
      j := i;
    } else {
      j := TitleFromAt(s, i + 1);
    }
  }

  lemma {:induction false} KeywordGivesTitleFrom(s: string, i: nat, j: nat)
    requires i <= j < KeywordCount && MatchesKeyword(s, j)
    ensures TitleFrom(s, i)
    decreases j - i
  {
    if i < j {
      KeywordGivesTitleFrom(s, i + 1, j);
    }
  }

  /** The grammar is the alternation of its keywords: a string is a title
      exactly when one of the nine alternatives matches it. */
  lemma TitleIsAlternation(s: string)
    ensures IsTitle(s) <==> exists i: nat :: i < KeywordCount && MatchesKeyword(s, i)
  {
    if IsTitle(s) {
      var j := TitleFromAt(s, 0);
    }
    if exists i: nat :: i < KeywordCount && MatchesKeyword(s, i) {
      var i: nat :| i < KeywordCount && MatchesKeyword(s, i);
      KeywordGivesTitleFrom(s, 0, i);
    }
  }

  /** `Pre[- ]?Chorus(\s*\d*)?`: `pre`, then at most one `-` or space,
      then `chorus` and the optional number, ignoring case. */
  predicate PreChorus(s: string) {
    && 3 <= |s| && SpellsCI(s[..3], "pre")
    && (|| Numbered(s[3..], "chorus")
        || (4 <= |s| && (s[3] == '-' || s[3] == ' ') && Numbered(s[4..], "chorus")))
  }

  /** The grammar as the pattern writes it: seven alternatives, the
      optional separator of `Pre[- ]?Chorus` kept inside one of them. */
  predicate TitlePattern(s: string) {
    || Numbered(s, "vers") || Numbered(s, "chorus") || PreChorus(s)
    || SpellsCI(s, "bridge") || SpellsCI(s, "ending") || SpellsCI(s, "eingangsspiel")
    || SpellsCI(s, "blank")
  }

  /** The nine-keyword table is the pattern: `Pre[- ]?Chorus` is exactly
      the three spellings `prechorus`, `pre-chorus` and `pre chorus`. */
  lemma TitleMatchesPattern(s: string)
    ensures IsTitle(s) <==> TitlePattern(s)
  {
    TitleUnrolled(s);
    PreChorusSpellings(s);
  }

  /** `IsTitle` tries the nine keywords one after the other. */
  lemma TitleUnrolled(s: string)
    ensures IsTitle(s) <==>
      || MatchesKeyword(s, 0) || MatchesKeyword(s, 1) || MatchesKeyword(s, 2)
      || MatchesKeyword(s, 3) || MatchesKeyword(s, 4) || MatchesKeyword(s, 5)
      || MatchesKeyword(s, 6) || MatchesKeyword(s, 7) || MatchesKeyword(s, 8)
  {
    assert TitleFrom(s, 9) == false;
    assert TitleFrom(s, 8) == MatchesKeyword(s, 8);
    assert TitleFrom(s, 7) == (MatchesKeyword(s, 7) || TitleFrom(s, 8));
    assert TitleFrom(s, 6) == (MatchesKeyword(s, 6) || TitleFrom(s, 7));
    assert TitleFrom(s, 5) == (MatchesKeyword(s, 5) || TitleFrom(s, 6));
    assert TitleFrom(s, 4) == (MatchesKeyword(s, 4) || TitleFrom(s, 5));
    assert TitleFrom(s, 3) == (MatchesKeyword(s, 3) || TitleFrom(s, 4));
    assert TitleFrom(s, 2) == (MatchesKeyword(s, 2) || TitleFrom(s, 3));
    assert TitleFrom(s, 1) == (MatchesKeyword(s, 1) || TitleFrom(s, 2));
  }

  /** The three pre-chorus keywords together are `Pre[- ]?Chorus(\s*\d*)?`. */
  lemma PreChorusSpellings(s: string)
    ensures PreChorus(s) <==>
      Numbered(s, "prechorus") || Numbered(s, "pre-chorus") || Numbered(s, "pre chorus")
  {
    PreChorusWords();
    NumberedConcat(s, "pre", "chorus");
    NumberedConcat(s, "pre", "-chorus");
    NumberedConcat(s, "pre", " chorus");
    if 3 <= |s| {
      var r := s[3..];
      NumberedConcat(r, "-", "chorus");
      NumberedConcat(r, " ", "chorus");
      if 1 <= |r| {
        assert r[..1][0] == r[0] == s[3];
        assert r[1..] == s[4..];
      }
    }
  }

  lemma PreChorusWords()
    ensures "prechorus" == "pre" + "chorus"
    ensures "pre-chorus" == "pre" + "-chorus" && "-chorus" == "-" + "chorus"
    ensures "pre chorus" == "pre" + " chorus" && " chorus" == " " + "chorus"
  {
  }

  /** A keyword made of two words is the first word, ignoring case,
      followed by the second with its optional number. */
  lemma NumberedConcat(s: string, a: string, b: string)
    ensures Numbered(s, a + b) <==> |a| <= |s| && SpellsCI(s[..|a|], a) && Numbered(s[|a|..], b)
  {
    if |a| + |b| <= |s| {
      var t := s[..|a| + |b|];
      SpellsConcat(t, a, b);
      assert t[..|a|] == s[..|a|];
      assert t[|a|..] == s[|a|..][..|b|];
      assert s[|a|..][|b|..] == s[|a| + |b|..];
    }
  }

  lemma SpellsConcat(s: string, a: string, b: string)
    ensures SpellsCI(s, a + b) <==> |a| <= |s| && SpellsCI(s[..|a|], a) && SpellsCI(s[|a|..], b)
  {
    if SpellsCI(s, a + b) {
      forall k | 0 <= k < |b| ensures Lower(s[|a|..][k]) == b[k] {
        assert Lower(s[|a| + k]) == (a + b)[|a| + k];
      }
    }
    if |a| <= |s| && SpellsCI(s[..|a|], a) && SpellsCI(s[|a|..], b) {
      forall k | 0 <= k < |s| ensures Lower(s[k]) == (a + b)[k] {
        if k < |a| {
          assert s[..|a|][k] == s[k];
        } else {
          assert s[|a|..][k - |a|] == s[k];
        }
      }
    }
  }

  /** The keyword of a title: the alternative it matches. */
  lemma TitleKeyword(s: string) returns (i: nat)
    requires IsTitle(s)
    ensures i < KeywordCount && MatchesKeyword(s, i)
  {
    i := TitleFromAt(s, 0);
  }

  /** What every keyword looks like. */
  lemma KeywordShape(i: nat)
    requires i < KeywordCount
    ensures KeywordAt(i) != [] && 'a' <= KeywordAt(i)[0] <= 'z'
    ensures ',' !in KeywordAt(i) && '=' !in KeywordAt(i)
  {
  }

  lemma LowerIdempotent(c: char)
    ensures Lower(Lower(c)) == Lower(c)
  {
  }

  /** Matching ignores case: a string is a title exactly when its
      lower-case spelling is. */
  lemma TitleIgnoresCase(s: string)
    ensures IsTitle(s) <==> IsTitle(LowerString(s))
  {
    TitleFromIgnoresCase(s, 0);
  }

  lemma {:induction false} TitleFromIgnoresCase(s: string, i: nat)
    ensures TitleFrom(s, i) <==> TitleFrom(LowerString(s), i)
    decreases KeywordCount - i
  {
    if i < KeywordCount {
      if i < NumberedCount {
        NumberedIgnoresCase(s, KeywordAt(i));
      } else {
        SpellsIgnoresCase(s, KeywordAt(i));
      }
      TitleFromIgnoresCase(s, i + 1);
    }
  }

  lemma SpellsIgnoresCase(s: string, kw: string)
    ensures SpellsCI(s, kw) <==> SpellsCI(LowerString(s), kw)
  {
    forall k | 0 <= k < |s| ensures Lower(LowerString(s)[k]) == Lower(s[k]) {
      LowerIdempotent(s[k]);
    }
  }

  lemma NumberedIgnoresCase(s: string, kw: string)
    ensures Numbered(s, kw) <==> Numbered(LowerString(s), kw)
  {
    if |kw| <= |s| {
      var l := LowerString(s);
      assert l[..|kw|] == LowerString(s[..|kw|]);
      assert l[|kw|..] == LowerString(s[|kw|..]);
      SpellsIgnoresCase(s[..|kw|], kw);
      SuffixIgnoresCase(s[|kw|..]);
    }
  }

  /** Whitespace and digits are unaffected by case folding. */
  lemma {:induction false} SuffixIgnoresCase(s: string)
    ensures SpacesThenDigits(s) <==> SpacesThenDigits(LowerString(s))
    decreases |s|
  {
    if s != [] {
      assert LowerString(s)[1..] == LowerString(s[1..]);
      SuffixIgnoresCase(s[1..]);
    }
  }

  /** A title begins with a letter: it is never empty, never blank-led,
      and never looks like a metadata line or a separator. */
  lemma TitleStartsWithLetter(s: string)
    requires IsTitle(s)
    ensures s != [] && 'a' <= Lower(s[0]) <= 'z'
    ensures !IsSpace(s[0]) && s[0] != '#' && s[0] != '-'
  {
    var i := TitleKeyword(s);
    KeywordShape(i);
    var kw := KeywordAt(i);
    assert |kw| <= |s| && Lower(s[0]) == kw[0] by {
      if i < NumberedCount {
        assert s[..|kw|][0] == s[0];
      }
    }
  }

  /** A title begins with the initial of a keyword: `v`, `c`, `p`, `b` or
      `e`, in either case. */
  lemma TitleInitial(s: string)
    requires IsTitle(s)
    ensures s != []
    ensures var c := Lower(s[0]); c == 'v' || c == 'c' || c == 'p' || c == 'b' || c == 'e'
  {
    var i := TitleKeyword(s);
    KeywordInitial(i);
    var kw := KeywordAt(i);
    assert |kw| <= |s| && Lower(s[0]) == kw[0] by {
      if i < NumberedCount {
        assert s[..|kw|][0] == s[0];
      }
    }
  }

  lemma KeywordInitial(i: nat)
    requires i < KeywordCount
    ensures KeywordAt(i) != []
    ensures var c := KeywordAt(i)[0]; c == 'v' || c == 'c' || c == 'p' || c == 'b' || c == 'e'
  {
  }

  /** A title contains neither a comma nor an equals sign, so it survives
      inside a `#VerseOrder=` list. */
  lemma TitleHasNoPunctuation(s: string)
    requires IsTitle(s)
    ensures ',' !in s && '=' !in s
  {
    var i := TitleKeyword(s);
    KeywordShape(i);
    var kw := KeywordAt(i);
    if i < NumberedCount {
      SpelledHasNoPunctuation(s[..|kw|], kw);
      SuffixHasNoPunctuation(s[|kw|..]);
      assert s == s[..|kw|] + s[|kw|..];
    } else {
      SpelledHasNoPunctuation(s, kw);
    }
  }

  lemma SpelledHasNoPunctuation(s: string, kw: string)
    requires SpellsCI(s, kw) && ',' !in kw && '=' !in kw
    ensures ',' !in s && '=' !in s
  {
    forall k | 0 <= k < |s| ensures s[k] != ',' && s[k] != '=' {
      assert Lower(s[k]) == kw[k];
    }
  }

  lemma {:induction false} SuffixHasNoPunctuation(s: string)
    requires SpacesThenDigits(s)
    ensures ',' !in s && '=' !in s
    decreases |s|
  {
    if s != [] && IsSpace(s[0]) {
      SuffixHasNoPunctuation(s[1..]);
      assert s == [s[0]] + s[1..];
    }
  }

  /** Titles of the kinds the grammar names. */
  lemma TitleExamples()
    ensures IsTitle("Vers 2") && IsTitle("Chorus") && IsTitle("Bridge") && IsTitle("Eingangsspiel")
  {
    assert MatchesKeyword("Vers 2", 0) by {
      assert SpellsCI("Vers 2"[..4], "vers");
      assert "Vers 2"[4..][1..] == "2";
    }
    assert MatchesKeyword("Chorus", 1) by {
      assert SpellsCI("Chorus"[..6], "chorus");
      assert "Chorus"[6..] == "";
    }
    assert MatchesKeyword("Bridge", 5);
    assert MatchesKeyword("Eingangsspiel", 7);
    KeywordGivesTitleFrom("Vers 2", 0, 0);
    KeywordGivesTitleFrom("Chorus", 0, 1);
    KeywordGivesTitleFrom("Bridge", 0, 5);
    KeywordGivesTitleFrom("Eingangsspiel", 0, 7);
  }

  /** A keyword followed by anything but whitespace and digits is not a
      title, and neither is a word that is no keyword. */
  lemma NonTitleExamples()
    ensures !IsTitle("Verse") && !IsTitle("NotATitle")
  {
    TitleIsAlternation("Verse");
    TitleIsAlternation("NotATitle");
    forall i: nat | i < KeywordCount ensures !MatchesKeyword("Verse", i) {
      var kw := KeywordAt(i);
      if i == 0 {
        assert !IsDigit("Verse"[4..][0]);
      } else if |kw| <= 5 {
        assert Lower("Verse"[0]) == 'v' != kw[0];
        assert "Verse"[..|kw|][0] == 'V';
      }
    }
    forall i: nat | i < KeywordCount ensures !MatchesKeyword("NotATitle", i) {
      var kw := KeywordAt(i);
      if |kw| <= 9 {
        assert Lower("NotATitle"[0]) == 'n' != kw[0];
        assert "NotATitle"[..|kw|][0] == 'N';
      }
    }
  }
}
