# SNG song editor — a verified Dafny model

The SNG editor is a small browser page that opens a song in the line-based
SNG format and splits it into slides. The user can retitle slides, add
slides, and arrange a playback order by drag and drop. The editor then
writes the song back. `script.js` and `script-2.js` are two copies of the
same code; they differ only in how a song is loaded and saved. Lines
29–207 of `script.js` are lines 15–193 of `script-2.js`, and the save
handler's lines 219–237 are its lines 195–213.

This project models the editor's core in Dafny:

- **`Text`** (`text.dfy`): the string operations the code relies on.
  - `trim()`;
  - `split(/\r?\n/)` (`SplitLines`);
  - `split(c)` on one character (`SplitOn`);
  - `join(sep)` (`Join`);
  - the lemmas that make splitting and joining inverse.
- **`Titles`** (`titles.dfy`): the slide-title grammar, written out as a
  predicate.
  - The grammar is `^(Vers(\s*\d*)?|Chorus(\s*\d*)?|Pre[- ]?Chorus(\s*\d*)?|Bridge|Ending|Eingangsspiel|Blank)$`, matched case-insensitively.
- **`Song`** (`song.dfy`): the document.
  - Slides carry a title and verbatim content lines.
  - The metadata map is read from `#key=value` lines.
- **`Parser`** (`parser.dfy`): `parseSNG` as a specification.
  - One turn of its line loop is `Step`, and the whole loop is `Scan`.
  - The lemmas state what the loop produces in each format.
- **`Order`** (`order.dfy`): the playback order.
  - Deriving it from `#VerseOrder` (`renderOrderFromVerseOrder`).
  - The three `splice`/`push` edits of the order list: remove, move, add.
- **`Serializer`** (`serializer.dfy`): the save handler's text, and the
  round trips.
  - Metadata, titled slides and the playback order all survive a save
    followed by a load.
- **`Editor`** (`session.dfy`): the editing session.
  - The editor's three global variables (`allSlides`, `verseOrder`,
    `isTitledFormat`) become the fields of a `Session` object.
  - Loading, order derivation, the order edits, title editing, adding a
    slide and saving become its methods.
  - Each loop of the source is a `while` loop proved against the
    specification functions above:
    - the title scan;
    - the parse loop;
    - the two nested `forEach` of the order derivation;
    - the two loops of the save handler.
- **`Scenarios`** (`scenarios.dfy`): three worked songs, with what the
  parser and the save handler make of them.

## Model

| member | source | states |
|---|---|---|
| Text.SplitLinesJoin | script.js:237 | saved lines that hold no line break and do not end in CR are read back line for line by `split(/\r?\n/)` after `join('\n')` |
| Text.JoinSplitOn | script.js:53-54 | splitting a header line at every `=` and joining the pieces after the first with `=` restores the text after the key, so a value keeps its own `=` |
| Text.SplitOnJoin | script.js:125 | splitting a `join(c)` of pieces free of `c` gives the pieces back |
| Titles.TitleMatchesPattern | script-2.js:25 | the nine-keyword table accepts exactly what the pattern's seven alternatives accept; in particular `Pre[- ]?Chorus` with its optional number is exactly the three spellings `prechorus`, `pre-chorus` and `pre chorus` |
| Titles.TitleIgnoresCase | script-2.js:25 | the `i` flag: a string is a title exactly when its lower-case spelling is |
| Titles.TitleExamples | script-2.js:25 | `Vers 2`, `Chorus`, `Bridge` and `Eingangsspiel` are titles |
| Titles.NonTitleExamples | script-2.js:25 | the grammar is anchored: `Verse` and `NotATitle` are not titles |
| Titles.TitleStartsWithLetter | script-2.js:25 | a title starts with a letter, so a title line is never blank-led, a header line or a separator |
| Titles.TitleInitial | script-2.js:25 | a title starts with the initial of one of the keywords |
| Titles.TitleHasNoPunctuation | script-2.js:25 | a title holds no comma and no `=`, so it survives in a `#VerseOrder=` list |
| Parser.MetaLineSplitsAtFirstEquals | script.js:52-54 | a header line is split at its first `=`: the trimmed key before it, the trimmed rest after it (later `=` included), or an empty value when there is no `=` |
| Parser.TitleLineIsNotMeta | script.js:52-62 | a line that trims to a title is neither a header line nor a separator |
| Parser.StepTakesTwo | script.js:59-66 | one turn consumes two lines exactly when the format is titled and a separator is followed by a title line |
| Parser.ScanMeta | script.js:52-56 | the metadata after the loop is the header entries written into the map in line order |
| Parser.ParsedMeta | script.js:52-56 | a key is in the metadata exactly when some header line names it, and its value comes from the last such line |
| Parser.ParsedNoMetaContent | script.js:49-92 | no slide content line begins with `#` |
| Parser.ScanKeepsPushed | script.js:63-92 | slides once pushed are never changed or reordered, and an open slide is always pushed in the end |
| Parser.ParsedUntitled | script.js:72-92 | untitled format: the slides' content is exactly the lines that are neither header nor separator, in order; one slide per separator plus one when content comes first; each slide is titled by its trimmed first line if that is not blank |
| Parser.ParsedTitled | script.js:59-92 | titled format: the slides' contents, concatenated, are the lines `TitledBody` keeps (header lines and the title line after a separator consumed, a separator without a title kept as `---` inside an open slide and dropped before one); there is one slide per separator followed by a title, plus one when content comes first; every title is a trimmed title, except an empty one on a first slide, which occurs exactly when content comes before the first slide-opening separator |
| Parser.EmptyTextIsUntitled | script.js:34-45 | the empty text is one empty line and is untitled |
| Order.LabelsAreTrimmed | script.js:125 | every label read from `#VerseOrder` is non-empty and trimmed |
| Order.TokensExample | script.js:125 | `Vers 1, Chorus` gives the labels `Vers 1` and `Chorus` |
| Order.RepeatedTokensExample | script.js:125 | `Chorus,Chorus` gives `Chorus` twice |
| Order.MatchesSpec | script.js:127-131 | the inner loop pushes exactly the indices of the slides whose trimmed title equals the trimmed label, in ascending order |
| Order.MatchesExample | script.js:127-131 | with slides `Vers 1`, `Chorus`, `Vers 1`, the label `Vers 1` matches slides 0 and 2 and `Chorus` matches slide 1 |
| Order.DerivedFromMembers | script.js:126-132 | an index is in the derived order exactly when its slide carries one of the labels |
| Order.DerivedOrderMembers | script.js:122-134 | `k` is in the derived order exactly when the header is present and non-empty, the text is titled, and slide `k`'s trimmed title is one of the labels |
| Order.DerivedOrderValid | script.js:122-134 | every derived entry is the index of a slide |
| Order.DerivedOrderExample | script.js:122-134 | slides `Vers 1`, `Chorus`, `Vers 1` with `Vers 1, Chorus` give `[0, 2, 1]`; `Chorus,Chorus` gives `[1, 1]`; an untitled text gives `[]` |
| Order.RemoveAtSpec | script.js:149 | `splice(idx, 1)` drops the entry at `idx`, keeps the others in order, and takes exactly one occurrence out of the multiset |
| Order.InsertAtSpec | script.js:185 | `splice(to, 0, x)` puts `x` before entry `to` (or last when `to` is past the end) and keeps the others in order |
| Order.RemoveUndoesInsert | script.js:185 | removing at the insertion point undoes an insertion |
| Order.MovedIsPermutation | script.js:172-177 | moving an entry keeps the length and the multiset of entries |
| Order.MovedInPlace | script.js:172-177 | dropping an entry on its own place, or the last entry outside the list, leaves the order unchanged |
| Order.MovedPlacesEntry | script.js:172-177 | after a move the entry sits at the target place, and without it the order is the old order without it |
| Order.MovedKeepsNoDuplicates | script.js:172-177 | a move never creates a duplicate |
| Order.MovedKeepsValid | script.js:172-177 | a move keeps every entry a slide index |
| Order.WithAddedSpec | script.js:182-190 | a slide dropped on the order is ignored when its index is unparsable or already present; otherwise it is inserted at the target place and nothing else changes |
| Order.WithAddedKeepsNoDuplicates | script.js:183 | adding never creates a duplicate |
| Order.WithAddedKeepsValid | script.js:182-190 | adding the index of an existing slide keeps every entry a slide index |
| Order.RemoveKeepsValid | script.js:149 | removing keeps every entry a slide index |
| Order.NoDuplicatesByCount | script.js:183 | an order has no duplicate exactly when no index occurs in it more than once |
| Serializer.FieldLineParses | script.js:222 | a written attribute line is a header line that reads back as the attribute's id and trimmed value |
| Serializer.FieldLinesRead | script.js:219-224 | the attribute lines read back as the entries of the non-blank attributes, in order |
| Serializer.FieldWritten | script.js:219-224 | after the attribute lines are read, an attribute is in the map exactly when its trimmed value is non-blank or it was there before, with the trimmed value |
| Serializer.OrderLinesRead | script.js:226-229 | the order line is written, and read back as `VerseOrder`, exactly when the text is titled and the order is not empty |
| Serializer.MetaRoundTrip | script.js:219-229 | after a save and a load, each attribute is present exactly when its trimmed value is non-blank, and then holds that value; `VerseOrder` is present exactly when the text is titled and the order is not empty, and holds the labels joined by `, ` |
| Serializer.SavedDetected | script.js:231-235 | a saved titled song is detected as titled again |
| Serializer.TitledRoundTrip | script.js:219-237 | a titled song whose slides all have a clean title and a first line not starting with it is read back as the same slides after a save |
| Serializer.TokensOfJoin | script.js:228 | labels joined with `, ` are read back as the same labels |
| Serializer.OrderLabelsOfTrimmed | script.js:227 | with trimmed non-empty titles the order line lists exactly the titles of the ordered slides |
| Serializer.DerivedFromTitles | script.js:122-134 | with distinct trimmed titles, deriving from the titles of an order gives the order back |
| Serializer.VerseOrderRoundTrip | script.js:226-228 | with distinct titles, the order derived after a save and a load is the order that was saved |
| Serializer.EmptyTitledSlideBlocksSave | script.js:233 | a titled slide with no content line is what a titled text ending on a title line yields, and the save handler cannot write it |
| Scenarios.UntitledSong | script.js:47-92 | `Hello\nWorld\n---\nFoo\n` reads as slide `Hello` with `Hello`, `World` and slide `Foo` with `Foo` and an empty last line |
| Scenarios.DanglingSeparator | script.js:59-71 | in `---\nVers 1\n---\nNotATitle\n` the second separator opens no slide and is kept as content of `Vers 1` |
| Scenarios.TwoSlideSong | script-2.js:195-213 | two one-line titled slides saved with order `[0, 1]` read back as the same slides, with a `VerseOrder` that derives `[0, 1]` |
| Scenarios.VerseOrderSong | script.js:33-237 | the titled song with `#VerseOrder=Vers 1, Chorus` reads as slides `Vers 1`, `Chorus` with order `[0, 1]`, and saving it writes back the same text |
| Editor.DetectFormat | script.js:39-45 | the loop sets the titled flag exactly when some trimmed line is a title |
| Editor.ParseLinesLoop | script.js:47-92 | the line loop and the final push produce exactly the metadata and slides of the specification |
| Editor.CollectMatches | script.js:125-132 | the nested loops build exactly the derived order of the labels |
| Editor.WriteFields | script.js:219-224 | the attribute loop writes exactly the attribute lines |
| Editor.WriteSlides | script.js:231-235 | the slide loop writes exactly the slide blocks |
| Editor.Session.constructor | script.js:29-31 | the session starts with no slides, an empty order and the untitled flag |
| Editor.Session.Load | script.js:33-99 | after loading, the flag, slides and returned metadata are those of the parse; when the previous order names only new slides, the order is the one derived from `#VerseOrder`, every entry names a slide, and an untitled song can be saved; otherwise rendering the old order throws, the old order stays and the state is invalid |
| Editor.RendersOrder | script.js:139-143 | rendering the order list reaches the end exactly when every entry names a slide (`allSlides[index].title` throws otherwise) |
| Editor.ValidCanSave | script.js:226-233 | an order of slide indices with slides that have content (titled) or that are titled by their first line (untitled) lets the save handler run to the end |
| Editor.Session.DeriveOrder | script.js:122-134 | the order becomes the derived order and the slides stay |
| Editor.Session.RemoveFromOrder | script.js:148-151 | the entry at the index is removed (nothing when past the end), with valid entries kept valid |
| Editor.Session.MoveWithinOrder | script.js:170-180 | the entry is moved to the drop place or the end, the order stays a permutation, without duplicates if it had none |
| Editor.Session.AddToOrder | script.js:182-190 | a new slide index is inserted at the drop place or appended; a present one or an unparsable drag is ignored; no duplicate is created |
| Editor.Session.EditTitle | script.js:193-201 | the slide at the index, if any, takes the new title; all else stays |
| Editor.Session.AddSlide | script.js:203-206 | a slide `Neue Folie` with one empty line is appended; all else stays |
| Editor.Session.Serialize | script.js:219-237 | the text written is exactly the specified save text |

## Left out

- Loading and saving I/O is not modelled. This covers:
  - `fetch` of a URL with a bearer token, and `FileReader` with the `latin1` decoding;
  - the PUT request, and the download of a `Blob` with a byte-order mark;
  - the alerts.
  
  `Load` takes the decoded text and `Serialize` returns the text.
- The attribute inputs are not modelled, because they are DOM fields:
  - `Load` returns the metadata map instead of filling them;
  - `Serialize` takes the attributes as a list of (id, value) pairs, in page order.
- DOM rendering (`renderSlides`, `renderOrderList`) is not modelled, because it only displays state. The one effect on state that is modelled is `renderOrderList` throwing on an order entry that names no slide (`Editor.RendersOrder`), which stops a reload before the new order is derived.
- Drag-and-drop event plumbing is not modelled:
  - the drop target's position becomes the `to` argument (negative when the drop hit no entry);
  - `parseInt` of the drag data becomes an `Option<int>` (`None` for `NaN`).
- Editor.Session.MoveWithinOrder: requires the dragged entry's index to be in range. With an index out of range the source would push `undefined` into the order, which this model has no value for.
- Editor.Session.AddToOrder: the validity of the order after the edit is promised only when the dropped index names a slide. The source accepts any number and then fails when it renders the order.
- Editor.Session.Serialize: requires `CanSave`.
  - Every order entry, when the order line is written, must name a slide.
  - Every titled slide must have a first content line.

  Otherwise the source throws a `TypeError` and writes nothing.
- Serializer.TitledRoundTrip, Serializer.VerseOrderRoundTrip: the round trips are stated for slides that can be read back. Each such slide has:
  - a clean title;
  - a first line that does not start with the title;
  - content lines that are neither headers nor separators.

  Other slides are not covered by these lemmas. Some of them read back changed: a title that is no keyword, such as `Neue Folie`, comes back as a content line, and a content line starting with `#` moves into the metadata. Others, such as an untitled first slide whose first line is not a title, read back unchanged without a lemma here saying so.
- Text.Trim and Titles.IsTitle know a narrower whitespace set than JavaScript's `trim()` and `\s`: the ASCII blanks, no-break space and the byte-order mark. Other Unicode spaces are not modelled.
- Titles.IsTitle folds case for ASCII letters only. A non-Unicode `/i` pattern never maps a character outside ASCII onto an ASCII letter, so for these keywords this is exact.
- Editor.Session.EditTitle: the slide index is an integer. The source's string index from `dataset` is not modelled.
- The untitled song with a final line break (`Scenarios.UntitledSong`) ends in an empty content line, because the code splits the text on every line break and keeps the empty last line.
