// The document model of the SNG editor: slides with an optional title and
// raw content lines, and the metadata read from `#key=value` header lines.

module Song {

  datatype Option<T> = None | Some(value: T)

  /** One slide: its title (possibly empty) and its content lines, kept
      verbatim. */
  datatype Slide = Slide(title: string, content: seq<string>)

  /** What parsing a text yields: the metadata map and the slides in
      storage order. */
  datatype Document = Document(meta: map<string, string>, slides: seq<Slide>)

  /** `meta[key]`, which is `undefined` for a missing key. */
  function Lookup(meta: map<string, string>, key: string): (r: Option<string>)
    ensures r.Some? <==> key in meta
    ensures r.Some? ==> r.value == meta[key]
  {
    if key in meta then Some(meta[key]) else None
  }

  /** The titles of a slide list, in storage order. */
  function Titles(slides: seq<Slide>): (r: seq<string>)
    ensures |r| == |slides|
    ensures forall k :: 0 <= k < |slides| ==> r[k] == slides[k].title
  {
    seq(|slides|, k requires 0 <= k < |slides| => slides[k].title)
  }

  /** All content lines of all slides, slide after slide. */
  function Flatten(slides: seq<Slide>): seq<string>
    decreases |slides|
  {
    if slides == [] then [] else Flatten(slides[..|slides| - 1]) + slides[|slides| - 1].content
  }
}
