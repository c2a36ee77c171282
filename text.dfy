/** The texts that are sent to the embedder for a result: the ranking
    template `youtubeResultToText` and the two fallbacks used for feedback
    targets. */
module TextHelpers {
  import opened Wrappers
  import opened Results

  /** The characters `String.prototype.trim` removes: the ECMAScript
      WhiteSpace and LineTerminator code points. */
  predicate IsSpace(c: char) {
    ('\U{0009}' <= c <= '\U{000D}') || c == ' ' || c == '\U{00A0}' || c == '\U{1680}'
    || ('\U{2000}' <= c <= '\U{200A}') || c == '\U{2028}' || c == '\U{2029}'
    || c == '\U{202F}' || c == '\U{205F}' || c == '\U{3000}' || c == '\U{FEFF}'
  }

  /** The characters of `s` from `lo` up to `hi` are all white space. */
  predicate AllSpace(s: string, lo: int, hi: int) {
    forall k :: lo <= k < hi && 0 <= k < |s| ==> IsSpace(s[k])
  }

  /** `s` with its trailing white space removed. */
  function TrimEnd(s: string): (r: string)
    ensures r <= s
    ensures forall k :: |r| <= k < |s| ==> IsSpace(s[k])
    ensures |r| > 0 ==> !IsSpace(r[|r| - 1])
    decreases |s|
  {
    if |s| > 0 && IsSpace(s[|s| - 1]) then TrimEnd(s[..|s| - 1]) else s
  }

  /** `s` with its leading white space removed. */
  function TrimStart(s: string): (r: string)
    ensures |r| <= |s| && r == s[|s| - |r|..]
    ensures forall k :: 0 <= k < |s| - |r| ==> IsSpace(s[k])
    ensures |r| > 0 ==> !IsSpace(r[0])
    decreases |s|
  {
    if |s| > 0 && IsSpace(s[0]) then TrimStart(s[1..]) else s
  }

  /** `String.prototype.trim`: what is left between the leading and the
      trailing white space. */
  function Trim(s: string): (r: string)
    ensures |r| <= |s|
    ensures |r| > 0 ==> !IsSpace(r[0]) && !IsSpace(r[|r| - 1])
  {
    var r := TrimStart(TrimEnd(s));
    assert |r| > 0 ==> r[|r| - 1] == TrimEnd(s)[|TrimEnd(s)| - 1];
    r
  }

  /** What `Trim` keeps is a slice of its input with only white space on
      either side of it. */
  lemma {:induction false} TrimIsSlice(s: string)
    ensures var r := Trim(s);
            var i := |TrimEnd(s)| - |r|;
            0 <= i && i + |r| <= |s| && r == s[i..i + |r|]
            && AllSpace(s, 0, i) && AllSpace(s, i + |r|, |s|)
  {
    var e := TrimEnd(s);
    var r := TrimStart(e);
    assert Trim(s) == r;
    SliceOfPrefix(s, e, r);
    assert AllSpace(s, |e|, |s|);
  }

  /** A suffix `r` of a prefix `e` of `s`, preceded in `e` by white space
      only, is a slice of `s` preceded by white space only. */
  lemma {:induction false} SliceOfPrefix(s: string, e: string, r: string)
    requires e <= s && |r| <= |e| && r == e[|e| - |r|..]
    requires forall k :: 0 <= k < |e| - |r| ==> IsSpace(e[k])
    ensures r == s[|e| - |r|..|e|] && AllSpace(s, 0, |e| - |r|)
  {
    assert e == s[..|e|];
    forall k | 0 <= k < |e| - |r| ensures IsSpace(s[k]) {
      assert s[k] == e[k];
    }
  }

  /** Trimming keeps a prefix that ends in a non-space character, and a
      string that starts with a non-space character loses nothing at its
      front. */
  lemma {:induction false} TrimKeepsPrefix(s: string, p: string)
    requires p <= s && |p| > 0 && !IsSpace(p[0]) && !IsSpace(p[|p| - 1])
    ensures p <= Trim(s)
    ensures Trim(s) == TrimEnd(s)
    decreases |s|
  {
    if |s| > |p| && IsSpace(s[|s| - 1]) {
      TrimKeepsPrefix(s[..|s| - 1], p);
    }
  }

  /** The fixed head of every YouTube text: the word and the first
      separator. It ends in a bar, so trimming never eats into it. */
  const YouTubeHead: string := "YouTube |"

  /** `YouTube | p0 | p1 | …`, before trimming. */
  function YouTubeTemplate(parts: seq<string>): string {
    if |parts| == 0 then "YouTube"
    else YouTubeTemplate(parts[..|parts| - 1]) + " | " + parts[|parts| - 1]
  }

  lemma {:induction false} TemplateHead(parts: seq<string>)
    requires |parts| > 0
    ensures YouTubeHead <= YouTubeTemplate(parts)
  {
    if |parts| > 1 {
      TemplateHead(parts[..|parts| - 1]);
    } else {
      assert parts[..0] == [];
    }
  }

  /** A trimmed template keeps its head, is a prefix of the template with
      only white space cut off, and ends in a non-space character. */
  lemma {:induction false} TemplateTrim(parts: seq<string>)
    requires |parts| > 0
    ensures var full := YouTubeTemplate(parts);
            var t := Trim(full);
            YouTubeHead <= t && t <= full && (forall k :: |t| <= k < |full| ==> IsSpace(full[k]))
            && |t| > 0 && !IsSpace(t[|t| - 1])
  {
    var full := YouTubeTemplate(parts);
    TemplateHead(parts);
    TrimKeepsPrefix(full, YouTubeHead);
    var e := TrimEnd(full);
    assert Trim(full) == e;
    assert |e| > 0 && !IsSpace(e[|e| - 1]);
  }

  /** The template over `parts` with its trailing white space removed. */
  function TrimmedTemplate(parts: seq<string>): (t: string)
    requires |parts| > 0
    ensures YouTubeHead <= t
    ensures |t| > 0 && !IsSpace(t[|t| - 1])
    ensures var full := YouTubeTemplate(parts);
            t <= full && (forall k :: |t| <= k < |full| ==> IsSpace(full[k]))
  {
    TemplateTrim(parts);
    Trim(YouTubeTemplate(parts))
  }

  /** `youtubeResultToText`: the template `YouTube | channel | title |
      description` with trailing white space removed. */
  function YoutubeResultToText(r: FilteredResult): (s: string)
    ensures YouTubeHead <= s
    ensures |s| > 0 && !IsSpace(s[|s| - 1])
    ensures var full := YouTubeTemplate([r.channelTitle, r.title, r.description]);
            s <= full && (forall k :: |s| <= k < |full| ==> IsSpace(full[k]))
  {
    TrimmedTemplate([r.channelTitle, r.title, r.description])
  }

  /** The three identifying fields `youtubeResultToTextSafe` reads, each
      defaulting to the empty string when it or its parent object is absent. */
  function SnippetTitle(r: FeedbackItem): string {
    if r.snippet.Some? then OrElse(r.snippet.value.title, "") else ""
  }

  function SnippetChannel(r: FeedbackItem): string {
    if r.snippet.Some? then OrElse(r.snippet.value.channelTitle, "") else ""
  }

  function ItemVideoId(r: FeedbackItem): string {
    if r.id.Some? then OrElse(r.id.value.videoId, "") else ""
  }

  /** `youtubeResultToTextSafe`: no text when title, channel and video id are
      all empty, otherwise the trimmed `YouTube | channel | title`. */
  function YoutubeResultToTextSafe(r: FeedbackItem): (s: Option<string>)
    ensures s.None? <==> SnippetTitle(r) == "" && SnippetChannel(r) == "" && ItemVideoId(r) == ""
    ensures s.Some? ==> YouTubeHead <= s.value
    ensures s.Some? ==> |s.value| > 0 && !IsSpace(s.value[|s.value| - 1])
    ensures s.Some? ==> var full := YouTubeTemplate([SnippetChannel(r), SnippetTitle(r)]);
            s.value <= full && (forall k :: |s.value| <= k < |full| ==> IsSpace(full[k]))
  {
    var title := SnippetTitle(r);
    var channel := SnippetChannel(r);
    var videoId := ItemVideoId(r);
    if title == "" && channel == "" && videoId == "" then None
    else
      Some(TrimmedTemplate([channel, title]))
  }

  /** The non-empty strings of `parts`, in order (`filter(Boolean)`). */
  function NonEmpty(parts: seq<string>): (r: seq<string>)
    ensures forall k :: 0 <= k < |r| ==> r[k] != ""
    ensures forall x :: x in r <==> x in parts && x != ""
    ensures |r| <= |parts|
    ensures |parts| > 0 && parts[0] != "" ==> |r| > 0 && r[0] == parts[0]
    decreases |parts|
  {
    if |parts| == 0 then []
    else if parts[0] == "" then NonEmpty(parts[1..])
    else [parts[0]] + NonEmpty(parts[1..])
  }

  /** Filtering distributes over concatenation, so the kept parts stay in
      their input order. */
  lemma {:induction false} NonEmptyAppend(a: seq<string>, b: seq<string>)
    ensures NonEmpty(a + b) == NonEmpty(a) + NonEmpty(b)
    decreases |a|
  {
    if |a| == 0 {
      assert a + b == b;
    } else {
      assert (a + b)[0] == a[0];
      assert (a + b)[1..] == a[1..] + b;
      NonEmptyAppend(a[1..], b);
    }
  }

  /** `parts.join(sep)`: the parts with `sep` between neighbours. A single
      part joins to itself, and the text is empty exactly when every part is
      empty and no separator is written. */
  function Join(parts: seq<string>, sep: string): (s: string)
    ensures |parts| == 1 ==> s == parts[0]
    ensures |parts| > 0 ==> parts[0] <= s
    ensures s == "" <==> (forall k :: 0 <= k < |parts| ==> parts[k] == "") && (|parts| <= 1 || sep == "")
    decreases |parts|
  {
    if |parts| == 0 then ""
    else if |parts| == 1 then parts[0]
    else parts[0] + sep + Join(parts[1..], sep)
  }

  /** Appending a part to a non-empty list writes one separator and then
      the part. */
  lemma {:induction false} JoinSnoc(a: seq<string>, x: string, sep: string)
    requires |a| > 0
    ensures Join(a + [x], sep) == Join(a, sep) + sep + x
    decreases |a|
  {
    if |a| == 1 {
      assert (a + [x])[1..] == [x];
    } else {
      assert (a + [x])[1..] == a[1..] + [x];
      JoinSnoc(a[1..], x, sep);
    }
  }

  function GenericTitle(r: FeedbackItem): string {
    OrElse(r.title, OrElse(r.name, ""))
  }

  function GenericChannel(r: FeedbackItem): string {
    OrElse(r.channelTitle, OrElse(r.author, OrElse(r.channel, "")))
  }

  /** The leading part of a generic text: the platform, or `Item` when it is
      absent or empty. */
  function GenericHead(r: FeedbackItem): (h: string)
    ensures h != ""
  {
    var platform := OrElse(r.platform, "");
    if platform != "" then platform else "Item"
  }

  /** `genericTextFromResult`: the non-empty ones of platform (or `Item`),
      channel and title joined by ` | `. The head part is never empty, so
      neither is the text, and the `undefined` branch of the source is never
      taken. */
  function GenericTextFromResult(r: FeedbackItem): (s: Option<string>)
    ensures s.Some? && s.value != ""
    ensures s.Some? ==> GenericHead(r) <= s.value
  {
    var parts := NonEmpty([GenericHead(r), GenericChannel(r), GenericTitle(r)]);
    var joined := Join(parts, " | ");
    if joined != "" then Some(joined) else None
  }

  /** The generic text is the head, then ` | channel` when the channel is
      not empty, then ` | title` when the title is not empty. */
  lemma {:induction false} GenericTextParts(r: FeedbackItem)
    ensures GenericTextFromResult(r).value
            == GenericHead(r)
               + (if GenericChannel(r) != "" then " | " + GenericChannel(r) else "")
               + (if GenericTitle(r) != "" then " | " + GenericTitle(r) else "")
  {
    JoinThree(GenericHead(r), GenericChannel(r), GenericTitle(r), " | ");
  }

  /** Joining the non-empty ones of a non-empty head and two more parts. */
  lemma {:induction false} JoinThree(h: string, c: string, t: string, sep: string)
    requires h != ""
    ensures Join(NonEmpty([h, c, t]), sep)
            == h + (if c != "" then sep + c else "") + (if t != "" then sep + t else "")
  {
    NonEmptyThree(h, c, t);
    var cs: seq<string> := if c != "" then [c] else [];
    var ts: seq<string> := if t != "" then [t] else [];
    var hc := [h] + cs;
    JoinSnocIf(hc, t, sep);
    JoinSnocIf([h], c, sep);
    assert hc + ts == [h] + cs + ts;
  }

  /** Appending a part that may be empty: nothing is written for an empty
      one. */
  lemma {:induction false} JoinSnocIf(a: seq<string>, x: string, sep: string)
    requires |a| > 0
    ensures Join(a + (if x != "" then [x] else []), sep) == Join(a, sep) + (if x != "" then sep + x else "")
  {
    if x != "" {
      JoinSnoc(a, x, sep);
    } else {
      assert a + [] == a;
    }
  }

  /** The non-empty ones of a non-empty head and two more parts. */
  lemma {:induction false} NonEmptyThree(h: string, c: string, t: string)
    requires h != ""
    ensures NonEmpty([h, c, t]) == [h] + (if c != "" then [c] else []) + (if t != "" then [t] else [])
  {
    NonEmptyCons(t, []);
    NonEmptyCons(c, [t]);
    NonEmptyCons(h, [c, t]);
    assert [t] + [] == [t] && [c] + [t] == [c, t] && [h] + [c, t] == [h, c, t];
  }

  /** Filtering a list with a first part keeps that part when it is not
      empty, then filters the rest. */
  lemma {:induction false} NonEmptyCons(x: string, rest: seq<string>)
    ensures NonEmpty([x] + rest) == (if x != "" then [x] else []) + NonEmpty(rest)
  {
    assert ([x] + rest)[1..] == rest;
  }
}
