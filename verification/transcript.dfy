/**
  `fetch_youtube_transcript`: extract the video identifier, ask the transcript
  provider for that identifier's segments, and render each segment as one
  "[MM:SS] text" line. The provider (a network call in the running program)
  is a parameter here: a function from identifier to either the segments or
  the description of the failure it raised.
 */
module Transcript {
  import opened Wrappers
  import opened Decimal
  import opened Timestamp
  import opened Lines
  import opened VideoId

  /**
    One captioned unit as the provider returns it: its start offset, as whole
    seconds, and its text. The provider's duration field is never read.
   */
  datatype Segment = Segment(start: nat, text: string)

  /** The two ways the function fails. */
  datatype Error =
    | InvalidUrl(message: string)   // ValueError raised before the provider is asked
    | FetchFailed(message: string)  // any exception from the provider, re-raised

  const InvalidUrlMessage: string := "Invalid YouTube URL"
  const FetchErrorPrefix: string := "Error fetching transcript: "

  /** What the provider gives back for an identifier: segments, or the failure's description. */
  type Provider = string -> Result<seq<Segment>, string>

  /** Index of the first occurrence of `c` in `s` at or after `from`. */
  function FirstIndexFrom(s: string, c: char, from: nat): (r: Option<nat>)
    requires from <= |s|
    ensures r.Some? ==> from <= r.value < |s| && s[r.value] == c
    ensures r.Some? ==> forall j :: from <= j < r.value ==> s[j] != c
    ensures r.None? ==> forall j :: from <= j < |s| ==> s[j] != c
    decreases |s| - from
  {
    if from == |s| then None
    else if s[from] == c then Some(from)
    else FirstIndexFrom(s, c, from + 1)
  }

  /** `f"{timestamp} {snippet.text}"`: label, one space, then the text unchanged. */
  function FormatEntry(seg: Segment): string {
    FormatTimestamp(seg.start) + " " + seg.text
  }

  /** An entry spans one line exactly when its text does. */
  lemma EntryIsOneLine(seg: Segment)
    ensures '\n' in FormatEntry(seg) <==> '\n' in seg.text
  {
    var ts := FormatTimestamp(seg.start);
    var e := FormatEntry(seg);
    TimestampCharacters(seg.start);
    if '\n' in seg.text {
      var j :| 0 <= j < |seg.text| && seg.text[j] == '\n';
      assert e[|ts| + 1 + j] == '\n';
    } else {
      forall j | 0 <= j < |e| ensures e[j] != '\n' {
        if j < |ts| { assert e[j] == ts[j]; }
        else if j > |ts| { assert e[j] == seg.text[j - |ts| - 1]; }
      }
    }
  }

  /**
    Reads an entry back: the label runs up to the first ']', a single space
    follows, and the rest is the text.
   */
  function ParseEntry(e: string): (r: Option<Segment>)
    ensures r.Some? ==> |e| > 0 && e[0] == '['
  {
    match FirstIndexFrom(e, ']', 0)
    case None => None
    case Some(k) =>
      if k + 1 < |e| && e[k + 1] == ' ' then
        match ParseTimestamp(e[..k + 1])
        case None => None
        case Some(start) => Some(Segment(start, e[k + 2..]))
      else None
  }

  /** Each entry reads back as the segment it was made from, whatever its text holds. */
  lemma EntryRoundTrip(seg: Segment)
    ensures ParseEntry(FormatEntry(seg)) == Some(seg)
  {
    TimestampCharacters(seg.start);
    TimestampRoundTrip(seg.start);
    ParseLabelledText(FormatTimestamp(seg.start), seg.start, seg.text);
  }

  /** A timestamp label that ends at its only ']' and parses to `start`, then a space and any text, parses to that segment. */
  lemma ParseLabelledText(stamp: string, start: nat, text: string)
    requires |stamp| > 0 && stamp[|stamp| - 1] == ']'
    requires forall j :: 0 <= j < |stamp| - 1 ==> stamp[j] != ']'
    requires ParseTimestamp(stamp) == Some(start)
    ensures ParseEntry(stamp + " " + text) == Some(Segment(start, text))
  {
    var e := stamp + " " + text;
    var k := |stamp| - 1;
    assert e[..k + 1] == stamp && e[k + 1] == ' ' && e[k + 2..] == text;
    assert FirstIndexFrom(e, ']', 0) == Some(k) by {
      assert e[k] == ']';
    }
  }

  /** The entries of a transcript, one per segment, in segment order. */
  function Entries(segs: seq<Segment>): (lines: seq<string>)
    ensures |lines| == |segs|
    ensures forall i :: 0 <= i < |segs| ==> lines[i] == FormatEntry(segs[i])
  {
    seq(|segs|, i requires 0 <= i < |segs| => FormatEntry(segs[i]))
  }

  /**
    The formatted transcript: the entries joined by single newlines. It is
    empty exactly when there are no segments, and starts with the first entry.
    Nothing follows the last entry (see JoinEndsWithLastLine).
   */
  function FormatTranscript(segs: seq<Segment>): (out: string)
    ensures out == "" <==> |segs| == 0
    ensures |segs| > 0 ==> FormatEntry(segs[0]) <= out
  {
    var entries := Entries(segs);
    if |segs| > 0 then JoinStartsWithFirstLine(entries); JoinLines(entries) else JoinLines(entries)
  }

  /** No segment text contains a newline. */
  predicate SingleLineTexts(segs: seq<Segment>) {
    forall i :: 0 <= i < |segs| ==> '\n' !in segs[i].text
  }

  /**
    When no text contains a newline and there is at least one segment, the
    output splits on '\n' into exactly the entries: one line per segment, in
    segment order.
   */
  lemma TranscriptLines(segs: seq<Segment>)
    requires |segs| >= 1 && SingleLineTexts(segs)
    ensures SplitLines(FormatTranscript(segs)) == Entries(segs)
    ensures |SplitLines(FormatTranscript(segs))| == |segs|
  {
    forall i | 0 <= i < |segs| ensures '\n' !in Entries(segs)[i] {
      EntryIsOneLine(segs[i]);
    }
    SplitJoin(Entries(segs));
  }

  /** Reads every line of a list back into a segment, failing if any line does not parse. */
  function ParseEntries(lines: seq<string>): (r: Option<seq<Segment>>)
    ensures r.Some? ==> |r.value| == |lines|
    decreases |lines|
  {
    if |lines| == 0 then Some([])
    else
      match ParseEntry(lines[0])
      case None => None
      case Some(seg) =>
        match ParseEntries(lines[1..])
        case None => None
        case Some(rest) => Some([seg] + rest)
  }

  /** Reads a formatted transcript back into its segments; "" holds none. */
  function ParseTranscript(out: string): Option<seq<Segment>> {
    if out == "" then Some([]) else ParseEntries(SplitLines(out))
  }

  /** A list of lines parses to the segments each line parses to, in order. */
  lemma {:induction false} ParseEntriesPointwise(lines: seq<string>, segs: seq<Segment>)
    requires |lines| == |segs|
    requires forall i :: 0 <= i < |lines| ==> ParseEntry(lines[i]) == Some(segs[i])
    ensures ParseEntries(lines) == Some(segs)
    decreases |lines|
  {
    if |lines| > 0 {
      assert ParseEntry(lines[0]) == Some(segs[0]);
      ParseEntriesPointwise(lines[1..], segs[1..]);
      assert [segs[0]] + segs[1..] == segs;
    }
  }

  lemma ParseEntriesOfEntries(segs: seq<Segment>)
    ensures ParseEntries(Entries(segs)) == Some(segs)
  {
    var lines := Entries(segs);
    forall i | 0 <= i < |lines| ensures ParseEntry(lines[i]) == Some(segs[i]) {
      EntryRoundTrip(segs[i]);
    }
    ParseEntriesPointwise(lines, segs);
  }

  /**
    The formatted transcript determines the segments it was made from, as long
    as no text contains a newline: nothing is dropped, reordered or altered.
   */
  lemma TranscriptRoundTrip(segs: seq<Segment>)
    requires SingleLineTexts(segs)
    ensures ParseTranscript(FormatTranscript(segs)) == Some(segs)
  {
    if |segs| > 0 {
      TranscriptLines(segs);
      ParseEntriesOfEntries(segs);
    }
  }

  /**
    The whole function. A URL without an identifier fails with InvalidUrl and
    the provider is not asked; otherwise the provider is asked for the
    extracted identifier, any failure it reports becomes FetchFailed with the
    fixed prefix and its description, and segments become the formatted text.
   */
  function FetchYoutubeTranscript(url: string, provider: Provider): (r: Result<string, Error>)
    ensures r == Failure(InvalidUrl(InvalidUrlMessage)) <==> ExtractVideoId(url).None?
    ensures r.Failure? && r.error.FetchFailed? <==>
              ExtractVideoId(url).Some? && provider(ExtractVideoId(url).value).Failure?
    ensures r.Failure? && r.error.FetchFailed? ==>
              r.error.message == FetchErrorPrefix + provider(ExtractVideoId(url).value).error
    ensures r.Success? <==> ExtractVideoId(url).Some? && provider(ExtractVideoId(url).value).Success?
    ensures r.Success? ==> r.value == FormatTranscript(provider(ExtractVideoId(url).value).value)
  {
    match ExtractVideoId(url)
    case None => Failure(InvalidUrl(InvalidUrlMessage))
    case Some(id) =>
      match provider(id)
      case Failure(description) => Failure(FetchFailed(FetchErrorPrefix + description))
      case Success(segs) => Success(FormatTranscript(segs))
  }

  /** When the URL has no identifier, the provider's behaviour cannot affect the outcome. */
  lemma InvalidUrlIgnoresProvider(url: string, p: Provider, q: Provider)
    requires ExtractVideoId(url).None?
    ensures FetchYoutubeTranscript(url, p) == FetchYoutubeTranscript(url, q) == Failure(InvalidUrl(InvalidUrlMessage))
  {
  }

  /** The provider is asked about the extracted identifier and nothing else. */
  lemma ProviderAskedOnlyForId(url: string, p: Provider, q: Provider)
    requires ExtractVideoId(url).Some? && p(ExtractVideoId(url).value) == q(ExtractVideoId(url).value)
    ensures FetchYoutubeTranscript(url, p) == FetchYoutubeTranscript(url, q)
  {
  }

  /**
    A successful call returns text that reads back as exactly the segments the
    provider gave for the identifier, when no text contains a newline.
   */
  lemma SuccessIsProviderSegments(url: string, p: Provider)
    requires FetchYoutubeTranscript(url, p).Success?
    requires SingleLineTexts(p(ExtractVideoId(url).value).value)
    ensures ParseTranscript(FetchYoutubeTranscript(url, p).value) == Some(p(ExtractVideoId(url).value).value)
  {
    TranscriptRoundTrip(p(ExtractVideoId(url).value).value);
  }

  /** A provider answering with no segments gives the empty string. */
  lemma EmptyTranscript(url: string, p: Provider)
    requires ExtractVideoId(url).Some? && p(ExtractVideoId(url).value) == Success([])
    ensures FetchYoutubeTranscript(url, p) == Success("")
  {
  }

  /** A transcript of two segments is their two entries around one newline. */
  lemma TwoSegments(a: Segment, b: Segment)
    ensures FormatTranscript([a, b]) == FormatEntry(a) + "\n" + FormatEntry(b)
  {
    var entries := Entries([a, b]);
    assert entries == [FormatEntry(a), FormatEntry(b)];
    assert entries[1..] == [FormatEntry(b)];
    assert JoinLines(entries) == entries[0] + "\n" + JoinLines(entries[1..]);
  }

  /**
    Segments starting at 0.0 s ("Hello") and 61.5 s ("World"), the latter
    floored to 61 whole seconds, give "[00:00] Hello\n[01:01] World".
   */
  lemma HelloWorldTranscript(segs: seq<Segment>)
    requires segs == [Segment(0, "Hello"), Segment(61, "World")]
    ensures FormatTranscript(segs) == ("[00:00]" + " " + "Hello") + "\n" + ("[01:01]" + " " + "World")
  {
    assert FormatEntry(segs[0]) == "[00:00]" + " " + "Hello" by { TimestampExamples(); }
    assert FormatEntry(segs[1]) == "[01:01]" + " " + "World" by { TimestampExamples(); }
    assert segs == [segs[0], segs[1]];
    TwoSegments(segs[0], segs[1]);
  }

  /**
    End to end: a watch URL "https://" + "www.youtube.com" + "/" + "watch?v=" + id whose
    provider answers with the two segments above gives their two-line text.
   */
  lemma HelloWorldExample(url: string, id: string, p: Provider, segs: seq<Segment>)
    requires |id| == IdLength && AllIdChars(id)
    requires url == "https://" + "www.youtube.com" + "/" + "watch?v=" + id
    requires segs == [Segment(0, "Hello"), Segment(61, "World")] && p(id) == Success(segs)
    ensures FetchYoutubeTranscript(url, p) == Success(("[00:00]" + " " + "Hello") + "\n" + ("[01:01]" + " " + "World"))
  {
    WatchUrlYieldsId(url, id);
    HelloWorldTranscript(segs);
  }

  /** A three-segment transcript splits into its three entries, each its segment's label, a space and its text. */
  lemma ThreeLabelledLines(segs: seq<Segment>, a: string, b: string, c: string)
    requires |segs| == 3 && SingleLineTexts(segs)
    requires FormatTimestamp(segs[0].start) == a && FormatTimestamp(segs[1].start) == b && FormatTimestamp(segs[2].start) == c
    ensures SplitLines(FormatTranscript(segs)) == [a + " " + segs[0].text, b + " " + segs[1].text, c + " " + segs[2].text]
  {
    assert Entries(segs) == [FormatEntry(segs[0]), FormatEntry(segs[1]), FormatEntry(segs[2])];
    TranscriptLines(segs);
  }

  /** Segments starting at 0, 65 and 125 seconds give lines labelled [00:00], [01:05] and [02:05], in that order. */
  lemma LabelsInOrder(segs: seq<Segment>)
    requires |segs| == 3 && SingleLineTexts(segs)
    requires segs[0].start == 0 && segs[1].start == 65 && segs[2].start == 125
    ensures SplitLines(FormatTranscript(segs)) ==
              ["[00:00]" + " " + segs[0].text, "[01:05]" + " " + segs[1].text, "[02:05]" + " " + segs[2].text]
  {
    TimestampExamples();
    ThreeLabelledLines(segs, "[00:00]", "[01:05]", "[02:05]");
  }
}
