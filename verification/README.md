# Transcript formatter, verified model

This project models `fetch_youtube_transcript` from
`agents/1-tool_use/test_transcript.py` in Dafny and proves properties of it.
The function takes a YouTube URL and does three things. It extracts the
eleven-character video identifier with a fixed regular expression. It asks a
transcript provider for that video's timed segments. It renders each segment
as a line `[MM:SS] text` and joins the lines with newlines. The function
fails in two ways. A URL without an identifier raises `ValueError("Invalid
YouTube URL")` before the provider is asked. Any failure of the provider is
re-raised as `Exception("Error fetching transcript: " + description)`.

Modules, one per concept:

- `Wrappers` (`wrappers.dfy`): `Option` and `Result`.
- `VideoId` (`video_id.dfy`): the pattern `(?:v=|\/)([0-9A-Za-z_-]{11}).*`
  under `re.search`. It is written as a direct leftmost scan, and the scan
  is specified by the quantified predicates `MatchesAt` / `IsLeftmostMatch`.
- `Decimal` (`decimal.dfy`): `str(n)` and the `02d` format, with the digit
  parse that inverts them.
- `Timestamp` (`timestamp.dfy`): the `[MM:SS]` label, its parse, and the
  link between Python's float `//` and `%` and whole seconds.
- `Lines` (`lines.dfy`): `"\n".join`, with `str.split("\n")` as its inverse.
- `Transcript` (`transcript.dfy`): segments, entries, the joined transcript,
  its parse, and the whole function. The provider is a function parameter
  from identifier to segments or error description.

Each formatter has a parser or predicate that inverts or specifies it:

- `ParseTimestamp` for `FormatTimestamp`;
- `ParseEntry` / `ParseTranscript` for the entry and transcript formatting;
- `SplitLines` for `JoinLines`;
- `ValueOf` for `Digits` / `Pad2`;
- `MatchesAt` / `IsLeftmostMatch` for the scan.

Two consequences of the code are worth stating plainly.

- Only the leftmost match counts. Any `v=` or `/` followed by eleven
  alphabet characters starts a match, and `re.search` reports the first one.
  So an earlier path segment of eleven or more alphabet characters wins over
  a later `v=` parameter (`EarlierPathSegmentWins`).
- For one or more segments whose texts contain no newline, the output has
  exactly one line per segment (`TranscriptLines`). With no segments the
  output is `""`, and Python's `"".split("\n")` is `[""]`, one empty piece
  (`Lines.SplitEmpty`). An entry contains a newline exactly when its text
  does (`EntryIsOneLine`); how many lines such a text adds is not stated.

## Model

| member | source | states |
|---|---|---|
| VideoId.GroupStart | agents/1-tool_use/test_transcript.py:18 | A match at an index is either "v=" there with the group starting two later, or '/' there with the group starting one later. In both cases eleven alphabet characters follow. When it reports no match, neither alternative matches. |
| VideoId.GroupAt | agents/1-tool_use/test_transcript.py:24 | `group(1)` of a match is eleven characters, all from `[0-9A-Za-z_-]`. |
| VideoId.FirstMatchFrom | agents/1-tool_use/test_transcript.py:19 | The scan returns the first matching index at or after its start, or reports that no index from there matches. |
| VideoId.MatchIndex | agents/1-tool_use/test_transcript.py:19 | `re.search` reports the leftmost matching index, or there is no match at any index. |
| VideoId.ExtractVideoId | agents/1-tool_use/test_transcript.py:18-24 | The identifier has exactly 11 characters, all from `[0-9A-Za-z_-]`. It exists iff some index matches. It is the group of the leftmost match. |
| VideoId.ExtractIsLeftmostGroup | agents/1-tool_use/test_transcript.py:18-24 | Both directions: the result is Some(id) iff id is the group of the leftmost match. |
| VideoId.IdFollowsMarker | agents/1-tool_use/test_transcript.py:18-24 | The returned identifier is exactly the eleven characters that follow some "v=" or '/' in the URL. |
| VideoId.MarkedIdIsReturned | agents/1-tool_use/test_transcript.py:18-24 | A marker-preceded identifier is the reported match iff no earlier index matches. In that case its characters are returned. |
| VideoId.WatchUrlYieldsId | agents/1-tool_use/test_transcript.py:18-24 | For every eleven-character id, "https://www.youtube.com/watch?v=" + id yields id. |
| VideoId.PathSegmentYieldsId | agents/1-tool_use/test_transcript.py:18-24 | On a www.youtube.com URL whose path starts with eleven alphabet characters, those characters are the identifier, whatever follows them. |
| VideoId.QueryParameterMatches | agents/1-tool_use/test_transcript.py:18 | Wherever "v=" is followed by eleven alphabet characters, a match starts at the "v" and its group is those eleven characters, whatever follows them (more alphabet characters, `&t=42s`, or nothing). |
| VideoId.WatchUrlExample | agents/1-tool_use/test_transcript.py:50 | The smoke-test URL "https://www.youtube.com/watch?v=dQw4w9WgXcQ" yields "dQw4w9WgXcQ". |
| VideoId.NoIdExample | agents/1-tool_use/test_transcript.py:18-22 | "https://example.com/no-id-here" has no match. |
| VideoId.EarlierPathSegmentWins | agents/1-tool_use/test_transcript.py:18-24 | In ".../attribution_link?v=dQw4w9WgXcQ" both a '/' occurrence and the "v=" occurrence match, and the earlier '/' one, "attribution", is returned. |
| Decimal.Digits | agents/1-tool_use/test_transcript.py:36 | The decimal numeral is non-empty and all digits. It starts with '0' only for 0. It has one digit iff n < 10 and two iff 10 <= n < 100. |
| Decimal.ValueOfDigits | agents/1-tool_use/test_transcript.py:36 | Parsing the numeral of n gives n back. |
| Decimal.Pad2 | agents/1-tool_use/test_transcript.py:36 | `02d`: at least two digits, denoting n. Exactly two iff n < 100. A wider field has no leading zero. |
| Decimal.Pad2TwoDigits | agents/1-tool_use/test_transcript.py:36 | Below 100 the field is the tens digit then the units digit. |
| Decimal.Pad2ThreeDigits | agents/1-tool_use/test_transcript.py:36 | From 100 to 999 the field is the plain three-digit numeral, not cut to two. |
| Timestamp.FormatTimestamp | agents/1-tool_use/test_transcript.py:34-36 | The label is '[', minutes, ':', seconds, ']'. The seconds field is two digits with value s % 60 < 60. The minutes field has value s / 60 and is zero-padded to at least two digits. The label is 7 characters long iff s < 6000. |
| Timestamp.TimestampRoundTrip | agents/1-tool_use/test_transcript.py:34-36 | Parsing a label gives back the offset it was made from. |
| Timestamp.TimestampInjective | agents/1-tool_use/test_transcript.py:34-36 | Different whole-second offsets get different labels. |
| Timestamp.TimestampCharacters | agents/1-tool_use/test_transcript.py:36 | A label has no ']' before its end and no space or newline. |
| Timestamp.FixedWidthLabel | agents/1-tool_use/test_transcript.py:34-36 | Below 100 minutes the label is exactly [MM:SS], digit by digit. |
| Timestamp.ThreeDigitMinutesLabel | agents/1-tool_use/test_transcript.py:34-36 | From 100 to 999 minutes the label is [MMM:SS], with no hours field. |
| Timestamp.TimestampExamples | agents/1-tool_use/test_transcript.py:34-36 | 0, 61, 65 and 125 seconds give [00:00], [01:01], [01:05] and [02:05]. |
| Timestamp.NoHoursField | agents/1-tool_use/test_transcript.py:34-36 | 3600 s gives [60:00] and 6000 s gives [100:00]. |
| Timestamp.WholeSecondsSuffice | agents/1-tool_use/test_transcript.py:34-35 | For a real start >= 0, Python's `int(start // 60)` equals floor(start) / 60, and `int(start % 60)` equals floor(start) % 60. |
| Lines.JoinLines | agents/1-tool_use/test_transcript.py:42 | Joining no lines gives "". |
| Lines.JoinStartsWithFirstLine | agents/1-tool_use/test_transcript.py:42 | The join starts with the first line, followed by one newline when more lines come. |
| Lines.JoinEndsWithLastLine | agents/1-tool_use/test_transcript.py:42 | The join ends with the last line itself, with no trailing newline. |
| Lines.SplitJoin | agents/1-tool_use/test_transcript.py:42 | For one or more newline-free lines, splitting the join on '\n' gives back exactly those lines, in order. |
| Lines.JoinSplit | agents/1-tool_use/test_transcript.py:42 | Joining the pieces of any split rebuilds the string. |
| Transcript.EntryRoundTrip | agents/1-tool_use/test_transcript.py:38 | `FormatEntry` is line 38. An entry is the label, one space and the unchanged text: parsing it gives back the exact segment, whatever the text holds. |
| Transcript.EntryIsOneLine | agents/1-tool_use/test_transcript.py:38 | An entry contains a newline iff its text does. |
| Transcript.Entries | agents/1-tool_use/test_transcript.py:31-39 | The loop's `formatted_entries` has one entry per segment, and the i-th entry is the i-th segment's entry, so the order is the segment order. |
| Transcript.FormatTranscript | agents/1-tool_use/test_transcript.py:31-42 | The output is "" iff there are no segments. Otherwise it starts with the first segment's entry. |
| Transcript.TwoSegments | agents/1-tool_use/test_transcript.py:42 | Two segments give their two entries around a single newline. |
| Transcript.TranscriptLines | agents/1-tool_use/test_transcript.py:31-42 | For one or more segments with newline-free texts, splitting the output on '\n' gives exactly the entries, in segment order, one per segment. |
| Transcript.TranscriptRoundTrip | agents/1-tool_use/test_transcript.py:31-42 | With newline-free texts, the output parses back to exactly the segments: nothing dropped, reordered or altered. |
| Transcript.FetchYoutubeTranscript | agents/1-tool_use/test_transcript.py:6-45 | InvalidUrl("Invalid YouTube URL") iff no identifier is found. FetchFailed iff an identifier is found and the provider fails for it, with message "Error fetching transcript: " + description. Success exactly when an identifier is found and the provider answers with segments, and then the text is exactly `FormatTranscript` of those segments. |
| Transcript.InvalidUrlIgnoresProvider | agents/1-tool_use/test_transcript.py:21-28 | Without an identifier the outcome is InvalidUrl whatever the provider would answer, so the provider is not consulted. |
| Transcript.ProviderAskedOnlyForId | agents/1-tool_use/test_transcript.py:24-28 | The provider's answer for the extracted identifier is all that affects the outcome. |
| Transcript.SuccessIsProviderSegments | agents/1-tool_use/test_transcript.py:26-42 | When the provider's texts are newline-free, a successful result parses back to exactly its segments for the identifier. There is no partial result. |
| Transcript.EmptyTranscript | agents/1-tool_use/test_transcript.py:31-42 | A provider answering with no segments gives Success(""). |
| Transcript.HelloWorldTranscript | agents/1-tool_use/test_transcript.py:34-42 | Segments (0 s, "Hello") and (61 s, "World") give "[00:00] Hello\n[01:01] World". |
| Transcript.HelloWorldExample | agents/1-tool_use/test_transcript.py:18-42 | The watch URL for any identifier, with a provider answering those two segments, gives that text end to end. |
| Transcript.LabelsInOrder | agents/1-tool_use/test_transcript.py:34-42 | Segments starting at 0, 65 and 125 s give lines labelled [00:00], [01:05] and [02:05], in that order. |

## Left out

- The provider call `YouTubeTranscriptApi().fetch(video_id)` is a network call into a library outside this model. It is the `Provider` parameter: a function from identifier to segments or a failure description. `str(e)` of the library's exception is that description.
- Other exceptions inside the `try` (the library's constructor failing, a float that `int` cannot convert) are not modelled separately. With whole-second offsets the formatting is total, so only provider failures reach the `FetchFailed` path.
- Floating-point start offsets are modelled as whole seconds (`nat`). `WholeSecondsSuffice` shows, over exact reals, that the label depends only on `floor(start)`. IEEE rounding in `start / 60` is not modelled.
- Negative start offsets are not modelled. The provider does not produce them.
- The segment's `duration` field is not modelled, because the function never reads it.
- The `__main__` smoke test prints to the console. It is left out, except that its URL appears in `VideoId.WatchUrlExample`.
- The `re` engine in general is not modelled, only this one pattern as a scan. The trailing `.*` can match the empty string, so it never rules a match out and is not represented. That `.` does not match a newline is therefore irrelevant.
- Idempotence (the same URL and the same provider answers give the same text) holds by construction, since every member is a pure function. No separate lemma states it.
- Lines.SplitJoin: holds only for one or more lines, because Python's `"".split("\n")` is `[""]`.
- Transcript.TranscriptLines: holds only for one or more lines, for the same reason as `Lines.SplitJoin`.
