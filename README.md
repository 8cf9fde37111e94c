# Worship PPT automation, modelled in Dafny

This project models the core of a web service that builds the slide deck for a church service.
It starts from a fixed PowerPoint template and the service's details: the date, the worship type,
the ministers, the songs with their lyrics, the announcements and the sermon scripture. The job
`generate_ppt_task` does the following:

- writes the cover text (for example "2025년 1월 첫째주") and the per-service fields onto fixed slides;
- expands each song's lyric template slide into one slide per lyric page, after splitting lyrics
  into pages of at most five lines;
- expands the announcement template and the scripture template;
- parses the sermon reference, such as "창세기 1:1 - 1:5", and reads the verses from a local Bible
  text file;
- handles the closing ("ending") song;
- records the outcome on the `PptRequest` row.

The model follows the program's modules:

| file | module | models |
|---|---|---|
| `base.dfy` | `Base` | `Option` and `Result` |
| `text.dfy` | `Text` | the Python string operations the core relies on: `isspace`, `strip`, `split`, `join`, `replace`, `str(n)` and `int(s)` on digit strings |
| `calendar.dfy` | `Calendar` | `utils/get_datetime.py`, on a proleptic Gregorian date with Python's ordinal and weekday |
| `lyrics.dfy` | `Lyrics` | `split_lyrics_to_json` of `utils/llm.py`, the five-line pagination that is live code |
| `pptx.dfy` | `Pptx` | `utils/update_pptx.py`: a `Presentation` class whose slide list the methods update in place, with the python-pptx behaviours the code depends on |
| `bible.dfy` | `BibleText` | `utils/bible_text_parser.py`: the verse-line expression, section-title removal and the range-selection loop |
| `scripture.dfy` | `Scripture` | the sermon-reference expression of `core/tasks.py` as a backtracking matcher over a token list |
| `tasks.dfy` | `Tasks` | `generate_ppt_task`: the request row as a class, the song loops as methods, and every stage's slides and offset as specification functions |

Each imperative operation is a method whose `ensures` ties the new state to a specification
function. The properties are lemmas about those functions. Examples:

- `edit_text_field` is idempotent.
- `_insert_slide_at_index` is a permutation that places the moved slide and keeps the others in order.
- An expansion adds exactly `n - 1` slides and shifts the later ones by as much.
- The running offset `cumulative_added_slide_count` always equals the number of slides added.
- A single reference, a range with a one-digit end chapter, and a range naming its end book parse to
  the numbers written in them, but the expression as written reads a longer end chapter wrongly.
- The verse selection is a sub-sequence of the file, in file order.
- Pagination joined back with line feeds gives the lyrics back when no five-line group is blank.

Inputs and outputs that live outside the program become parameters:

- the template's slides (`None` when no template is active);
- the lyrics crawler, as a function `crawl`;
- the Bible text files, as a map from file name to lines;
- the text of an `IndexError`.

The deck that would be saved is returned as a value.

The job uses the scripture expression as written (`Scripture.ParseAsWritten`) and the verse
selection loop as written (`BibleText.Scan`). The corrected expression (`Scripture.ParseCorrected`,
with `Tasks.CorrectedScriptureItems`) and the corrected loop (`BibleText.InclusiveScan`) sit beside
them; see Findings.

A failed job stores the exception's message behind a prefix (`core/tasks.py:301-320`):

- "성경 파일 또는 구절 파싱 오류: " for a Bible error;
- "PPT 제작 중 예상치 못한 오류 발생: " for any other error.

`Tasks.FailureMessage` models the prefixes.

## Model

| member | source | states |
|---|---|---|
| Text.Strip | utils/bible_text_parser.py:97-102 | the result is a slice of the input with only white space before and after it, neither starts nor ends with white space, and is empty exactly when the input is all white space |
| Text.StripOfTrimmed | utils/bible_text_parser.py:102 | a string that neither starts nor ends with white space is its own strip |
| Text.StripIdempotent | utils/bible_text_parser.py:102 | stripping twice is stripping once |
| Text.IndexOf | utils/llm.py:125 | the index of the first occurrence of the separator, or the length when there is none |
| Text.Split | utils/llm.py:125 | `split` returns at least one piece |
| Text.SplitPieces | utils/llm.py:125 | no piece of a split contains the separator |
| Text.JoinSplit | utils/llm.py:125-127 | joining the pieces of a split with the separator gives the string back |
| Text.SplitJoin | utils/llm.py:125-127 | splitting a join gives the pieces back when no piece holds the separator |
| Text.SplitCount | utils/llm.py:125 | a split has at most one more piece than the string has characters |
| Text.ReplaceChar | core/tasks.py:261 | `replace(a, b)` keeps the length and changes exactly the occurrences of `a` into `b` |
| Text.RemoveChar | core/tasks.py:261 | `replace(c, '')` leaves no `c` and keeps every other character as many times as it occurred |
| Text.RemoveCharAppend | core/tasks.py:261 | removal works piece by piece, so the characters left keep their order |
| Text.NatToString | utils/get_datetime.py:59 | `str(n)` is a non-empty digit string without a leading zero |
| Text.DecimalOfNatToString | core/tasks.py:183-184 | `int(str(n)) == n` |
| Text.NatToStringOfDecimal | core/tasks.py:183-184 | `str(int(s)) == s` for a digit string without a leading zero |
| Text.DecimalPositive | core/tasks.py:183-184 | a digit string without a leading zero denotes a positive number |
| Text.DecimalLeading | core/tasks.py:183-184 | a number's value is its first digit times its place plus the value of the remaining digits |
| Text.DecimalDropLeading | core/tasks.py:183-184 | dropping the non-zero leading digit of a number of two or more digits makes it smaller |
| Calendar.DaysInMonth | utils/get_datetime.py:19-21 | every month has 28 to 31 days |
| Calendar.DaysBeforeYearClosed | utils/get_datetime.py:19-21 | the recursive day count of earlier years agrees with the closed formula `365p + p/4 - p/100 + p/400` of Python's ordinal |
| Calendar.LeapCount | utils/get_datetime.py:19-21 | the three divisibility corrections of that formula sum to one exactly in a leap year |
| Calendar.Weekday | utils/get_datetime.py:14 | `weekday()` is in 0..6 |
| Calendar.NextDay | utils/get_datetime.py:19-21 | the following day is a valid date one ordinal on |
| Calendar.AddDays | utils/get_datetime.py:19-21 | `d + timedelta(days=n)` is a valid date |
| Calendar.AddDaysOrdinal | utils/get_datetime.py:19-21 | adding `n` days moves the ordinal on by exactly `n` |
| Calendar.WeekdayAddDays | utils/get_datetime.py:14-21 | adding `n` days moves the weekday `n` steps round the week |
| Calendar.NextSunday | utils/get_datetime.py:5-21 | `_get_next_sunday_date` gives a valid date |
| Calendar.DaysToNextSunday | utils/get_datetime.py:14-21 | the step is 1 to 7 days |
| Calendar.NextSundayIsAddDays | utils/get_datetime.py:14-21 | the date is the input moved on by that step (7 on a Sunday, `(6 - w + 7) % 7` otherwise) |
| Calendar.WeekdaysToNextSunday | utils/get_datetime.py:14-21 | the step lands on a Sunday and no day before it is a Sunday |
| Calendar.NextSundayIsNearestLaterSunday | utils/get_datetime.py:5-21 | the result is a Sunday 1 to 7 days later, exactly 7 when the input is a Sunday, and no Sunday lies between |
| Calendar.WeekOfMonth | utils/get_datetime.py:24-38 | the week number is at least 1 |
| Calendar.WeekOfMonthBounds | utils/get_datetime.py:24-38 | every date is in weeks 1 to 6, and the first of the month is in week 1 |
| Calendar.WeekdayInMonth | utils/get_datetime.py:28-35 | within a month a date's weekday follows from that of the first |
| Calendar.WeekOfMonthStep | utils/get_datetime.py:24-38 | from one day of a month to the next the week number grows by one exactly when the new day is a Monday |
| Calendar.SundayTextShape | utils/get_datetime.py:41-59 | the cover text is "<year>년 <month>월 <week text>" of the next Sunday, with a week from the table; the "<n>째주" fallback is never taken |
| Calendar.NextSundayAtYearEnd | utils/get_datetime.py:5-21 | from Monday 2024-12-30 the next Sunday is 2025-01-05, across the year end |
| Calendar.SundayTextAcrossYearEnd | utils/get_datetime.py:41-59 | for 2024-12-30 the cover text is "2025년 1월 첫째주" |
| Lyrics.GroupSize | utils/llm.py:125-127 | a group takes five lines or what is left, and at least one while lines remain |
| Lyrics.SplitLyricsToJson | utils/llm.py:108-130 | one result per input item, in input order, each the split of that item |
| Lyrics.SplitItemTitle | utils/llm.py:116 | a missing title becomes "알 수 없는 곡" and a given title is kept |
| Lyrics.SplitItemPages | utils/llm.py:117-130 | empty or missing lyrics give the single no-lyrics page; all-blank groups give the split-error page; otherwise the non-blank five-line groups; the page list is never empty |
| Lyrics.ChunkPagesShape | utils/llm.py:125-127 | at most ⌈lines/5⌉ pages, each non-blank and of 1 to 5 lines |
| Lyrics.LyricsPagesBounds | utils/llm.py:125-129 | the same bounds for the pages of one lyric text |
| Lyrics.ChunkPagesRoundTrip | utils/llm.py:125-127 | when no group is blank, the pages joined with line feeds are the lines joined with line feeds |
| Lyrics.LyricsRoundTrip | utils/llm.py:125-129 | when no group is dropped, the pages joined with line feeds reproduce the lyrics exactly |
| Pptx.ParagraphTexts | utils/update_pptx.py:77-81 | one text per paragraph |
| Pptx.WrittenFrameContents | utils/update_pptx.py:77-90 | a rewritten frame holds exactly the new text in one paragraph, is fitted to its text, and is centred or left-aligned exactly as asked |
| Pptx.TargetOf | utils/update_pptx.py:50-75 | which frame is looked for follows the `if`/`elif` chain: the title when asked, else a non-empty shape name, else a given placeholder index, else any frame |
| Pptx.FirstCandidate | utils/update_pptx.py:50-75 | the search stops at the first shape satisfying the target's test, and at none when no shape does |
| Pptx.ResolvedShape | utils/update_pptx.py:50-77 | the shape rewritten is a shape with a text frame |
| Pptx.EditedSlides | utils/update_pptx.py:42-44 | an edit changes at most the slide at the index, and nothing when the index is past the last slide |
| Pptx.ResolvedShapeIsFirst | utils/update_pptx.py:50-75 | the first shape satisfying the test, when it has a frame, is the one rewritten |
| Pptx.EditWithoutTarget | utils/update_pptx.py:94-97 | when no shape resolves, the slide is left as it was |
| Pptx.EditSlideWrites | utils/update_pptx.py:77-92 | a successful edit replaces the resolved frame by the written one and keeps the slide's id, layout, shape count, the shape's name and index, and every other shape |
| Pptx.EditKeepsCandidates | utils/update_pptx.py:50-92 | an edit keeps, for every target, which shapes the search can stop at |
| Pptx.EditIdempotent | utils/update_pptx.py:26-97 | repeating an identical edit on a slide changes nothing more |
| Pptx.EditedSlidesIdempotent | utils/update_pptx.py:26-97 | the same on the presentation, for any slide index |
| Pptx.Presentation.constructor | utils/update_pptx.py:13-23 | a loaded presentation holds the template's slides |
| Pptx.Presentation.EditTextField | utils/update_pptx.py:26-97 | the new slide list is the specified edit of the old one |
| Pptx.HighestId | utils/update_pptx.py:163 | python-pptx's id base is at least 255 |
| Pptx.HighestIdBound | utils/update_pptx.py:163 | no slide id is above that base |
| Pptx.NextId | utils/update_pptx.py:163 | the next id is at least 256 |
| Pptx.NextIdFresh | utils/update_pptx.py:163 | the next id is above every id in use, so the new slide's id is fresh |
| Pptx.Presentation.AddSlide | utils/update_pptx.py:163 | `add_slide` appends a slide with the next id and the layout's placeholders |
| Pptx.PositionOf | utils/update_pptx.py:109-113 | the position found holds the id and no earlier slide does; none when no slide has it |
| Pptx.Without | utils/update_pptx.py:120 | removing one element shortens the list by one |
| Pptx.InsertAt | utils/update_pptx.py:124 | inserting lengthens the list by one |
| Pptx.Presentation.FindSlide | utils/update_pptx.py:109-113 | the loop finds the first slide with the id |
| Pptx.Presentation.InsertSlideAtIndex | utils/update_pptx.py:100-124 | the new order is the slide with the id removed and re-inserted at the target, or unchanged for an unknown id |
| Pptx.MovedUnknown | utils/update_pptx.py:115-117 | an unknown id leaves the order unchanged |
| Pptx.MovedPermutation | utils/update_pptx.py:100-124 | the moved order is a permutation of the old one |
| Pptx.MovedPlacement | utils/update_pptx.py:120-124 | the moved slide lands at the target, or last when the target is past the end, and the other slides keep their relative order |
| Pptx.Presentation.AddSlideAt | utils/update_pptx.py:163-166 | `add_slide` then `_insert_slide_at_index` puts the fresh slide exactly at the index |
| Pptx.ApplyKeepsIdentity | utils/update_pptx.py:169-176 | edits keep a slide's id and layout |
| Pptx.NewSlides | utils/update_pptx.py:161-177 | one new slide per fill |
| Pptx.TextFills | utils/update_pptx.py:151-176 | one edit per text, fill `i` writing text `i` into the common target |
| Pptx.ItemFills | utils/update_pptx.py:205-236 | one fill per item, the title then the contents into the placeholder |
| Pptx.PartlyExpanded | utils/update_pptx.py:161-177 | the loop state after `i` fills has `i - 1` more slides than the deck |
| Pptx.ExpandedShape | utils/update_pptx.py:130-179 | with `n` fills: the slides before the template are untouched, the template gets fill 0, fill `i` sits at `t + i` on a fresh slide of the template's layout with id `NextId + i - 1`, and every later slide moves exactly `n - 1` places |
| Pptx.Presentation.AddSlidesWithText | utils/update_pptx.py:130-179 | the new slide list is the expansion of the texts' fills at the template, and the count returned is `len - 1` (0 for no texts) |
| Pptx.Presentation.AddTextSlideAt | utils/update_pptx.py:161-177 | one loop turn inserts at the index the new slide with its text written |
| Pptx.Presentation.AddLyricsSlides | utils/update_pptx.py:184-189 | the lyric pages go into the first text frame, centred, by that expansion |
| Pptx.Presentation.AddAdsSlides | utils/update_pptx.py:192-238 | each announcement's title and its contents in placeholder 1, left-aligned, by that expansion; the count is `len - 1` (0 for none) |
| Pptx.Presentation.AddBibleSlides | utils/update_pptx.py:242-287 | the same for scripture items, with the contents in placeholder 10 |
| Pptx.Presentation.AddItemSlides | utils/update_pptx.py:192-238 | the shared loop realises the expansion of the item fills |
| Pptx.Presentation.AddItemSlide | utils/update_pptx.py:205-236 | item 0 fills the template in place; item `i > 0` fills a fresh copy inserted at `t + i` and is counted |
| Pptx.Presentation.FillItem | utils/update_pptx.py:207-216 | the two `edit_text_field` calls of one item |
| Pptx.ExpansionStep | utils/update_pptx.py:161-177 | one loop turn takes the state after `i` fills to the state after `i + 1` |
| BibleText.DigitRun | utils/bible_text_parser.py:88 | `\d+` takes the whole run of digits |
| BibleText.VerseMatchSound | utils/bible_text_parser.py:88-99 | whatever groups the matcher reports, the line is the abbreviation, the digits, ':', the digits, white space and a text without line feed |
| BibleText.CloseAt | utils/bible_text_parser.py:91 | the closing `>` lies within the string |
| BibleText.RemoveTitles | utils/bible_text_parser.py:91-102 | the substitution never lengthens the text or adds characters |
| BibleText.RemoveTitlesWithoutOpen | utils/bible_text_parser.py:91-102 | text without `<` is left alone |
| BibleText.RemoveTitlesLeavesNone | utils/bible_text_parser.py:91-102 | no `<…>` section title is left after the substitution |
| BibleText.RemoveTitlesIdempotent | utils/bible_text_parser.py:91-102 | removing section titles twice is removing them once |
| BibleText.NoTitleUnchanged | utils/bible_text_parser.py:91-102 | text without a section title is unchanged |
| BibleText.ParseVerseLineOfVerseLine | utils/bible_text_parser.py:93-110 | a well-formed line `<abbr><ch>:<verse> <text>` parses to the title "<book> ch:verse", the two numbers and the text with section titles removed and stripped |
| BibleText.ParseLineWithSectionTitle | utils/bible_text_parser.py:93-110 | a verse text that opens with `<title> ` parses to the text with title and space gone |
| BibleText.ParseVerseLineWithoutColon | utils/bible_text_parser.py:97-110 | a line without a colon, such as a heading or a blank line, is not a verse |
| BibleText.ParsedVerses | utils/bible_text_parser.py:127-131 | at most one verse per line |
| BibleText.Entries | utils/bible_text_parser.py:145-149 | one entry per verse, with its title and contents |
| BibleText.SelectVerses | utils/bible_text_parser.py:125-153 | the line loop returns the specified scan of the file's parsed verses |
| BibleText.GetBibleContents | utils/bible_text_parser.py:112-158 | the result is the specified outcome: the selected verses, or one of the three errors; a success is never empty |
| BibleText.UnknownBookRefused | utils/bible_text_parser.py:116-118 | a book missing from the file map is refused with its message, whatever the files are |
| BibleText.MissingFileRefused | utils/bible_text_parser.py:120-122 | a mapped book whose file is absent raises the file-not-found error naming the path |
| BibleText.RangeNotFoundOutcomes | utils/bible_text_parser.py:155-156 | a start verse absent from the file, or a start after the end within one chapter, raises the range error |
| BibleText.ScanWithoutStart | utils/bible_text_parser.py:137-138 | without the start verse nothing is selected |
| BibleText.ScanSkipsPrefix | utils/bible_text_parser.py:137-149 | verses before the start verse are neither selected nor change the flag |
| BibleText.ScanStartAfterEnd | utils/bible_text_parser.py:140-143 | a start after the end within one chapter selects nothing |
| BibleText.ScanPastEnd | utils/bible_text_parser.py:140-143 | a verse of the end chapter beyond the end verse is not selected and lowers the flag |
| BibleText.ScanBeyondEndChapter | utils/bible_text_parser.py:145-153 | with the flag up, a verse of a later chapter than the end is selected and the scan stops there |
| BibleText.ScanStartsAtStart | utils/bible_text_parser.py:137-149 | the selection begins with the start verse unless that verse is past the end |
| BibleText.ScanIsSubsequence | utils/bible_text_parser.py:125-153 | the selection is the parsed verses with some left out, in file order |
| BibleText.OrderedSelection | utils/bible_text_parser.py:125-153 | in an ordered file the selection is the verses from the start to the last one not after the end, plus the next verse when it opens a later chapter |
| BibleText.SelectionHead | utils/bible_text_parser.py:137-149 | up to the start verse nothing is selected, and from it on the flag is up |
| BibleText.SelectionTail | utils/bible_text_parser.py:140-153 | what the scan selects from the first verse after the end |
| BibleText.LastVerseBringsNextChapter | utils/bible_text_parser.py:137-153 | Genesis 1:30 to 1:31 over verses 1:30, 1:31 and 2:1 selects all three |
| BibleText.InclusiveLastVerse | utils/bible_text_parser.py:137-153 | over the same verses the corrected loop selects 1:30 and 1:31 only |
| BibleText.InclusiveOrderedSelection | utils/bible_text_parser.py:125-153 | in an ordered file the corrected selection is exactly the verses from the start verse to the end verse |
| BibleText.InRangeRun | utils/bible_text_parser.py:140-149 | verses at or before the end, met with the flag up, are all selected |
| Scripture.ClassRun | core/tasks.py:181 | a class repetition takes the whole run of that class |
| Scripture.Groups | core/tasks.py:183-189 | an end book is reported exactly when group 4 took part, and a missing group 5 or 6 makes the end chapter or verse the start one |
| Scripture.FirstSound | core/tasks.py:181-189 | a match sets every group outside the optional parts, keeps earlier groups, leaves no group empty and only digits in the digit groups, so every `int(...)` succeeds |
| Scripture.GreedyStep | core/tasks.py:181 | a greedy repetition takes its longest run after which the rest matches |
| Scripture.LazyStep | core/tasks.py:181 | a lazy repetition takes the shortest run after which the rest matches |
| Scripture.ParseSingle | core/tasks.py:181-189 | "b c:v" parses to book `b`, chapter `c`, verse `v`, and ends where it starts |
| Scripture.ParseRange | core/tasks.py:181-189 | "b c:v - c2:v2" parses to the range from `c:v` to `c2:v2`, with no end book, under the corrected expression |
| Scripture.ParseRangeAsWritten | core/tasks.py:181-189 | under the expression as written, "b c:v - c2:v2" with a one-digit end chapter parses to the range from `c:v` to `c2:v2`, with no end book |
| Scripture.ParseBookRange | core/tasks.py:181-189 | "b c:v - b2 c2:v2" parses to the range with end book `b2`, under either expression |
| Scripture.AsWrittenRange | core/tasks.py:181 | under the expression as written, an end chapter of two or more digits loses its first digit to the end-book group, and the end chapter read is smaller |
| Scripture.PsalmRange | core/tasks.py:181 | "시편 119:1 - 119:8" reads as end book "1" and end chapter 19 as written, and as 119:8 with the correction |
| Scripture.NoColonNoParse | core/tasks.py:181-182 | a reference without a colon does not match, under either expression |
| Tasks.PptRequest.constructor | core/models.py:134-139 | a new request is pending, with no message and no file |
| Tasks.PptRequest.Fail | core/tasks.py:301-307 | the failed branch sets the status and the message and keeps the stored file |
| Tasks.PrepareSong | core/tasks.py:90-126 | one song's crawl-and-split leaves it as specified |
| Tasks.PrepareSongs | core/tasks.py:89-131 | the normalisation loop leaves the songs as specified and builds `songs_data_for_ppt` from their titles and pages |
| Tasks.PreparedSongs | core/tasks.py:89-131 | one song per input song |
| Tasks.SongsData | core/tasks.py:128-131 | one entry per song, in order |
| Tasks.SplitOfLyrics | core/tasks.py:113-117 | the split of a non-empty lyric text is its non-empty pagination |
| Tasks.NormalPagesShape | core/tasks.py:91-126 | a song reaches the slide loop with pages: its pagination when the lyrics are usable (the whole-lyrics fallback is never taken), else its stored pages, else the no-lyrics sentence |
| Tasks.PreparedSongData | core/tasks.py:89-131 | song `k` enters the slide data with its title and its non-empty normalised pages |
| Tasks.FillInfo | core/tasks.py:62-82 | the cover and the six fields are written onto their slides |
| Tasks.AddSongSlides | core/tasks.py:136-158 | the song loop realises the specified stage: each song's title at `5 + 2k + offset` and its pages from `6 + 2k + offset`, or the IndexError of a missing template |
| Tasks.AddSong | core/tasks.py:137-158 | one turn of the song loop realises that song's stage |
| Tasks.AddLyricsAt | core/tasks.py:152-158 | one lyric expansion at `base + offset`, raising on a missing template slide |
| Tasks.AddItemsAt | core/tasks.py:164-169 | one announcement or scripture expansion at `base + offset`, raising on a missing template slide |
| Tasks.GetScriptureItems | core/tasks.py:178-196 | the scripture items are the verse lookup of the range parsed by the expression as written, or the fallback item |
| Tasks.PrepareEndingSong | core/tasks.py:211-242 | the ending song's crawl and split leave it as specified |
| Tasks.AddEndingSong | core/tasks.py:208-250 | the title, the normalisation, and the lyric slides of the page list read at line 212 |
| Tasks.AddMainStages | core/tasks.py:62-200 | the cover, fields, songs, announcements and scripture realise their stages |
| Tasks.AddAllStages | core/tasks.py:62-250 | every stage is realised; the ending song is normalised only when the earlier stages succeed |
| Tasks.GeneratePptTask | core/tasks.py:28-320 | no template: failed with its message, nothing changed. Otherwise the songs are normalised and the job ends completed with the named file and the generated deck, or failed with the stage's prefixed message and no deck. The status is completed exactly when the result is, and a failed job leaves the stored file name as it was |
| Tasks.EndingPagesShape | core/tasks.py:211-242 | the ending song's stored pages: kept when present, else the pagination of its crawled lyrics, else the no-lyrics sentence; never empty |
| Tasks.EndingUsesEarlierPages | core/tasks.py:212-250 | an ending song stored without pages gets its title and no lyric slide, although pages are then stored for it |
| Tasks.ExpandAtFails | utils/update_pptx.py:147 | an expansion fails exactly when the list is non-empty and the template index is past the last slide |
| Tasks.ExpandAtBalanced | core/tasks.py:158-169 | an expansion adds its count to the offset and as many slides to the deck |
| Tasks.TextFillsAdded | utils/update_pptx.py:179 | the count of a text expansion is one less than its texts |
| Tasks.SongStageBalanced | core/tasks.py:137-158 | a song fails exactly on a missing lyric template, and otherwise adds its count to the offset and the deck |
| Tasks.SongsFromBalanced | core/tasks.py:136-158 | the song loop adds the sum of the songs' counts to the offset and to the deck |
| Tasks.SongsFromOk | core/tasks.py:136-158 | a template with two slides per song after the first five never fails the song loop |
| Tasks.AdsStageBalanced | core/tasks.py:164-169 | the announcements add their count to the offset and to the deck |
| Tasks.BibleStageBalanced | core/tasks.py:198-200 | the scripture stage succeeds only on a successful lookup and adds its count |
| Tasks.EndingStageBalanced | core/tasks.py:208-250 | the ending song adds its page count to the offset and to the deck |
| Tasks.GeneratedBalanced | core/tasks.py:59-250 | after every stage the deck is the template plus the final offset, and the offset is the sum of the counts the expansions returned |
| Tasks.NoColonFallback | core/tasks.py:193-196 | a reference without a colon yields the single fallback item |
| Tasks.SingleReferenceLookup | core/tasks.py:186-191 | a single reference looks up the one verse: the end of the range is its start |
| Tasks.RangeReferenceLookup | core/tasks.py:181-191 | a range within one book whose end chapter has one digit looks up exactly its range in its book |
| Tasks.RangeReferenceLookupAsWritten | core/tasks.py:181-191 | a range within one book whose end chapter has two or more digits looks up a range ending in that chapter without its first digit |
| Tasks.PsalmLookup | core/tasks.py:181-191 | "시편 119:1 - 119:8" is looked up as 119:1 to 19:8, and as 119:1 to 119:8 with the corrected expression |
| Tasks.CorrectedRangeLookup | core/tasks.py:181-191 | with the corrected expression every range within one book looks up exactly its range |
| Tasks.BookRangeLookup | core/tasks.py:188-191 | a range naming a second book is looked up in the first book: the end book is ignored |
| Tasks.ScriptureItemsNonEmpty | core/tasks.py:178-200 | the scripture stage always has at least one item to place |
| Tasks.ReplaceCharMembers | core/tasks.py:261 | which characters a replacement leaves |
| Tasks.SlugChars | core/tasks.py:261 | the slug has no space or parenthesis, contains every other character of the display name, and contains an underscore exactly when the display name has a space or an underscore |
| Tasks.SlugOfChar | core/tasks.py:261 | one character's slug: a space becomes an underscore, a parenthesis disappears, anything else stays |
| Tasks.SlugAppend | core/tasks.py:261 | the slug of a concatenation is the concatenation of the slugs; with SlugOfChar this fixes the slug character by character, in order |
| Tasks.ZeroPad | core/tasks.py:262 | zero padding never shortens the number's digits |
| Tasks.ZeroPadValue | core/tasks.py:262 | a number below `10^w` written on `w` digits reads back as itself |
| Tasks.DateStampValues | core/tasks.py:262 | for a year below 10000 the stamp is eight digits whose parts read back as the year, the month and the day |
| Tasks.OutputNameShape | core/tasks.py:261-268 | the stored name is "generated_ppts/" + stamp + "_" + slug + ".pptx", with those parts at those positions |

## Left out

- Negative slide indices: Python's `prs.slides[i]` and `edit_text_field`'s bound check treat a
  negative index differently, but every index the job computes is a natural number, so indices
  are `nat`.
- python-pptx internals beyond what the core depends on: the XML of slides and shapes, the
  relationship parts, and the copy of layout placeholders, which is reduced to the layout's
  placeholder list.
- Pptx.Presentation.EditTextField: a title placeholder that cannot hold text (python-pptx raises)
  is modelled as an edit that changes nothing.
- Paragraph properties other than alignment, and fonts, are not modelled.
- `load_template` and `save_presentation` read and write files. Loading is the `Presentation`
  constructor over the given slides; saving is returning the deck as a value.
- The Django ORM: the `DoesNotExist` handlers (`core/tasks.py:278-300`), `save()` calls,
  querysets and ordering are replaced by the rows as parameters.
- Celery's `update_state`, `timezone.now()`, `os.makedirs`, `print` and the traceback are not
  modelled, and neither are the intermediate progress messages and percentages. The request row's
  final status and message are modelled.
- `\d` and `\s` restricted to ASCII digits and to the characters Python's `str.isspace()` accepts
  among ASCII and common Unicode spaces; Unicode digit classes are not modelled.
- `crawl_lyrics` (`utils/crawl.py`) is a network call; it is a function parameter, with a failed
  crawl (`None`) modelled as the empty string.
- Tasks.FailureMessage: the text of a Python `IndexError` or other unexpected exception is a
  parameter, not derived.
- The `file_url` in the final `update_state` call and `MEDIA_URL` are not modelled; the model
  returns the stored name.
- The Gemini call `_call_gemini_api` and the commented-out helpers of `utils/llm.py` are dead
  code in this path and are not modelled.
- Tasks.DateStamp: `strftime('%Y')` for years below 1000 is platform dependent; the model pads to
  four digits.
- Calendar.ValidDate does not bound the year at 9999, so date overflow past year 9999
  (`OverflowError`) is not modelled.
- The views, forms, admin and URL configuration are not part of this model.
- Reading a Bible text file is a map from file name to its lines; encodings and I/O errors other
  than a missing file are not modelled.
- Pptx.Presentation.AddSlidesWithText, Pptx.Presentation.AddLyricsSlides,
  Pptx.Presentation.AddAdsSlides, Pptx.Presentation.AddBibleSlides: require the template index
  to be on the deck when the list is non-empty. python-pptx raises `IndexError` there
  (`utils/update_pptx.py:147`, `:202`, `:252`); that error is modelled one level up, in
  `Tasks.ExpandAt`, `Tasks.AddLyricsAt` and `Tasks.AddItemsAt`, which check the index first.
- Calendar.NextSunday: the default `target_date = date.today()` (`utils/get_datetime.py:10-11`)
  reads the clock; the model always takes the date as a parameter.
- Tasks.CrawledLyrics: the assignment of "가사를 찾을 수 없습니다." after a failed crawl
  (`core/tasks.py:105`) only reaches a local variable that the rest of the loop does not read, so
  the model leaves the song's lyrics blank.

## Findings

| source | as written | input that shows it | evidently intended | confidence | as-written member | corrected member |
|---|---|---|---|---|---|---|
| core/tasks.py:181 | the optional end-book group `(.+?)` is lazy but must take at least one character, and it is tried before it is skipped, so it swallows the first digit of a multi-digit end chapter | "시편 119:1 - 119:8" parses with end book "1" and end chapter 19, so the lookup asks for 119:1 to 19:8 | an end chapter and verse without an end book, 119:1 to 119:8 | not executed | Scripture.AsWrittenRange | Scripture.ParseRange |
| utils/bible_text_parser.py:140-153 | only a verse of the end chapter beyond the end verse lowers the flag, and the chapter check that stops the loop comes after the verse is kept, so a range ending on a chapter's last verse also takes the next chapter's first verse, while the tests expect inclusive ranges | "창세기 1:30 - 1:31" over a file with 1:30, 1:31 and 2:1 gives 1:30, 1:31 and 2:1 | the verses from 1:30 to 1:31 only | not executed | BibleText.LastVerseBringsNextChapter | BibleText.InclusiveOrderedSelection |
