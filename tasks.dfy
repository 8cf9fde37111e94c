/**
 * The PPT generation job of core/tasks.py (`generate_ppt_task`): the job record moves from
 * `processing` to `completed` or `failed`; the template's slides are edited and expanded stage by
 * stage (cover, worship fields, songs, announcements, scripture, ending song), every later stage
 * addressed through the running count of added slides; the result is stored under a name made
 * of the worship date and type.
 *
 * The database rows become plain values, `crawl_lyrics` an arbitrary function, the Bible text
 * files a map from file name to lines, and the raised exceptions the datatype `Failure`.
 */
module Tasks {
  import opened Base
  import opened Text
  import opened Pptx
  import C = Calendar
  import L = Lyrics
  import B = BibleText
  import S = Scripture

  // ---------------------------------------------------------------- constants of the job

  const StartMessage: string := "PPT 제작을 시작합니다..."
  const NoTemplateMessage: string := "오류: 활성화된 PPT 템플릿 파일이 존재하지 않습니다. 관리자에게 문의하세요."
  const BibleErrorPrefix: string := "성경 파일 또는 구절 파싱 오류: "
  const UnexpectedErrorPrefix: string := "PPT 제작 중 예상치 못한 오류 발생: "
  const CompletedMessage: string := "PPT 제작이 완료되었습니다. 파일을 다운로드할 수 있습니다."
  /** What `current_lyrics` becomes when the crawl finds nothing. */
  const CrawlFailedLyrics: string := "가사를 찾을 수 없습니다."
  const FallbackTitle: string := "성경 본문"
  const FallbackContents: string := "성경 구절 형식이 올바르지 않아 내용을 가져올 수 없습니다."
  const OutputDir: string := "generated_ppts"

  // The nominal slide indices of the template.
  const CoverSlide: nat := 0
  const StartSongSlide: nat := 5
  const LyricsTemplateSlide: nat := 6
  const PrayerSlide: nat := 14
  const OfferingSlide: nat := 15
  const AdsManagerSlide: nat := 18
  const AdsContentsSlide: nat := 20
  const BibleRangeSlide: nat := 21
  const BibleContentsSlide: nat := 22
  const SermonTitleSlide: nat := 23
  const EndingSongTitleSlide: nat := 27
  const BenedictionSlide: nat := 37

  /** `WorshipInfo.WORSHIP_TYPES`: the stored key and its display name. */
  const WorshipTypes: map<string, string> := map[
    "sunday_am" := "주일 오전 예배",
    "sunday_pm" := "주일 오후 예배",
    "wednesday" := "수요 예배",
    "friday" := "금요 철야 예배",
    "dawn" := "새벽 예배",
    "other" := "기타 예배"
  ]

  // ---------------------------------------------------------------- the records

  datatype Status = Pending | Processing | Completed | Failed

  /** The `PptRequest` row the job updates. */
  class PptRequest {
    var status: Status
    var progressMessage: string
    var generatedFile: Option<string>

    constructor ()
      ensures status == Pending && progressMessage == "" && generatedFile == None
    {
      status := Pending;
      progressMessage := "";
      generatedFile := None;
    }

    /** The `failed` branch of every handler: status and message, then `save()`. */
    method Fail(message: string)
      modifies this
      ensures status == Failed && progressMessage == message && generatedFile == old(generatedFile)
    {
      status := Failed;
      progressMessage := message;
    }
  }

  /** The worship row: the date, the type key, the fields written on the slides, the announcements. */
  datatype WorshipInfo = WorshipInfo(worshipDate: C.Date, worshipType: string, prayerMinister: string,
                                     offeringMinister: string, adsManager: string, sermonScripture: string,
                                     sermonTitle: string, benedictionMinister: string,
                                     announcements: seq<TitledItem>)

  /** A song row; an empty `lyrics` or `sourceUrl` stands for a blank field. */
  datatype Song = Song(title: string, lyrics: string, lyricsPages: seq<string>, sourceUrl: string)

  /** One entry of `songs_data_for_ppt`: a title and its pages. */
  datatype SongData = SongData(title: string, pages: seq<string>)

  /** What the job returns. */
  datatype TaskResult = TaskCompleted(fileName: string) | TaskFailed(error: string)

  /** The exceptions that end the job after the template is loaded. */
  datatype Failure =
    | NoTemplate
    | BibleFailure(error: B.BibleError)  // ValueError or FileNotFoundError of the verse lookup
    | SlideIndexFailure(index: nat)      // the IndexError of `prs.slides[i]` for a missing template slide

  /** The message stored for a failure; `indexErrorText` is the text of the IndexError. */
  function FailureMessage(f: Failure, indexErrorText: string): string {
    match f
    case NoTemplate => NoTemplateMessage
    case BibleFailure(e) => BibleErrorPrefix + e.message
    case SlideIndexFailure(_) => UnexpectedErrorPrefix + indexErrorText
  }

  // ---------------------------------------------------------------- song pages

  /** `song.lyrics` after the crawl: a blank field with a source is replaced by what the crawl finds. */
  function CrawledLyrics(song: Song, crawl: string -> string): string {
    if song.lyrics == "" && song.sourceUrl != "" then crawl(song.sourceUrl) else song.lyrics
  }

  /** What `split_lyrics_to_json` gives as the pages of one song. */
  function SplitPages(title: string, lyrics: string): seq<string> {
    L.SplitItem(L.LyricItem(Some(title), Some(lyrics))).splittedLyrics
  }

  /** Lyrics worth splitting: present and not the no-lyrics sentence. */
  predicate Usable(lyrics: string) {
    lyrics != "" && lyrics != L.NoLyricsPage
  }

  /** `song.lyrics_pages` when a normal song reaches the slide loop. */
  function NormalPages(song: Song, crawl: string -> string): seq<string> {
    var lyrics := CrawledLyrics(song, crawl);
    if Usable(lyrics) then
      (if SplitPages(song.title, lyrics) != [] then SplitPages(song.title, lyrics) else [lyrics])
    else if song.lyricsPages == [] then [L.NoLyricsPage]
    else song.lyricsPages
  }

  function PreparedSong(song: Song, crawl: string -> string): Song {
    song.(lyrics := CrawledLyrics(song, crawl), lyricsPages := NormalPages(song, crawl))
  }

  /** `ending_song.lyrics_pages` as the ending-song stage stores it. */
  function EndingStoredPages(song: Song, crawl: string -> string): seq<string> {
    var lyrics := CrawledLyrics(song, crawl);
    var current := if song.lyrics == "" && song.sourceUrl != "" && lyrics == "" then CrawlFailedLyrics else lyrics;
    if song.lyricsPages == [] && current != "" then
      (if SplitPages(song.title, lyrics) != [] then SplitPages(song.title, lyrics) else [lyrics])
    else if song.lyricsPages == [] then [L.NoLyricsPage]
    else song.lyricsPages
  }

  function PreparedEndingSong(song: Song, crawl: string -> string): Song {
    song.(lyrics := CrawledLyrics(song, crawl), lyricsPages := EndingStoredPages(song, crawl))
  }

  /** Every song as the normalisation loop leaves it. */
  function PreparedSongs(songs: seq<Song>, crawl: string -> string): (r: seq<Song>)
    ensures |r| == |songs|
  {
    if songs == [] then [] else [PreparedSong(songs[0], crawl)] + PreparedSongs(songs[1..], crawl)
  }

  lemma {:induction false} PreparedSongsAt(songs: seq<Song>, crawl: string -> string, i: nat)
    requires i < |songs|
    ensures PreparedSongs(songs, crawl)[i] == PreparedSong(songs[i], crawl)
    decreases i
  {
    if i > 0 {
      PreparedSongsAt(songs[1..], crawl, i - 1);
    }
  }

  /** `songs_data_for_ppt`: each song's title and stored pages. */
  function SongsData(songs: seq<Song>): (r: seq<SongData>)
    ensures |r| == |songs|
  {
    if songs == [] then [] else [SongData(songs[0].title, songs[0].lyricsPages)] + SongsData(songs[1..])
  }

  lemma {:induction false} SongsDataAt(songs: seq<Song>, i: nat)
    requires i < |songs|
    ensures SongsData(songs)[i] == SongData(songs[i].title, songs[i].lyricsPages)
    decreases i
  {
    if i > 0 {
      SongsDataAt(songs[1..], i - 1);
    }
  }

  // ---------------------------------------------------------------- the scripture stage

  function EntryItems(es: seq<B.BibleEntry>): (r: seq<TitledItem>)
    ensures |r| == |es|
  {
    if es == [] then [] else [TitledItem(Some(es[0].title), Some(es[0].contents))] + EntryItems(es[1..])
  }

  /**
   * The passages of the sermon scripture: the verse lookup of the range parsed by the expression
   * as written, or the fallback item.
   */
  function ScriptureItems(scripture: string, bibleTextDir: string, files: map<string, seq<string>>)
    : Result<seq<TitledItem>, B.BibleError>
  {
    ParsedItems(B.BibleFileMap, S.ParseAsWritten(scripture), bibleTextDir, files)
  }

  /** The same stage with the corrected expression, whose end book cannot take the end chapter's digits. */
  function CorrectedScriptureItems(scripture: string, bibleTextDir: string, files: map<string, seq<string>>)
    : Result<seq<TitledItem>, B.BibleError>
  {
    ParsedItems(B.BibleFileMap, S.ParseCorrected(scripture), bibleTextDir, files)
  }

  /** The verse lookup of a parsed reference, or the fallback item when the reference did not match. */
  function ParsedItems(fileMap: map<string, string>, parsed: Option<S.ScriptureRef>, bibleTextDir: string, files: map<string, seq<string>>)
    : Result<seq<TitledItem>, B.BibleError>
  {
    match parsed
    case None => Ok([TitledItem(Some(FallbackTitle), Some(FallbackContents))])
    case Some(ref) => Lookup(fileMap, ref.startBook, B.Range(ref.startCh, ref.startVerse, ref.endCh, ref.endVerse), bibleTextDir, files)
  }

  /** `get_local_bible_contents` of one range, as slide items, for the book-to-file map `fileMap`. */
  function Lookup(fileMap: map<string, string>, book: string, r: B.Range, bibleTextDir: string, files: map<string, seq<string>>)
    : Result<seq<TitledItem>, B.BibleError>
  {
    match B.BibleContents(fileMap, book, r, bibleTextDir, files)
    case Err(e) => Err(e)
    case Ok(es) => Ok(EntryItems(es))
  }

  // ---------------------------------------------------------------- the stages

  /** The slides and the running `cumulative_added_slide_count`. */
  datatype Staged = Staged(slides: seq<Slide>, offset: nat)

  /** The count an expansion returns: one less than its list, nothing for an empty list. */
  function Added<T>(xs: seq<T>): nat {
    if xs == [] then 0 else |xs| - 1
  }

  /** `edit_text_field(prs, index, new_text=text, is_title=True)`, centred by default. */
  function Titled(slides: seq<Slide>, index: nat, text: string): seq<Slide> {
    EditedSlides(slides, index, Edit(TitlePlaceholder, text, true))
  }

  /** The cover and the six worship fields. */
  function InfoFields(slides: seq<Slide>, info: WorshipInfo): seq<Slide>
    requires C.ValidDate(info.worshipDate)
  {
    var s0 := Titled(slides, CoverSlide, C.SundayText(info.worshipDate));
    var s1 := Titled(s0, PrayerSlide, info.prayerMinister);
    var s2 := Titled(s1, OfferingSlide, info.offeringMinister);
    var s3 := Titled(s2, AdsManagerSlide, info.adsManager);
    var s4 := Titled(s3, BibleRangeSlide, info.sermonScripture);
    var s5 := Titled(s4, SermonTitleSlide, info.sermonTitle);
    Titled(s5, BenedictionSlide, info.benedictionMinister)
  }

  /**
   * An expansion from the nominal template index `base`, shifted by the offset: a template index
   * past the last slide raises when the list is not empty.
   */
  function ExpandAt(st: Staged, base: nat, fills: seq<seq<Edit>>): Result<Staged, Failure> {
    var t := base + st.offset;
    if fills != [] && t >= |st.slides| then Err(SlideIndexFailure(t))
    else Ok(Staged(Expanded(st.slides, t, fills), st.offset + Added(fills)))
  }

  /** Song `k` of the loop: its title at `5 + 2k + offset`, its pages from `6 + 2k + offset`. */
  function SongStage(st: Staged, song: SongData, k: nat): Result<Staged, Failure> {
    var titled := Titled(st.slides, StartSongSlide + 2 * k + st.offset, song.title);
    ExpandAt(Staged(titled, st.offset), LyricsTemplateSlide + 2 * k, TextFills(song.pages, FirstTextFrame, true))
  }

  /** The song loop from song `k`, each song addressed with the offset the songs before it left. */
  function SongsFrom(st: Staged, data: seq<SongData>, k: nat): Result<Staged, Failure>
    requires k <= |data|
    decreases |data| - k
  {
    if k == |data| then Ok(st)
    else
      match SongStage(st, data[k], k)
      case Err(f) => Err(f)
      case Ok(next) => SongsFrom(next, data, k + 1)
  }

  /** The announcements, only when there are some. */
  function AdsStage(st: Staged, ads: seq<TitledItem>): Result<Staged, Failure> {
    if ads == [] then Ok(st) else ExpandAt(st, AdsContentsSlide, ItemFills(ads, AdsContentsIdx))
  }

  function BibleStage(st: Staged, bible: Result<seq<TitledItem>, B.BibleError>): Result<Staged, Failure> {
    match bible
    case Err(e) => Err(BibleFailure(e))
    case Ok(items) => ExpandAt(st, BibleContentsSlide, ItemFills(items, BibleContentsIdx))
  }

  /** The ending song: its title at `27 + offset`, then the given pages from `28 + offset`. */
  function EndingStage(st: Staged, ending: Option<SongData>): Result<Staged, Failure> {
    match ending
    case None => Ok(st)
    case Some(song) =>
      var titled := Titled(st.slides, EndingSongTitleSlide + st.offset, song.title);
      ExpandAt(Staged(titled, st.offset), EndingSongTitleSlide + 1, TextFills(song.pages, FirstTextFrame, true))
  }

  /** The stages up to the scripture, from the loaded template. */
  function BeforeEnding(initial: seq<Slide>, info: WorshipInfo, data: seq<SongData>,
                        bible: Result<seq<TitledItem>, B.BibleError>): Result<Staged, Failure>
    requires C.ValidDate(info.worshipDate)
  {
    match SongsFrom(Staged(InfoFields(initial, info), 0), data, 0)
    case Err(f) => Err(f)
    case Ok(afterSongs) =>
      match AdsStage(afterSongs, info.announcements)
      case Err(f) => Err(f)
      case Ok(afterAds) => BibleStage(afterAds, bible)
  }

  /** The whole deck. */
  function Generated(initial: seq<Slide>, info: WorshipInfo, data: seq<SongData>,
                     bible: Result<seq<TitledItem>, B.BibleError>, ending: Option<SongData>): Result<Staged, Failure>
    requires C.ValidDate(info.worshipDate)
  {
    match BeforeEnding(initial, info, data, bible)
    case Err(f) => Err(f)
    case Ok(st) => EndingStage(st, ending)
  }

  /** The ending song's entry: its title and the page list read before its normalisation. */
  function EndingData(ending: Option<Song>): Option<SongData> {
    match ending
    case None => None
    case Some(song) => Some(SongData(song.title, song.lyricsPages))
  }

  // ---------------------------------------------------------------- the file name

  /** `str(n)` padded with zeros to `width` digits. */
  function ZeroPad(n: nat, width: nat): (r: string)
    ensures |r| >= width && AllDigits(r)
  {
    var digits := NatToString(n);
    if |digits| >= width then digits else Zeros(width - |digits|) + digits
  }

  function Zeros(k: nat): (r: string)
    ensures |r| == k && AllDigits(r)
  {
    if k == 0 then "" else "0" + Zeros(k - 1)
  }

  /** `date.strftime('%Y%m%d')`. */
  function DateStamp(d: C.Date): string
    requires d.year >= 1 && 1 <= d.month <= 12 && d.day >= 1
  {
    ZeroPad(d.year, 4) + ZeroPad(d.month, 2) + ZeroPad(d.day, 2)
  }

  /** `get_worship_type_display()`: the display name, or the key itself outside the choices. */
  function WorshipTypeDisplay(key: string): string {
    if key in WorshipTypes then WorshipTypes[key] else key
  }

  /** `.replace(' ', '_').replace('(', '').replace(')', '')`. */
  function Slug(display: string): string {
    RemoveChar(RemoveChar(ReplaceChar(display, ' ', '_'), '('), ')')
  }

  /** The name stored in `generated_ppt_file`: `generated_ppts/<YYYYMMDD>_<slug>.pptx`. */
  function OutputName(info: WorshipInfo): string
    requires C.ValidDate(info.worshipDate)
  {
    OutputDir + "/" + DateStamp(info.worshipDate) + "_" + Slug(WorshipTypeDisplay(info.worshipType)) + ".pptx"
  }

  // ---------------------------------------------------------------- the job

  /** Lines 91-131 for one song: crawl a blank lyric field, then split it or fall back. */
  method PrepareSong(song: Song, crawl: string -> string) returns (updated: Song)
    ensures updated == PreparedSong(song, crawl)
  {
    updated := song;
    var currentLyrics := song.lyrics;
    if currentLyrics == "" && song.sourceUrl != "" {
      currentLyrics := crawl(song.sourceUrl);
      if currentLyrics != "" {
        updated := updated.(lyrics := currentLyrics);
      } else {
        currentLyrics := CrawlFailedLyrics;
      }
    }
    if updated.lyrics != "" && updated.lyrics != L.NoLyricsPage {
      var splittedRes := L.SplitLyricsToJson([L.LyricItem(Some(updated.title), Some(updated.lyrics))]);
      if |splittedRes| > 0 && splittedRes[0].splittedLyrics != [] {
        updated := updated.(lyricsPages := splittedRes[0].splittedLyrics);
      } else {
        updated := updated.(lyricsPages := [updated.lyrics]);
      }
    } else if updated.lyricsPages == [] {
      updated := updated.(lyricsPages := [L.NoLyricsPage]);
    }
  }

  /** The loop of lines 90-131 over the normal songs, building `songs_data_for_ppt`. */
  method PrepareSongs(songs: seq<Song>, crawl: string -> string) returns (updated: seq<Song>, data: seq<SongData>)
    ensures updated == PreparedSongs(songs, crawl)
    ensures data == SongsData(updated)
  {
    updated := [];
    data := [];
    for i := 0 to |songs|
      invariant |updated| == i && |data| == i
      invariant forall j :: 0 <= j < i ==> updated[j] == PreparedSong(songs[j], crawl)
      invariant forall j :: 0 <= j < i ==> data[j] == SongData(updated[j].title, updated[j].lyricsPages)
    {
      var song := PrepareSong(songs[i], crawl);
      updated := updated + [song];
      data := data + [SongData(song.title, song.lyricsPages)];
    }
    SongsAgree(songs, crawl, updated, data);
  }

  lemma SongsAgree(songs: seq<Song>, crawl: string -> string, updated: seq<Song>, data: seq<SongData>)
    requires |updated| == |songs| && |data| == |songs|
    requires forall j :: 0 <= j < |songs| ==> updated[j] == PreparedSong(songs[j], crawl)
    requires forall j :: 0 <= j < |songs| ==> data[j] == SongData(updated[j].title, updated[j].lyricsPages)
    ensures updated == PreparedSongs(songs, crawl) && data == SongsData(updated)
  {
    forall j | 0 <= j < |songs|
      ensures updated[j] == PreparedSongs(songs, crawl)[j] && data[j] == SongsData(updated)[j]
    {
      PreparedSongsAt(songs, crawl, j);
      SongsDataAt(updated, j);
    }
  }

  /** The cover (lines 62-63) and the six fields (lines 77-82). */
  method FillInfo(prs: Presentation, info: WorshipInfo)
    requires C.ValidDate(info.worshipDate)
    modifies prs
    ensures prs.slides == InfoFields(old(prs.slides), info)
  {
    var nextSundayText := C.SundayText(info.worshipDate);
    prs.EditTextField(CoverSlide, nextSundayText, true, None, None, true);
    prs.EditTextField(PrayerSlide, info.prayerMinister, true, None, None, true);
    prs.EditTextField(OfferingSlide, info.offeringMinister, true, None, None, true);
    prs.EditTextField(AdsManagerSlide, info.adsManager, true, None, None, true);
    prs.EditTextField(BibleRangeSlide, info.sermonScripture, true, None, None, true);
    prs.EditTextField(SermonTitleSlide, info.sermonTitle, true, None, None, true);
    prs.EditTextField(BenedictionSlide, info.benedictionMinister, true, None, None, true);
  }

  /** A stage's outcome and the deck after it agree with the stage's specification. */
  predicate Realised(outcome: Result<nat, Failure>, slides: seq<Slide>, expected: Result<Staged, Failure>) {
    match expected
    case Ok(st) => outcome == Ok(st.offset) && slides == st.slides
    case Err(f) => outcome == Err(f)
  }

  /** The song slide loop (lines 136-158), from offset 0. */
  method AddSongSlides(prs: Presentation, data: seq<SongData>) returns (outcome: Result<nat, Failure>)
    modifies prs
    ensures Realised(outcome, prs.slides, SongsFrom(Staged(old(prs.slides), 0), data, 0))
  {
    var cumulativeAddedSlideCount := 0;
    ghost var goal := SongsFrom(Staged(prs.slides, 0), data, 0);
    for index := 0 to |data|
      invariant SongsFrom(Staged(prs.slides, cumulativeAddedSlideCount), data, index) == goal
    {
      var stage := AddSong(prs, data[index], index, cumulativeAddedSlideCount);
      if stage.Err? {
        return stage;
      }
      cumulativeAddedSlideCount := stage.value;
    }
    outcome := Ok(cumulativeAddedSlideCount);
  }

  /** The body of the song loop for song `index`. */
  method AddSong(prs: Presentation, song: SongData, index: nat, offset: nat) returns (outcome: Result<nat, Failure>)
    modifies prs
    ensures Realised(outcome, prs.slides, SongStage(Staged(old(prs.slides), offset), song, index))
  {
    prs.EditTextField(StartSongSlide + index * 2 + offset, song.title, true, None, None, true);
    outcome := AddLyricsAt(prs, song.pages, LyricsTemplateSlide + index * 2, offset);
  }

  /** One `add_lyrics_slides` call at `base + offset`, raising on a missing template. */
  method AddLyricsAt(prs: Presentation, pages: seq<string>, base: nat, offset: nat) returns (outcome: Result<nat, Failure>)
    modifies prs
    ensures Realised(outcome, prs.slides,
                     ExpandAt(Staged(old(prs.slides), offset), base, TextFills(pages, FirstTextFrame, true)))
  {
    var t := base + offset;
    if pages != [] && t >= |prs.slides| {
      return Err(SlideIndexFailure(t));
    }
    var added := prs.AddLyricsSlides(t, pages);
    outcome := Ok(offset + added);
  }

  /** One `add_ads_slides` / `add_bible_slides` call at `base + offset`, raising on a missing template. */
  method AddItemsAt(prs: Presentation, items: seq<TitledItem>, base: nat, idx: int, offset: nat)
    returns (outcome: Result<nat, Failure>)
    requires idx == AdsContentsIdx || idx == BibleContentsIdx
    modifies prs
    ensures Realised(outcome, prs.slides, ExpandAt(Staged(old(prs.slides), offset), base, ItemFills(items, idx)))
  {
    var t := base + offset;
    if items != [] && t >= |prs.slides| {
      return Err(SlideIndexFailure(t));
    }
    var added;
    if idx == AdsContentsIdx {
      added := prs.AddAdsSlides(items, t);
    } else {
      added := prs.AddBibleSlides(items, t);
    }
    outcome := Ok(offset + added);
  }

  /** Lines 178-196: the parse, then the verse lookup of the range or the fallback item. */
  method GetScriptureItems(scripture: string, bibleTextDir: string, files: map<string, seq<string>>)
    returns (bibleContents: Result<seq<TitledItem>, B.BibleError>)
    ensures bibleContents == ScriptureItems(scripture, bibleTextDir, files)
  {
    var parsed := S.ParseAsWritten(scripture);
    if parsed.None? {
      return Ok([TitledItem(Some(FallbackTitle), Some(FallbackContents))]);
    }
    var ref := parsed.value;
    var entries := B.GetBibleContents(ref.startBook, ref.startCh, ref.startVerse, ref.endCh, ref.endVerse,
                                      bibleTextDir, files);
    if entries.Err? {
      return Err(entries.error);
    }
    bibleContents := Ok(EntryItems(entries.value));
  }

  /** Lines 214-245: the ending song's crawl and split, which store its lyrics and pages. */
  method PrepareEndingSong(song: Song, crawl: string -> string) returns (updated: Song)
    ensures updated == PreparedEndingSong(song, crawl)
  {
    updated := song;
    var currentLyrics := song.lyrics;
    var currentLyricsPages := song.lyricsPages;
    if currentLyrics == "" && song.sourceUrl != "" {
      currentLyrics := crawl(song.sourceUrl);
      if currentLyrics != "" {
        updated := updated.(lyrics := currentLyrics);
      } else {
        currentLyrics := CrawlFailedLyrics;
      }
    }
    if currentLyricsPages == [] && currentLyrics != "" {
      var splittedRes := L.SplitLyricsToJson([L.LyricItem(Some(updated.title), Some(updated.lyrics))]);
      if |splittedRes| > 0 && splittedRes[0].splittedLyrics != [] {
        updated := updated.(lyricsPages := splittedRes[0].splittedLyrics);
      } else {
        updated := updated.(lyricsPages := [updated.lyrics]);
      }
    } else if updated.lyricsPages == [] {
      updated := updated.(lyricsPages := [L.NoLyricsPage]);
    }
  }

  /** Lines 208-250: the title, the song's normalisation, and the slides of the pages read before it. */
  method AddEndingSong(prs: Presentation, song: Song, crawl: string -> string, offset: nat)
    returns (outcome: Result<nat, Failure>, updated: Song)
    modifies prs
    ensures updated == PreparedEndingSong(song, crawl)
    ensures Realised(outcome, prs.slides, EndingStage(Staged(old(prs.slides), offset), EndingData(Some(song))))
  {
    prs.EditTextField(EndingSongTitleSlide + offset, song.title, true, None, None, true);
    var currentLyricsPages := song.lyricsPages;
    updated := PrepareEndingSong(song, crawl);
    outcome := AddLyricsAt(prs, currentLyricsPages, EndingSongTitleSlide + 1, offset);
  }

  /** The cover, the fields, the songs, the announcements and the scripture. */
  method AddMainStages(prs: Presentation, info: WorshipInfo, data: seq<SongData>, bibleTextDir: string,
                       files: map<string, seq<string>>)
    returns (outcome: Result<nat, Failure>)
    requires C.ValidDate(info.worshipDate)
    modifies prs
    ensures Realised(outcome, prs.slides,
                     BeforeEnding(old(prs.slides), info, data, ScriptureItems(info.sermonScripture, bibleTextDir, files)))
  {
    FillInfo(prs, info);
    outcome := AddSongSlides(prs, data);
    if outcome.Err? {
      return;
    }
    if info.announcements != [] {
      outcome := AddItemsAt(prs, info.announcements, AdsContentsSlide, AdsContentsIdx, outcome.value);
      if outcome.Err? {
        return;
      }
    }
    var bibleContents := GetScriptureItems(info.sermonScripture, bibleTextDir, files);
    if bibleContents.Err? {
      return Err(BibleFailure(bibleContents.error));
    }
    outcome := AddItemsAt(prs, bibleContents.value, BibleContentsSlide, BibleContentsIdx, outcome.value);
  }

  /** Every stage; the ending song is normalised only when the stages before it succeed. */
  method AddAllStages(prs: Presentation, info: WorshipInfo, data: seq<SongData>, endingSong: Option<Song>,
                      crawl: string -> string, bibleTextDir: string, files: map<string, seq<string>>)
    returns (outcome: Result<nat, Failure>, endingAfter: Option<Song>)
    requires C.ValidDate(info.worshipDate)
    modifies prs
    ensures var bible := ScriptureItems(info.sermonScripture, bibleTextDir, files);
            Realised(outcome, prs.slides, Generated(old(prs.slides), info, data, bible, EndingData(endingSong)))
            && endingAfter == EndingAfter(BeforeEnding(old(prs.slides), info, data, bible), endingSong, crawl)
  {
    outcome := AddMainStages(prs, info, data, bibleTextDir, files);
    endingAfter := endingSong;
    if outcome.Ok? && endingSong.Some? {
      var updated;
      outcome, updated := AddEndingSong(prs, endingSong.value, crawl, outcome.value);
      endingAfter := Some(updated);
    }
  }

  /** The ending song row as the job leaves it: normalised once the stages before it have succeeded. */
  function EndingAfter(before: Result<Staged, Failure>, endingSong: Option<Song>, crawl: string -> string): Option<Song> {
    if before.Ok? && endingSong.Some? then Some(PreparedEndingSong(endingSong.value, crawl)) else endingSong
  }

  /**
   * `generate_ppt_task`: `template` is the active template's slides (`None` when there is none),
   * `crawl` stands for `crawl_lyrics`, `files` for the Bible text files, and `indexErrorText` for
   * the text of the IndexError of a missing template slide. It returns the job's result, the song
   * rows as saved, and the saved deck.
   */
  method GeneratePptTask(request: PptRequest, info: WorshipInfo, normalSongs: seq<Song>, endingSong: Option<Song>,
                         template: Option<seq<Slide>>, crawl: string -> string, bibleTextDir: string,
                         files: map<string, seq<string>>, indexErrorText: string)
    returns (result: TaskResult, songsAfter: seq<Song>, endingAfter: Option<Song>, deck: Option<seq<Slide>>)
    requires C.ValidDate(info.worshipDate)
    modifies request
    ensures template.None? ==> result == TaskFailed(NoTemplateMessage) && request.status == Failed
                               && request.progressMessage == NoTemplateMessage && deck == None
                               && songsAfter == normalSongs && endingAfter == endingSong
    ensures request.status == Completed || request.status == Failed
    ensures request.status == Completed <==> result.TaskCompleted?
    ensures result.TaskFailed? ==> request.generatedFile == old(request.generatedFile)
    ensures template.Some? ==> songsAfter == PreparedSongs(normalSongs, crawl)
    ensures template.Some? ==> JobOutcome(request.status, request.progressMessage, request.generatedFile, result, deck,
                                          Generated(template.value, info, SongsData(songsAfter),
                                                    ScriptureItems(info.sermonScripture, bibleTextDir, files),
                                                    EndingData(endingSong)), info, indexErrorText)
    ensures template.Some? ==>
              endingAfter == EndingAfter(BeforeEnding(template.value, info, SongsData(songsAfter),
                                                      ScriptureItems(info.sermonScripture, bibleTextDir, files)),
                                         endingSong, crawl)
  {
    request.status := Processing;
    request.progressMessage := StartMessage;
    songsAfter := normalSongs;
    endingAfter := endingSong;
    deck := None;
    if template.None? {
      request.Fail(NoTemplateMessage);
      return TaskFailed(NoTemplateMessage), songsAfter, endingAfter, deck;
    }
    var prs := new Presentation(template.value);
    var songsData;
    songsAfter, songsData := PrepareSongs(normalSongs, crawl);
    var outcome;
    outcome, endingAfter := AddAllStages(prs, info, songsData, endingSong, crawl, bibleTextDir, files);
    if outcome.Err? {
      var message := FailureMessage(outcome.error, indexErrorText);
      request.Fail(message);
      return TaskFailed(message), songsAfter, endingAfter, deck;
    }
    var fileName := OutputName(info);
    request.generatedFile := Some(fileName);
    request.status := Completed;
    request.progressMessage := CompletedMessage;
    result := TaskCompleted(fileName);
    deck := Some(prs.slides);
  }

  /** The request row, the result and the saved deck after a job whose stages gave `generated`. */
  predicate JobOutcome(status: Status, message: string, generatedFile: Option<string>, result: TaskResult,
                       deck: Option<seq<Slide>>, generated: Result<Staged, Failure>, info: WorshipInfo,
                       indexErrorText: string)
    requires C.ValidDate(info.worshipDate)
  {
    match generated
    case Ok(st) =>
      result == TaskCompleted(OutputName(info)) && deck == Some(st.slides) && status == Completed
      && message == CompletedMessage && generatedFile == Some(OutputName(info))
    case Err(f) =>
      result == TaskFailed(FailureMessage(f, indexErrorText)) && deck == None && status == Failed
      && message == FailureMessage(f, indexErrorText)
  }

  // ---------------------------------------------------------------- properties of the songs

  lemma SplitOfLyrics(title: string, lyrics: string)
    requires lyrics != ""
    ensures SplitPages(title, lyrics) == L.LyricsPages(lyrics) && L.LyricsPages(lyrics) != []
  {
  }

  /**
   * Every normal song reaches the slide loop with pages: the pagination of its lyrics when they are
   * usable (so the whole-lyrics fallback is never taken), else its stored pages, else the
   * no-lyrics sentence. A failed crawl leaves the lyrics blank, so its placeholder text never
   * reaches a slide.
   */
  lemma NormalPagesShape(song: Song, crawl: string -> string)
    ensures NormalPages(song, crawl) != []
    ensures Usable(CrawledLyrics(song, crawl)) ==>
              NormalPages(song, crawl) == L.LyricsPages(CrawledLyrics(song, crawl))
    ensures !Usable(CrawledLyrics(song, crawl)) && song.lyricsPages == [] ==> NormalPages(song, crawl) == [L.NoLyricsPage]
    ensures !Usable(CrawledLyrics(song, crawl)) && song.lyricsPages != [] ==> NormalPages(song, crawl) == song.lyricsPages
  {
    var lyrics := CrawledLyrics(song, crawl);
    if Usable(lyrics) {
      SplitOfLyrics(song.title, lyrics);
    }
  }

  /** Song `k` enters `songs_data_for_ppt` with its title and its normalised, non-empty pages. */
  lemma PreparedSongData(songs: seq<Song>, crawl: string -> string, k: nat)
    requires k < |songs|
    ensures SongsData(PreparedSongs(songs, crawl))[k] == SongData(songs[k].title, NormalPages(songs[k], crawl))
    ensures SongsData(PreparedSongs(songs, crawl))[k].pages != []
  {
    PreparedSongsAt(songs, crawl, k);
    SongsDataAt(PreparedSongs(songs, crawl), k);
    NormalPagesShape(songs[k], crawl);
  }

  /**
   * The pages stored for the ending song: kept when it has some, else the pagination of its
   * lyrics after the crawl, else the no-lyrics sentence.
   */
  lemma EndingPagesShape(song: Song, crawl: string -> string)
    ensures EndingStoredPages(song, crawl) != []
    ensures song.lyricsPages != [] ==> EndingStoredPages(song, crawl) == song.lyricsPages
    ensures song.lyricsPages == [] && CrawledLyrics(song, crawl) != "" ==>
              EndingStoredPages(song, crawl) == L.LyricsPages(CrawledLyrics(song, crawl))
    ensures song.lyricsPages == [] && CrawledLyrics(song, crawl) == "" ==> EndingStoredPages(song, crawl) == [L.NoLyricsPage]
  {
    var lyrics := CrawledLyrics(song, crawl);
    if lyrics != "" {
      SplitOfLyrics(song.title, lyrics);
    }
  }

  /**
   * The ending song's lyric slides come from the page list read before its normalisation: a song
   * stored without pages gets its title and no lyric slide, although pages are stored for it.
   */
  lemma EndingUsesEarlierPages(st: Staged, song: Song, crawl: string -> string)
    requires song.lyricsPages == []
    ensures EndingStage(st, EndingData(Some(song)))
            == Ok(Staged(Titled(st.slides, EndingSongTitleSlide + st.offset, song.title), st.offset))
    ensures PreparedEndingSong(song, crawl).lyricsPages != []
  {
    EndingPagesShape(song, crawl);
  }

  // ---------------------------------------------------------------- the running offset

  /** The deck has grown by exactly the running offset over `n` slides. */
  predicate Balanced(st: Staged, n: nat) {
    |st.slides| == n + st.offset
  }

  /** What the song loop adds from song `k` on. */
  function PagesAdded(data: seq<SongData>, k: nat): nat
    requires k <= |data|
    decreases |data| - k
  {
    if k == |data| then 0 else Added(data[k].pages) + PagesAdded(data, k + 1)
  }

  function EndingAdded(ending: Option<SongData>): nat {
    match ending
    case None => 0
    case Some(song) => Added(song.pages)
  }

  /** An expansion fails exactly on a missing template slide. */
  lemma ExpandAtFails(st: Staged, base: nat, fills: seq<seq<Edit>>)
    ensures ExpandAt(st, base, fills).Err? <==> fills != [] && base + st.offset >= |st.slides|
  {
  }

  /** An expansion adds its count to the offset and as many slides to the deck. */
  lemma ExpandAtBalanced(st: Staged, base: nat, fills: seq<seq<Edit>>, n: nat, r: Staged)
    requires Balanced(st, n) && ExpandAt(st, base, fills) == Ok(r)
    ensures Balanced(r, n) && r.offset == st.offset + Added(fills)
  {
    if fills != [] {
      ExpandedShape(st.slides, base + st.offset, fills);
    }
  }

  lemma TextFillsAdded(texts: seq<string>)
    ensures Added(TextFills(texts, FirstTextFrame, true)) == Added(texts)
  {
  }

  /** One song adds its count to the offset and as many slides; it fails exactly on a missing lyrics template. */
  lemma SongStageBalanced(st: Staged, song: SongData, k: nat, n: nat)
    requires Balanced(st, n)
    ensures SongStage(st, song, k).Err? <==> song.pages != [] && LyricsTemplateSlide + 2 * k + st.offset >= |st.slides|
    ensures SongStage(st, song, k).Ok? ==>
              Balanced(SongStage(st, song, k).value, n)
              && SongStage(st, song, k).value.offset == st.offset + Added(song.pages)
  {
    var titled := Staged(Titled(st.slides, StartSongSlide + 2 * k + st.offset, song.title), st.offset);
    var fills := TextFills(song.pages, FirstTextFrame, true);
    ExpandAtFails(titled, LyricsTemplateSlide + 2 * k, fills);
    if SongStage(st, song, k).Ok? {
      ExpandAtBalanced(titled, LyricsTemplateSlide + 2 * k, fills, n, SongStage(st, song, k).value);
      TextFillsAdded(song.pages);
    }
  }

  /** The song loop adds, to the offset and to the deck, the sum of the songs' counts. */
  lemma {:induction false} SongsFromBalanced(st: Staged, data: seq<SongData>, k: nat, n: nat, r: Staged)
    requires k <= |data| && Balanced(st, n) && SongsFrom(st, data, k) == Ok(r)
    ensures Balanced(r, n) && r.offset == st.offset + PagesAdded(data, k)
    decreases |data| - k
  {
    if k < |data| {
      SongStageBalanced(st, data[k], k, n);
      SongsFromBalanced(SongStage(st, data[k], k).value, data, k + 1, n, r);
    }
  }

  /** A template with two slides per song after the sixth never fails the song loop. */
  lemma {:induction false} SongsFromOk(st: Staged, data: seq<SongData>, k: nat)
    requires k <= |data| && |st.slides| >= st.offset + 2 * |data| + 5
    ensures SongsFrom(st, data, k).Ok?
    decreases |data| - k
  {
    if k < |data| {
      SongStageBalanced(st, data[k], k, |st.slides| - st.offset);
      SongsFromOk(SongStage(st, data[k], k).value, data, k + 1);
    }
  }

  lemma AdsStageBalanced(st: Staged, ads: seq<TitledItem>, n: nat, r: Staged)
    requires Balanced(st, n) && AdsStage(st, ads) == Ok(r)
    ensures Balanced(r, n) && r.offset == st.offset + Added(ads)
  {
    if ads != [] {
      ExpandAtBalanced(st, AdsContentsSlide, ItemFills(ads, AdsContentsIdx), n, r);
    }
  }

  lemma BibleStageBalanced(st: Staged, bible: Result<seq<TitledItem>, B.BibleError>, n: nat, r: Staged)
    requires Balanced(st, n) && BibleStage(st, bible) == Ok(r)
    ensures bible.Ok? && Balanced(r, n) && r.offset == st.offset + Added(bible.value)
  {
    ExpandAtBalanced(st, BibleContentsSlide, ItemFills(bible.value, BibleContentsIdx), n, r);
  }

  lemma EndingStageBalanced(st: Staged, ending: Option<SongData>, n: nat, r: Staged)
    requires Balanced(st, n) && EndingStage(st, ending) == Ok(r)
    ensures Balanced(r, n) && r.offset == st.offset + EndingAdded(ending)
  {
    if ending.Some? {
      var titled := Staged(Titled(st.slides, EndingSongTitleSlide + st.offset, ending.value.title), st.offset);
      ExpandAtBalanced(titled, EndingSongTitleSlide + 1, TextFills(ending.value.pages, FirstTextFrame, true), n, r);
      TextFillsAdded(ending.value.pages);
    }
  }

  /**
   * After every stage the deck has the template's slides plus the final offset, and the offset is
   * the sum of the counts the expansions returned.
   */
  lemma GeneratedBalanced(initial: seq<Slide>, info: WorshipInfo, data: seq<SongData>,
                          bible: Result<seq<TitledItem>, B.BibleError>, ending: Option<SongData>, r: Staged)
    requires C.ValidDate(info.worshipDate) && Generated(initial, info, data, bible, ending) == Ok(r)
    ensures bible.Ok? && |r.slides| == |initial| + r.offset
    ensures r.offset == PagesAdded(data, 0) + Added(info.announcements) + Added(bible.value) + EndingAdded(ending)
  {
    var n := |initial|;
    var st0 := Staged(InfoFields(initial, info), 0);
    var st1 := SongsFrom(st0, data, 0).value;
    SongsFromBalanced(st0, data, 0, n, st1);
    var st2 := AdsStage(st1, info.announcements).value;
    AdsStageBalanced(st1, info.announcements, n, st2);
    var st3 := BibleStage(st2, bible).value;
    BibleStageBalanced(st2, bible, n, st3);
    EndingStageBalanced(st3, ending, n, r);
  }

  // ---------------------------------------------------------------- properties of the scripture stage

  /** A reference without a colon does not parse and yields the single fallback item. */
  lemma NoColonFallback(scripture: string, bibleTextDir: string, files: map<string, seq<string>>)
    requires ':' !in scripture
    ensures ScriptureItems(scripture, bibleTextDir, files) == Ok([TitledItem(Some(FallbackTitle), Some(FallbackContents))])
  {
    S.NoColonNoParse(S.AnyChar, scripture);
  }

  /** A single reference looks up the one verse: the end of the range is its start. */
  lemma SingleReferenceLookup(b: string, c: nat, v: nat, bibleTextDir: string, files: map<string, seq<string>>)
    requires S.BookName(b)
    ensures ScriptureItems(S.Reference(b, c, v), bibleTextDir, files) == Lookup(B.BibleFileMap, b, B.Range(c, v, c, v), bibleTextDir, files)
  {
    S.ParseSingle(S.AnyChar, b, c, v);
  }

  /** A range within one book whose end chapter has one digit looks up exactly that range. */
  lemma RangeReferenceLookup(b: string, c: nat, v: nat, c2: nat, v2: nat, bibleTextDir: string,
                             files: map<string, seq<string>>)
    requires S.BookName(b) && c2 < 10
    ensures ScriptureItems(S.RangeReference(b, c, v, c2, v2), bibleTextDir, files)
            == Lookup(B.BibleFileMap, b, B.Range(c, v, c2, v2), bibleTextDir, files)
  {
    S.ParseRangeAsWritten(b, c, v, c2, v2);
  }

  /**
   * A range within one book whose end chapter has two or more digits looks up a range that ends
   * in the chapter written without its first digit.
   */
  lemma RangeReferenceLookupAsWritten(b: string, c: nat, v: nat, c2: nat, v2: nat, bibleTextDir: string,
                                      files: map<string, seq<string>>)
    requires S.BookName(b) && c2 >= 10
    ensures var ce := NatToString(c2);
            |ce| >= 2 &&
            ScriptureItems(S.RangeReference(b, c, v, c2, v2), bibleTextDir, files)
            == Lookup(B.BibleFileMap, b, B.Range(c, v, DecimalValue(ce[1..]), v2), bibleTextDir, files)
  {
    S.AsWrittenRange(b, c, v, c2, v2);
  }

  /** Psalm 119:1-8 is looked up as 119:1 to 19:8, while the corrected stage looks up 119:1 to 119:8. */
  lemma PsalmLookup(bibleTextDir: string, files: map<string, seq<string>>)
    ensures ScriptureItems("시편 119:1 - 119:8", bibleTextDir, files)
            == Lookup(B.BibleFileMap, "시편", B.Range(119, 1, 19, 8), bibleTextDir, files)
    ensures CorrectedScriptureItems("시편 119:1 - 119:8", bibleTextDir, files)
            == Lookup(B.BibleFileMap, "시편", B.Range(119, 1, 119, 8), bibleTextDir, files)
  {
    S.PsalmRange("시편 119:1 - 119:8");
  }

  /** Under the corrected expression every range within one book looks up exactly that range. */
  lemma CorrectedRangeLookup(b: string, c: nat, v: nat, c2: nat, v2: nat, bibleTextDir: string,
                             files: map<string, seq<string>>)
    requires S.BookName(b)
    ensures CorrectedScriptureItems(S.RangeReference(b, c, v, c2, v2), bibleTextDir, files)
            == Lookup(B.BibleFileMap, b, B.Range(c, v, c2, v2), bibleTextDir, files)
  {
    S.ParseRange(b, c, v, c2, v2);
  }

  /** A range naming a second book is looked up in the first book: the end book is ignored. */
  lemma BookRangeLookup(b: string, c: nat, v: nat, b2: string, c2: nat, v2: nat, bibleTextDir: string,
                        files: map<string, seq<string>>)
    requires S.BookName(b) && S.BookName(b2)
    ensures ScriptureItems(S.BookRangeReference(b, c, v, b2, c2, v2), bibleTextDir, files)
            == Lookup(B.BibleFileMap, b, B.Range(c, v, c2, v2), bibleTextDir, files)
  {
    S.ParseBookRange(S.AnyChar, b, c, v, b2, c2, v2);
  }

  /** The scripture stage always has at least one item to place. */
  lemma ScriptureItemsNonEmpty(scripture: string, bibleTextDir: string, files: map<string, seq<string>>)
    ensures ScriptureItems(scripture, bibleTextDir, files).Ok? ==> ScriptureItems(scripture, bibleTextDir, files).value != []
  {
    ParsedItemsNonEmpty(B.BibleFileMap, S.ParseAsWritten(scripture), bibleTextDir, files);
  }

  lemma ParsedItemsNonEmpty(fileMap: map<string, string>, parsed: Option<S.ScriptureRef>, bibleTextDir: string,
                            files: map<string, seq<string>>)
    ensures ParsedItems(fileMap, parsed, bibleTextDir, files).Ok? ==> ParsedItems(fileMap, parsed, bibleTextDir, files).value != []
  {
    if parsed.Some? {
      var ref := parsed.value;
      var found := B.BibleContents(fileMap, ref.startBook, B.Range(ref.startCh, ref.startVerse, ref.endCh, ref.endVerse),
                                   bibleTextDir, files);
      assert found.Ok? ==> found.value != [];
    }
  }

  // ---------------------------------------------------------------- properties of the file name

  lemma ReplaceCharMembers(s: string, a: char, b: char)
    ensures forall x :: x in ReplaceChar(s, a, b) <==> (x in s && x != a) || (x == b && a in s)
  {
    var r := ReplaceChar(s, a, b);
    forall x
      ensures x in r <==> (x in s && x != a) || (x == b && a in s)
    {
      if x in r {
        var i :| 0 <= i < |r| && r[i] == x;
        assert s[i] in s;
      }
      if x in s && x != a {
        var i :| 0 <= i < |s| && s[i] == x;
        assert r[i] == x;
      }
      if x == b && a in s {
        var i :| 0 <= i < |s| && s[i] == a;
        assert r[i] == b;
      }
    }
  }

  /** The slug has spaces turned into underscores and parentheses removed, and nothing else changes. */
  lemma SlugChars(display: string)
    ensures ' ' !in Slug(display) && '(' !in Slug(display) && ')' !in Slug(display)
    ensures forall x :: x != '_' ==> (x in Slug(display) <==> x in display && x != ' ' && x != '(' && x != ')')
    ensures '_' in Slug(display) <==> '_' in display || ' ' in display
  {
    ReplaceCharMembers(display, ' ', '_');
  }

  /** The slug is made character by character: a space becomes an underscore, a parenthesis is dropped. */
  lemma SlugOfChar(ch: char)
    ensures Slug([ch]) == if ch == ' ' then "_" else if ch == '(' || ch == ')' then [] else [ch]
  {
    var u := if ch == ' ' then '_' else ch;
    assert ReplaceChar([ch], ' ', '_') == [u];
    assert [u][1..] == [];
    RemoveCharSingle(u, '(');
    if u != '(' {
      RemoveCharSingle(u, ')');
    }
  }

  /** The slug of a concatenation is the concatenation of the slugs, so order and count are kept. */
  lemma SlugAppend(x: string, y: string)
    ensures Slug(x + y) == Slug(x) + Slug(y)
  {
    var a, b := ReplaceChar(x, ' ', '_'), ReplaceChar(y, ' ', '_');
    assert ReplaceChar(x + y, ' ', '_') == a + b;
    RemoveCharAppend(a, b, '(');
    RemoveCharAppend(RemoveChar(a, '('), RemoveChar(b, '('), ')');
  }

  lemma {:induction false} NatToStringWidth(n: nat, w: nat)
    requires w >= 1 && n < Pow10(w)
    ensures |NatToString(n)| <= w
    decreases w
  {
    if n >= 10 {
      assert Pow10(1) == 10;
      assert n / 10 < Pow10(w - 1);
      NatToStringWidth(n / 10, w - 1);
    }
  }

  lemma {:induction false} ZerosValue(k: nat, x: string)
    requires AllDigits(x)
    ensures AllDigits(Zeros(k) + x) && DecimalValue(Zeros(k) + x) == DecimalValue(x)
    decreases k
  {
    var y := Zeros(k) + x;
    assert forall i :: 0 <= i < |y| ==> y[i] == if i < k then Zeros(k)[i] else x[i - k];
    if k > 0 {
      assert y[0] == '0' && y[1..] == Zeros(k - 1) + x;
      ZerosValue(k - 1, x);
      DecimalLeading(y);
      assert DigitValue(y[0]) == 0;
      assert DecimalValue(y) == DecimalValue(y[1..]);
      assert DecimalValue(y[1..]) == DecimalValue(x);
    } else {
      assert y == x;
    }
  }

  /** A number below `10^w`, written on `w` digits, reads back as itself. */
  lemma ZeroPadValue(n: nat, w: nat)
    requires w >= 1 && n < Pow10(w)
    ensures |ZeroPad(n, w)| == w && DecimalValue(ZeroPad(n, w)) == n
  {
    var digits := NatToString(n);
    NatToStringWidth(n, w);
    DecimalOfNatToString(n);
    if |digits| < w {
      ZerosValue(w - |digits|, digits);
      assert ZeroPad(n, w) == Zeros(w - |digits|) + digits;
    } else {
      assert ZeroPad(n, w) == digits;
    }
  }

  /** For a year below 10000 the stamp is eight digits: four of year, two of month, two of day. */
  lemma DateStampValues(d: C.Date)
    requires C.ValidDate(d) && d.year <= 9999
    ensures |DateStamp(d)| == 8 && AllDigits(DateStamp(d))
    ensures DecimalValue(DateStamp(d)[..4]) == d.year
    ensures DecimalValue(DateStamp(d)[4..6]) == d.month
    ensures DecimalValue(DateStamp(d)[6..]) == d.day
  {
    assert Pow10(2) == 100 && Pow10(4) == 10000;
    ZeroPadValue(d.year, 4);
    ZeroPadValue(d.month, 2);
    assert d.day <= 31;
    ZeroPadValue(d.day, 2);
    var s := DateStamp(d);
    assert s[..4] == ZeroPad(d.year, 4);
    assert s[4..6] == ZeroPad(d.month, 2);
    assert s[6..] == ZeroPad(d.day, 2);
  }

  /** The stored name sits in the output directory, carries the stamp and the slug, and ends in `.pptx`. */
  lemma OutputNameShape(info: WorshipInfo)
    requires C.ValidDate(info.worshipDate) && info.worshipDate.year <= 9999
    ensures var name := OutputName(info);
            |name| == 29 + |Slug(WorshipTypeDisplay(info.worshipType))|
            && name[..15] == "generated_ppts/" && name[15..23] == DateStamp(info.worshipDate) && name[23] == '_'
            && name[24..|name| - 5] == Slug(WorshipTypeDisplay(info.worshipType)) && name[|name| - 5..] == ".pptx"
  {
    DateStampValues(info.worshipDate);
  }
}
