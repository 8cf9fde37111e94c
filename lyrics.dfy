/**
 * The lyric pagination of utils/llm.py (`split_lyrics_to_json`, the active fallback path):
 * each song's lyrics are split on newlines, consecutive groups of five lines become one page,
 * groups that are blank are dropped, and fixed sentences stand in for missing lyrics and for an
 * empty page list.
 */
module Lyrics {
  import opened Base
  import opened Text

  const ChunkSize: nat := 5
  const DefaultTitle: string := "알 수 없는 곡"
  /** The single page given when a song has no lyrics. */
  const NoLyricsPage: string := "가사를 가져올 수 없습니다."
  /** The single page given when every group of lines is blank. */
  const SplitErrorPage: string := "가사 분할 중 오류 발생."

  /** One input item `{"title": ..., "lyrics": ...}`; `None` stands for a missing key. */
  datatype LyricItem = LyricItem(title: Option<string>, lyrics: Option<string>)

  /** One output item `{"title": ..., "splitted_lyrics": ...}`. */
  datatype SplitResult = SplitResult(title: string, splittedLyrics: seq<string>)

  /** Number of slices `lines[i:i + 5]` for `i in range(0, len(lines), 5)`. */
  function GroupCount(n: nat): nat {
    (n + ChunkSize - 1) / ChunkSize
  }

  /** Number of lines in the next group: five, or what is left. */
  function GroupSize(lines: seq<string>): (n: nat)
    ensures n <= |lines| && n <= ChunkSize
    ensures lines != [] ==> n >= 1
  {
    if |lines| < ChunkSize then |lines| else ChunkSize
  }

  predicate Blank(page: string) {
    Strip(page) == []
  }

  /**
   * The list comprehension of the fallback path: the '\n'-join of every group of five lines,
   * keeping only the groups that are not blank once joined.
   */
  function ChunkPages(lines: seq<string>): seq<string>
    decreases |lines|
  {
    if lines == [] then []
    else
      var n := GroupSize(lines);
      var page := Join(lines[..n], "\n");
      (if Blank(page) then [] else [page]) + ChunkPages(lines[n..])
  }

  /** The pages of one lyric text, with the fixed sentence standing in for an empty list. */
  function LyricsPages(lyrics: string): seq<string> {
    var pages := ChunkPages(Split(lyrics, '\n'));
    if pages == [] then [SplitErrorPage] else pages
  }

  /** What `split_lyrics_to_json` appends for one item. */
  function SplitItem(item: LyricItem): SplitResult {
    var title := item.title.GetOr(DefaultTitle);
    var lyrics := item.lyrics.GetOr("");
    if lyrics == [] then SplitResult(title, [NoLyricsPage])
    else SplitResult(title, LyricsPages(lyrics))
  }

  /** `split_lyrics_to_json`: one result per item, in input order. */
  method SplitLyricsToJson(items: seq<LyricItem>) returns (results: seq<SplitResult>)
    ensures |results| == |items|
    ensures forall i :: 0 <= i < |items| ==> results[i] == SplitItem(items[i])
  {
    results := [];
    for i := 0 to |items|
      invariant |results| == i
      invariant forall j :: 0 <= j < i ==> results[j] == SplitItem(items[j])
    {
      var item := items[i];
      var title := item.title.GetOr(DefaultTitle);
      var lyrics := item.lyrics.GetOr("");
      var pages: seq<string>;
      if lyrics == [] {
        pages := [NoLyricsPage];
      } else {
        var lines := Split(lyrics, '\n');
        pages := ChunkPages(lines);
        if pages == [] {
          pages := [SplitErrorPage];
        }
      }
      assert SplitResult(title, pages) == SplitItem(item);
      results := results + [SplitResult(title, pages)];
    }
  }

  // ---------------------------------------------------------------- properties

  /** A missing title becomes the default title, and a given title is kept. */
  lemma SplitItemTitle(item: LyricItem)
    ensures SplitItem(item).title == (if item.title.Some? then item.title.value else DefaultTitle)
  {
  }

  /**
   * Empty or missing lyrics give exactly the no-lyrics page; other lyrics give their pages, or the
   * split-error page when every group of lines is blank. No item gets an empty page list.
   */
  lemma SplitItemPages(item: LyricItem)
    ensures item.lyrics.GetOr("") == [] ==> SplitItem(item).splittedLyrics == [NoLyricsPage]
    ensures item.lyrics.GetOr("") != [] && ChunkPages(Split(item.lyrics.value, '\n')) == [] ==>
              SplitItem(item).splittedLyrics == [SplitErrorPage]
    ensures item.lyrics.GetOr("") != [] && ChunkPages(Split(item.lyrics.value, '\n')) != [] ==>
              SplitItem(item).splittedLyrics == ChunkPages(Split(item.lyrics.value, '\n'))
    ensures SplitItem(item).splittedLyrics != []
  {
  }

  /**
   * Every page is the '\n'-join of one to five consecutive lines with no newline inside a line,
   * and no page is blank; there are at most as many pages as groups of five lines.
   */
  lemma {:induction false} ChunkPagesShape(lines: seq<string>)
    requires forall k :: 0 <= k < |lines| ==> '\n' !in lines[k]
    ensures |ChunkPages(lines)| <= GroupCount(|lines|)
    ensures forall p :: p in ChunkPages(lines) ==> !Blank(p) && 1 <= |Split(p, '\n')| <= ChunkSize
    decreases |lines|
  {
    if lines != [] {
      var n := GroupSize(lines);
      var group := lines[..n];
      var page := Join(group, "\n");
      SplitJoin(group, '\n');
      assert |Split(page, '\n')| == n;
      ChunkPagesShape(lines[n..]);
    }
  }

  /** Each page of a lyric text has at most five lines and the page count is at most ⌈lines/5⌉. */
  lemma LyricsPagesBounds(lyrics: string)
    ensures |ChunkPages(Split(lyrics, '\n'))| <= GroupCount(|Split(lyrics, '\n')|)
    ensures forall p :: p in ChunkPages(Split(lyrics, '\n')) ==> 1 <= |Split(p, '\n')| <= ChunkSize
  {
    SplitPieces(lyrics, '\n');
    ChunkPagesShape(Split(lyrics, '\n'));
  }

  lemma {:induction false} JoinAppend(a: seq<string>, b: seq<string>, sep: string)
    requires a != [] && b != []
    ensures Join(a + b, sep) == Join(a, sep) + sep + Join(b, sep)
    decreases |a|
  {
    if |a| == 1 {
      assert (a + b)[1..] == b;
    } else {
      assert (a + b)[1..] == a[1..] + b;
      JoinAppend(a[1..], b, sep);
    }
  }

  /** When no group is blank, joining the pages with '\n' gives the lines joined with '\n'. */
  lemma {:induction false} ChunkPagesRoundTrip(lines: seq<string>)
    requires forall k :: 0 <= k < |lines| ==> '\n' !in lines[k]
    requires |ChunkPages(lines)| == GroupCount(|lines|)
    ensures Join(ChunkPages(lines), "\n") == Join(lines, "\n")
    decreases |lines|
  {
    if lines != [] {
      var n := GroupSize(lines);
      var page := Join(lines[..n], "\n");
      var rest := lines[n..];
      ChunkPagesShape(rest);
      assert GroupCount(|lines|) == 1 + GroupCount(|rest|);
      assert !Blank(page);
      assert ChunkPages(lines) == [page] + ChunkPages(rest);
      if rest == [] {
        assert lines[..n] == lines;
      } else {
        ChunkPagesRoundTrip(rest);
        assert lines == lines[..n] + rest;
        JoinAppend(lines[..n], rest, "\n");
        assert Join([page] + ChunkPages(rest), "\n") == page + "\n" + Join(ChunkPages(rest), "\n");
      }
    }
  }

  /** When no group of lines is dropped, the pages joined with '\n' reproduce the lyrics exactly. */
  lemma LyricsRoundTrip(lyrics: string)
    requires |ChunkPages(Split(lyrics, '\n'))| == GroupCount(|Split(lyrics, '\n')|)
    ensures Join(LyricsPages(lyrics), "\n") == lyrics
  {
    var lines := Split(lyrics, '\n');
    SplitPieces(lyrics, '\n');
    ChunkPagesRoundTrip(lines);
    JoinSplit(lyrics, '\n');
    assert GroupCount(|lines|) >= 1;
  }
}
