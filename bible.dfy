/**
 * The verse-text reader of utils/bible_text_parser.py: `parse_verse_line`, which matches one line
 * of a Bible text file against `^(\S+?)(\d+):(\d+)\s+(.*)$` and strips `<…>` section titles from
 * its text, and `get_bible_contents`, which scans the lines of a book's file for a
 * chapter:verse range.
 *
 * The file system is a map from file name to the file's lines; a name that is not in the map is a
 * missing file.
 */
module BibleText {
  import opened Base
  import opened Text

  /** `BIBLE_FILE_MAP`: full book name to text-file name. */
  const BibleFileMap: map<string, string> := map[
    "창세기" := "1-01창세기.txt",
    "출애굽기" := "1-02출애굽기.txt",
    "레위기" := "1-03레위기.txt",
    "민수기" := "1-04민수기.txt",
    "신명기" := "1-05신명기.txt",
    "여호수아" := "1-06여호수아.txt",
    "사사기" := "1-07사사기.txt",
    "룻기" := "1-08룻기.txt",
    "사무엘상" := "1-09사무엘상.txt",
    "사무엘하" := "1-10사무엘하.txt",
    "열왕기상" := "1-11열왕기상.txt",
    "열왕기하" := "1-12열왕기하.txt",
    "역대상" := "1-13역대상.txt",
    "역대하" := "1-14역대하.txt",
    "에스라" := "1-15에스라.txt",
    "느헤미야" := "1-16느헤미야.txt",
    "에스더" := "1-17에스더.txt",
    "욥기" := "1-18욥기.txt",
    "시편" := "1-19시편.txt",
    "잠언" := "1-20잠언.txt",
    "전도서" := "1-21전도서.txt",
    "아가" := "1-22아가.txt",
    "이사야" := "1-23이사야.txt",
    "예레미야" := "1-24예레미야.txt",
    "예레미야애가" := "1-25예레미야애가.txt",
    "에스겔" := "1-26에스겔.txt",
    "다니엘" := "1-27다니엘.txt",
    "호세아" := "1-28호세아.txt",
    "요엘" := "1-29요엘.txt",
    "아모스" := "1-30아모스.txt",
    "오바댜" := "1-31오바댜.txt",
    "요나" := "1-32요나.txt",
    "미가" := "1-33미가.txt",
    "나훔" := "1-34나훔.txt",
    "하박국" := "1-35하박국.txt",
    "스바냐" := "1-36스바냐.txt",
    "학개" := "1-37학개.txt",
    "스가랴" := "1-38스가랴.txt",
    "말라기" := "1-39말라기.txt",
    "마태복음" := "2-01마태복음.txt",
    "마가복음" := "2-02마가복음.txt",
    "누가복음" := "2-03누가복음.txt",
    "요한복음" := "2-04요한복음.txt",
    "사도행전" := "2-05사도행전.txt",
    "로마서" := "2-06로마서.txt",
    "고린도전서" := "2-07고린도전서.txt",
    "고린도후서" := "2-08고린도후서.txt",
    "갈라디아서" := "2-09갈라디아서.txt",
    "에베소서" := "2-10에베소서.txt",
    "빌립보서" := "2-11빌립보서.txt",
    "골로새서" := "2-12골로새서.txt",
    "데살로니가전서" := "2-13데살로니가전서.txt",
    "데살로니가후서" := "2-14데살로니가후서.txt",
    "디모데전서" := "2-15디모데전서.txt",
    "디모데후서" := "2-16디모데후서.txt",
    "디도서" := "2-17디도서.txt",
    "빌레몬서" := "2-18빌레몬서.txt",
    "히브리서" := "2-19히브리서.txt",
    "야고보서" := "2-20야고보서.txt",
    "베드로전서" := "2-21베드로전서.txt",
    "베드로후서" := "2-22베드로후서.txt",
    "요한일서" := "2-23요한일서.txt",
    "요한이서" := "2-24요한이서.txt",
    "요한삼서" := "2-25요한삼서.txt",
    "유다서" := "2-26유다서.txt",
    "요한계시록" := "2-27요한계시록.txt"
  ]

  /** One parsed line: its slide title, chapter and verse numbers and cleaned text. */
  datatype Verse = Verse(title: string, chapter: nat, verse: nat, contents: string)

  /** One selected verse, `{"title": ..., "contents": ...}`. */
  datatype BibleEntry = BibleEntry(title: string, contents: string)

  /** The exceptions `get_bible_contents` raises, with their messages. */
  datatype BibleError =
    | UnknownBook(message: string)   // ValueError: the book has no file name
    | FileNotFound(message: string)  // FileNotFoundError: the book's file is absent
    | RangeNotFound(message: string) // ValueError: nothing selected

  // ---------------------------------------------------------------- the verse-line pattern

  /** Length of the run of digits starting at `i` (`\d+` is greedy and `:` is not a digit). */
  function DigitRun(s: string, i: nat): (n: nat)
    requires i <= |s|
    ensures i + n <= |s|
    ensures forall j :: i <= j < i + n ==> IsDigit(s[j])
    ensures i + n < |s| ==> !IsDigit(s[i + n])
    decreases |s| - i
  {
    if i < |s| && IsDigit(s[i]) then
      var n := 1 + DigitRun(s, i + 1);
      n
    else 0
  }

  /** Length of the run of white space starting at `i`. */
  function SpaceRun(s: string, i: nat): (n: nat)
    requires i <= |s|
    ensures i + n <= |s|
    ensures forall j :: i <= j < i + n ==> IsSpace(s[j])
    ensures i + n < |s| ==> !IsSpace(s[i + n])
    decreases |s| - i
  {
    if i < |s| && IsSpace(s[i]) then
      var n := 1 + SpaceRun(s, i + 1);
      n
    else 0
  }

  /** The four groups of a match: abbreviation, chapter digits, verse digits, text. */
  datatype VerseGroups = VerseGroups(abbr: string, ch: string, verse: string, content: string)

  predicate NoSpace(s: string) {
    forall i :: 0 <= i < |s| ==> !IsSpace(s[i])
  }

  /** The first `k` characters of `s` are not white space. */
  predicate NoSpaceBefore(s: string, k: nat) {
    forall i :: 0 <= i < k && i < |s| ==> !IsSpace(s[i])
  }

  /** `s` is matched by the pattern with these groups (whichever way the groups are chosen). */
  predicate IsMatch(s: string, g: VerseGroups) {
    var pre := g.abbr + g.ch + ":" + g.verse;
    |g.abbr| >= 1 && NoSpace(g.abbr)
    && |g.ch| >= 1 && AllDigits(g.ch)
    && |g.verse| >= 1 && AllDigits(g.verse)
    && '\n' !in g.content
    && |pre| < |s| - |g.content|
    && s[..|pre|] == pre
    && s[|s| - |g.content|..] == g.content
    && AllSpace(s[|pre|..|s| - |g.content|])
  }

  /**
   * The match whose first group is `s[..k]`: the chapter and verse digit runs are then forced,
   * `\s+` takes all the white space after them and `(.*)` the rest, which may not hold a newline.
   */
  function MatchAt(s: string, k: nat): Option<VerseGroups>
    requires k <= |s|
  {
    var d := DigitRun(s, k);
    if d == 0 || k + d >= |s| || s[k + d] != ':' then None
    else
      var v := DigitRun(s, k + d + 1);
      var p := k + d + 1 + v;
      var w := SpaceRun(s, p);
      if v == 0 || w == 0 || '\n' in s[p + w..] then None
      else Some(VerseGroups(s[..k], s[k..k + d], s[k + d + 1..p], s[p + w..]))
  }

  /** The lazy `(\S+?)`: the shortest first group from `s[..k]` on that lets the rest match. */
  function SearchFrom(s: string, k: nat): Option<VerseGroups>
    requires 1 <= k
    decreases |s| - k
  {
    if k > |s| || IsSpace(s[k - 1]) then None
    else
      match MatchAt(s, k)
      case Some(g) => Some(g)
      case None => SearchFrom(s, k + 1)
  }

  /** `VERSE_LINE_PATTERN.match(s)`. */
  function VerseMatch(s: string): Option<VerseGroups> {
    SearchFrom(s, 1)
  }

  lemma MatchAtSound(s: string, k: nat)
    requires 1 <= k <= |s| && NoSpaceBefore(s, k)
    ensures MatchAt(s, k).Some? ==> IsMatch(s, MatchAt(s, k).value) && MatchAt(s, k).value.abbr == s[..k]
  {
    if MatchAt(s, k).Some? {
      var g := MatchAt(s, k).value;
      var p := k + |g.ch| + 1 + |g.verse|;
      assert s[..p] == g.abbr + g.ch + ":" + g.verse;
      assert forall i :: 0 <= i < k ==> g.abbr[i] == s[i];
    }
  }

  lemma {:induction false} SearchFromSound(s: string, k: nat)
    requires 1 <= k && NoSpaceBefore(s, k - 1)
    ensures SearchFrom(s, k).Some? ==> IsMatch(s, SearchFrom(s, k).value)
    decreases |s| - k
  {
    if k <= |s| && !IsSpace(s[k - 1]) {
      MatchAtSound(s, k);
      if MatchAt(s, k).None? {
        SearchFromSound(s, k + 1);
      }
    }
  }

  /** Whatever groups the parser reports, the line is made of them as the pattern says. */
  lemma VerseMatchSound(s: string)
    ensures VerseMatch(s).Some? ==> IsMatch(s, VerseMatch(s).value)
  {
    SearchFromSound(s, 1);
  }

  // ---------------------------------------------------------------- section titles

  /** Position in `s` of the `>` closing a section title that opens at `s[0] == '<'`, if any. */
  function CloseAt(s: string): (j: nat)
    requires |s| >= 1
    ensures j <= |s|
  {
    1 + IndexOf(s[1..], '>')
  }

  /** A section title `<[^>]+>` starts at the front of `s`. */
  predicate TitleAtFront(s: string) {
    |s| >= 1 && s[0] == '<' && 2 <= CloseAt(s) < |s|
  }

  /** `SECTION_TITLE_PATTERN.sub('', s)`: every `<…>` with a non-empty inside removed, left to right. */
  function RemoveTitles(s: string): (r: string)
    ensures |r| <= |s|
    ensures forall c :: c in r ==> c in s
    decreases |s|
  {
    if s == [] then []
    else if TitleAtFront(s) then RemoveTitles(s[CloseAt(s) + 1..])
    else [s[0]] + RemoveTitles(s[1..])
  }

  /** `s` holds no section title anywhere. */
  predicate NoTitle(s: string) {
    forall i :: 0 <= i < |s| ==> !TitleAtFront(s[i..])
  }

  /** Text without `<` is left alone. */
  lemma {:induction false} RemoveTitlesWithoutOpen(s: string)
    requires '<' !in s
    ensures RemoveTitles(s) == s
    decreases |s|
  {
    if s != [] {
      assert s[0] != '<';
      RemoveTitlesWithoutOpen(s[1..]);
    }
  }

  /** No section title is left after the substitution. */
  lemma {:induction false} RemoveTitlesLeavesNone(s: string)
    ensures NoTitle(RemoveTitles(s))
    decreases |s|
  {
    if s != [] {
      if TitleAtFront(s) {
        RemoveTitlesLeavesNone(s[CloseAt(s) + 1..]);
      } else {
        var t := RemoveTitles(s[1..]);
        RemoveTitlesLeavesNone(s[1..]);
        var r := [s[0]] + t;
        forall i | 0 <= i < |r| ensures !TitleAtFront(r[i..]) {
          if i == 0 {
            KeptOpenHasNoTitle(s, t);
          } else {
            assert r[i..] == t[i - 1..];
          }
        }
      }
    }
  }

  lemma KeptOpenHasNoTitle(s: string, t: string)
    requires |s| >= 1 && !TitleAtFront(s) && t == RemoveTitles(s[1..])
    ensures !TitleAtFront([s[0]] + t)
  {
    var r := [s[0]] + t;
    if s[0] == '<' {
      var j := IndexOf(s[1..], '>');
      if j == |s| - 1 {
        // no '>' after the '<': none in what is kept either
        assert '>' !in s[1..];
        assert '>' !in t;
        IndexOfAbsent(t, '>');
        assert r[1..] == t;
      } else {
        // the '<' is immediately followed by '>', which is kept
        assert j == 0 && s[1] == '>';
        assert TitleAtFront(s[1..]) == false;
        assert t == [s[1]] + RemoveTitles(s[2..]);
        assert r[1..][0] == '>';
      }
    }
  }

  /** Removing section titles twice is removing them once. */
  lemma RemoveTitlesIdempotent(s: string)
    ensures RemoveTitles(RemoveTitles(s)) == RemoveTitles(s)
  {
    RemoveTitlesLeavesNone(s);
    NoTitleUnchanged(RemoveTitles(s));
  }

  lemma {:induction false} NoTitleUnchanged(s: string)
    requires NoTitle(s)
    ensures RemoveTitles(s) == s
    decreases |s|
  {
    if s != [] {
      assert !TitleAtFront(s[0..]);
      assert s[0..] == s;
      forall i | 0 <= i < |s| - 1 ensures !TitleAtFront(s[1..][i..]) {
        assert s[1..][i..] == s[i + 1..];
      }
      NoTitleUnchanged(s[1..]);
    }
  }

  // ---------------------------------------------------------------- parse_verse_line

  /** `parse_verse_line(line, full_book_name)`. */
  function ParseVerseLine(line: string, fullBookName: string): Option<Verse> {
    match VerseMatch(Strip(line))
    case None => None
    case Some(g) =>
      VerseMatchSound(Strip(line));
      Some(Verse(fullBookName + " " + g.ch + ":" + g.verse,
                 DecimalValue(g.ch), DecimalValue(g.verse),
                 Strip(RemoveTitles(g.content))))
  }

  predicate NoDigit(s: string) {
    forall i :: 0 <= i < |s| ==> !IsDigit(s[i])
  }

  /** A line `<abbr><ch>:<verse> <text>` of a well-formed file, with the numbers written plainly. */
  function VerseLine(abbr: string, ch: nat, verse: nat, content: string): string {
    abbr + NatToString(ch) + ":" + NatToString(verse) + " " + content
  }

  /** The shape a line of a well-formed file has: what `VerseLine` is applied to. */
  predicate WellFormedLine(abbr: string, content: string) {
    |abbr| >= 1 && NoSpace(abbr) && NoDigit(abbr)
    && |content| >= 1 && !IsSpace(content[0]) && !IsSpace(content[|content| - 1])
    && '\n' !in content
  }

  /**
   * A well-formed line parses to the full book name with the chapter and verse as written, the
   * two numbers, and the text without section titles, trimmed.
   */
  lemma ParseVerseLineOfVerseLine(abbr: string, ch: nat, verse: nat, content: string, fullBookName: string)
    requires WellFormedLine(abbr, content)
    ensures ParseVerseLine(VerseLine(abbr, ch, verse, content), fullBookName)
            == Some(Verse(fullBookName + " " + NatToString(ch) + ":" + NatToString(verse), ch, verse,
                          Strip(RemoveTitles(content))))
  {
    var cs, vs := NatToString(ch), NatToString(verse);
    var line := VerseLine(abbr, ch, verse, content);
    StripOfTrimmed(line);
    VerseMatchOfVerseLine(abbr, cs, vs, content);
    DecimalOfNatToString(ch);
    DecimalOfNatToString(verse);
  }

  lemma VerseMatchOfVerseLine(abbr: string, cs: string, vs: string, content: string)
    requires WellFormedLine(abbr, content)
    requires |cs| >= 1 && AllDigits(cs) && |vs| >= 1 && AllDigits(vs)
    ensures VerseMatch(abbr + cs + ":" + vs + " " + content) == Some(VerseGroups(abbr, cs, vs, content))
  {
    var line := abbr + cs + ":" + vs + " " + content;
    assert forall i :: 0 <= i < |abbr| ==> line[i] == abbr[i];
    SkipAbbreviation(line, abbr, 1);
    MatchAtOfVerseLine(abbr, cs, vs, content);
  }

  lemma MatchAtOfVerseLine(abbr: string, cs: string, vs: string, content: string)
    requires WellFormedLine(abbr, content)
    requires |cs| >= 1 && AllDigits(cs) && |vs| >= 1 && AllDigits(vs)
    ensures var line := abbr + cs + ":" + vs + " " + content;
            MatchAt(line, |abbr|) == Some(VerseGroups(abbr, cs, vs, content))
  {
    LinePieces(abbr, cs, vs, content);
    MatchAtOfSlices(abbr + cs + ":" + vs + " " + content, abbr, cs, vs, content);
  }

  lemma MatchAtOfSlices(line: string, abbr: string, cs: string, vs: string, content: string)
    requires WellFormedLine(abbr, content)
    requires |cs| >= 1 && AllDigits(cs) && |vs| >= 1 && AllDigits(vs)
    requires var a, n, m := |abbr|, |cs|, |vs|;
             && |line| == a + n + m + 2 + |content|
             && line[..a] == abbr
             && line[a..a + n] == cs
             && line[a + n] == ':'
             && line[a + n + 1..a + n + 1 + m] == vs
             && line[a + n + 1 + m] == ' '
             && line[a + n + m + 2..] == content
    ensures MatchAt(line, |abbr|) == Some(VerseGroups(abbr, cs, vs, content))
  {
    var a, n, m := |abbr|, |cs|, |vs|;
    assert line[a + n + m + 2] == content[0];
    MatchAtOfPieces(line, a, n, m);
  }

  /** `MatchAt` on a line laid out as abbreviation, digits, colon, digits, one space, text. */
  lemma MatchAtOfPieces(line: string, a: nat, n: nat, m: nat)
    requires 1 <= n && 1 <= m && a + n + m + 2 < |line|
    requires AllDigits(line[a..a + n]) && line[a + n] == ':'
    requires AllDigits(line[a + n + 1..a + n + 1 + m]) && line[a + n + 1 + m] == ' '
    requires !IsSpace(line[a + n + m + 2]) && '\n' !in line[a + n + m + 2..]
    ensures MatchAt(line, a) == Some(VerseGroups(line[..a], line[a..a + n], line[a + n + 1..a + n + 1 + m],
                                                 line[a + n + m + 2..]))
  {
    DigitRunExact(line, a, n);
    DigitRunExact(line, a + n + 1, m);
    var p := a + n + 1 + m;
    SingleSpace(line, p);
    MatchAtUnfold(line, a, n, m, 1);
  }

  /** `MatchAt` once the lengths of the three runs are known. */
  lemma MatchAtUnfold(line: string, a: nat, d: nat, v: nat, w: nat)
    requires a + d + 1 + v + w <= |line|
    requires DigitRun(line, a) == d && d >= 1 && line[a + d] == ':'
    requires DigitRun(line, a + d + 1) == v && v >= 1
    requires SpaceRun(line, a + d + 1 + v) == w && w >= 1
    requires '\n' !in line[a + d + 1 + v + w..]
    ensures MatchAt(line, a) == Some(VerseGroups(line[..a], line[a..a + d], line[a + d + 1..a + d + 1 + v],
                                                 line[a + d + 1 + v + w..]))
  {
  }

  lemma SingleSpace(line: string, p: nat)
    requires p + 1 < |line| && line[p] == ' ' && !IsSpace(line[p + 1])
    ensures SpaceRun(line, p) == 1
  {
    assert SpaceRun(line, p + 1) == 0;
  }

  lemma LinePieces(abbr: string, cs: string, vs: string, content: string)
    ensures var line := abbr + cs + ":" + vs + " " + content;
            var a, n, m := |abbr|, |cs|, |vs|;
            && line[..a] == abbr
            && line[a..a + n] == cs
            && line[a + n] == ':'
            && line[a + n + 1..a + n + 1 + m] == vs
            && line[a + n + 1 + m] == ' '
            && line[a + n + m + 2..] == content
  {
  }

  /** The lazy first group passes over every proper prefix of an abbreviation without digits. */
  lemma {:induction false} SkipAbbreviation(line: string, abbr: string, k: nat)
    requires |abbr| >= 1 && NoSpace(abbr) && NoDigit(abbr) && |abbr| < |line|
    requires forall i :: 0 <= i < |abbr| ==> line[i] == abbr[i]
    requires 1 <= k <= |abbr|
    ensures SearchFrom(line, k) == SearchFrom(line, |abbr|)
    decreases |abbr| - k
  {
    if k < |abbr| {
      assert !IsDigit(line[k]);
      assert DigitRun(line, k) == 0;
      SkipAbbreviation(line, abbr, k + 1);
    }
  }

  lemma {:induction false} DigitRunExact(s: string, i: nat, n: nat)
    requires i + n <= |s| && AllDigits(s[i..i + n]) && (i + n < |s| ==> !IsDigit(s[i + n]))
    ensures DigitRun(s, i) == n
    decreases n
  {
    if n > 0 {
      assert s[i] == s[i..i + n][0];
      assert s[i + 1..i + n] == s[i..i + n][1..];
      DigitRunExact(s, i + 1, n - 1);
    }
  }

  /**
   * A line whose text opens with a section title, such as `창1:1 <천지 창조> 태초에 ...`, parses to
   * the verse text with the title and the space after it gone.
   */
  lemma ParseLineWithSectionTitle(abbr: string, ch: nat, verse: nat, inside: string, text: string,
                                  fullBookName: string)
    requires |abbr| >= 1 && NoSpace(abbr) && NoDigit(abbr)
    requires |inside| >= 1 && '>' !in inside && '\n' !in inside
    requires |text| >= 1 && !IsSpace(text[0]) && !IsSpace(text[|text| - 1])
    requires '<' !in text && '\n' !in text
    ensures ParseVerseLine(VerseLine(abbr, ch, verse, "<" + inside + ">" + " " + text), fullBookName)
            == Some(Verse(fullBookName + " " + NatToString(ch) + ":" + NatToString(verse), ch, verse, text))
  {
    var content := "<" + inside + ">" + " " + text;
    assert content[|content| - 1] == text[|text| - 1];
    assert WellFormedLine(abbr, content);
    ParseVerseLineOfVerseLine(abbr, ch, verse, content, fullBookName);
    SectionTitleRemoved(inside, text);
  }

  lemma SectionTitleRemoved(inside: string, text: string)
    requires |inside| >= 1 && '>' !in inside
    requires text == [] || (!IsSpace(text[0]) && !IsSpace(text[|text| - 1]))
    requires '<' !in text
    ensures Strip(RemoveTitles("<" + inside + ">" + " " + text)) == text
  {
    var rest := " " + text;
    assert "<" + inside + ">" + " " + text == "<" + inside + ">" + rest;
    LeadingTitleDropped(inside, rest);
    assert '<' !in rest;
    RemoveTitlesWithoutOpen(rest);
    StripLeadingSpace(text);
  }

  lemma LeadingTitleDropped(inside: string, rest: string)
    requires |inside| >= 1 && '>' !in inside
    ensures RemoveTitles("<" + inside + ">" + rest) == RemoveTitles(rest)
  {
    var content := "<" + inside + ">" + rest;
    assert content[1..] == inside + ['>'] + rest;
    IndexOfAfter(inside, '>', rest);
    assert CloseAt(content) == |inside| + 1;
    assert content[|inside| + 2..] == rest;
  }

  lemma StripLeadingSpace(text: string)
    requires text == [] || (!IsSpace(text[0]) && !IsSpace(text[|text| - 1]))
    ensures Strip(" " + text) == text
  {
    var rest := " " + text;
    assert LeadingSpaces(rest) == 1 + LeadingSpaces(text);
    assert rest[1..] == text;
    StripOfTrimmed(text);
  }

  /** A line without a colon, such as a heading or a blank line, is not a verse. */
  lemma ParseVerseLineWithoutColon(line: string, fullBookName: string)
    requires ':' !in line
    ensures ParseVerseLine(line, fullBookName) == None
  {
    var t := Strip(line);
    VerseMatchSound(t);
    if VerseMatch(t).Some? {
      MatchHasColon(t, VerseMatch(t).value);
    }
  }

  lemma MatchHasColon(s: string, g: VerseGroups)
    requires IsMatch(s, g)
    ensures ':' in s
  {
    var pre := g.abbr + g.ch + ":" + g.verse;
    assert pre[|g.abbr| + |g.ch|] == ':';
    assert s[..|pre|] == pre;
    assert s[|g.abbr| + |g.ch|] == ':';
  }

  // ---------------------------------------------------------------- get_bible_contents

  /** The requested range `begin_ch:begin_verse - end_ch:end_verse`. */
  datatype Range = Range(beginCh: int, beginVerse: int, endCh: int, endVerse: int)

  /** The verses of the lines that parse, in file order (lines that do not parse are skipped). */
  function ParsedVerses(lines: seq<string>, book: string): (vs: seq<Verse>)
    ensures |vs| <= |lines|
    decreases |lines|
  {
    if lines == [] then []
    else
      match ParseVerseLine(lines[0], book)
      case None => ParsedVerses(lines[1..], book)
      case Some(v) => [v] + ParsedVerses(lines[1..], book)
  }

  function EntryOf(v: Verse): BibleEntry {
    BibleEntry(v.title, v.contents)
  }

  predicate IsStart(v: Verse, r: Range) {
    v.chapter == r.beginCh && v.verse == r.beginVerse
  }

  /** The line ends the range: a verse of the end chapter beyond the end verse. */
  predicate IsPastEnd(v: Verse, r: Range) {
    v.chapter == r.endCh && v.verse > r.endVerse
  }

  /**
   * The selection loop over the parsed verses, the flag `is_in_range` being `inRange`: the flag is
   * raised on the start verse, lowered on a verse past the end of the end chapter, the verse is kept
   * while the flag is up, and the scan stops after a kept verse of a later chapter than the end.
   */
  function Scan(vs: seq<Verse>, inRange: bool, r: Range): seq<BibleEntry>
    decreases |vs|
  {
    if vs == [] then []
    else
      var v := vs[0];
      var started := inRange || IsStart(v, r);
      var stillIn := started && !IsPastEnd(v, r);
      var kept := if stillIn then [EntryOf(v)] else [];
      if v.chapter > r.endCh && stillIn then kept else kept + Scan(vs[1..], stillIn, r)
  }

  function UnknownBookMessage(book: string): string {
    "성경책 '" + book + "'에 대한 파일 정보를 찾을 수 없습니다. 'utils/bible_text_parser.py'의 BIBLE_FILE_MAP을 확인하고 채워주세요."
  }

  function FileNotFoundMessage(filePath: string): string {
    "성경 파일 '" + filePath + "'를 찾을 수 없습니다. 'core/data/bible_text/' 폴더에 파일이 있고 이름이 정확한지 확인해주세요."
  }

  function RangeNotFoundMessage(book: string, r: Range): string {
    "성경 구절 '" + book + " " + IntToString(r.beginCh) + ":" + IntToString(r.beginVerse) + "-"
    + IntToString(r.endCh) + ":" + IntToString(r.endVerse) + "'을 파일에서 찾을 수 없거나 범위가 잘못되었습니다."
  }

  /** `os.path.join(BIBLE_TEXT_DIR, name)` for a directory given without a trailing separator. */
  function FilePath(bibleTextDir: string, fileName: string): string {
    bibleTextDir + "/" + fileName
  }

  /** The verses of the lines of the book's file. */
  function FileVerses(fileMap: map<string, string>, book: string, files: map<string, seq<string>>): seq<Verse>
    requires book in fileMap && fileMap[book] in files
  {
    ParsedVerses(files[fileMap[book]], book)
  }

  /**
   * What `get_bible_contents` returns or raises, the book-to-file map being `fileMap` (the module's
   * `BibleFileMap`) and the files being `files`.
   */
  function BibleContents(fileMap: map<string, string>, book: string, r: Range, bibleTextDir: string,
                         files: map<string, seq<string>>): Result<seq<BibleEntry>, BibleError>
  {
    if book !in fileMap then Err(UnknownBook(UnknownBookMessage(book)))
    else if fileMap[book] !in files then Err(FileNotFound(FileNotFoundMessage(FilePath(bibleTextDir, fileMap[book]))))
    else
      var verses := Scan(FileVerses(fileMap, book, files), false, r);
      if verses == [] then Err(RangeNotFound(RangeNotFoundMessage(book, r))) else Ok(verses)
  }

  lemma ParsedVersesAt(lines: seq<string>, i: nat, book: string)
    requires i < |lines|
    ensures ParsedVerses(lines[i..], book)
            == (match ParseVerseLine(lines[i], book) case None => [] case Some(v) => [v])
               + ParsedVerses(lines[i + 1..], book)
  {
    assert lines[i..][0] == lines[i] && lines[i..][1..] == lines[i + 1..];
  }

  lemma ScanCons(v: Verse, rest: seq<Verse>, inRange: bool, r: Range)
    ensures var started := inRange || IsStart(v, r);
            var stillIn := started && !IsPastEnd(v, r);
            var kept := if stillIn then [EntryOf(v)] else [];
            Scan([v] + rest, inRange, r)
            == if v.chapter > r.endCh && stillIn then kept else kept + Scan(rest, stillIn, r)
  {
    assert ([v] + rest)[1..] == rest;
  }

  /** The line loop of `get_bible_contents`, over the lines of the book's file. */
  method SelectVerses(lines: seq<string>, book: string, r: Range) returns (verses: seq<BibleEntry>)
    ensures verses == Scan(ParsedVerses(lines, book), false, r)
  {
    verses := [];
    var isInRange := false;
    var i := 0;
    while i < |lines|
      invariant 0 <= i <= |lines|
      invariant verses + Scan(ParsedVerses(lines[i..], book), isInRange, r)
                == Scan(ParsedVerses(lines, book), false, r)
    {
      var parsedLine := ParseVerseLine(lines[i], book);
      ghost var rest := ParsedVerses(lines[i + 1..], book);
      ParsedVersesAt(lines, i, book);
      if parsedLine.None? {
        i := i + 1;
        continue;
      }
      ghost var before := verses;
      ghost var wasInRange := isInRange;
      var currentCh := parsedLine.value.chapter;
      var currentVerse := parsedLine.value.verse;
      if currentCh == r.beginCh && currentVerse == r.beginVerse {
        isInRange := true;
      }
      if isInRange {
        if currentCh == r.endCh && currentVerse > r.endVerse {
          isInRange := false;
        }
      }
      if isInRange {
        verses := verses + [BibleEntry(parsedLine.value.title, parsedLine.value.contents)];
      }
      ScanStep(parsedLine.value, rest, wasInRange, r, before, isInRange, verses);
      if currentCh > r.endCh && isInRange {
        break;
      }
      i := i + 1;
    }
  }

  /** One turn of the line loop keeps `verses + Scan(rest) == selection` and ends it when the scan does. */
  lemma ScanStep(v: Verse, rest: seq<Verse>, inRange: bool, r: Range, before: seq<BibleEntry>,
                 stillIn: bool, after: seq<BibleEntry>)
    requires stillIn == ((inRange || IsStart(v, r)) && !IsPastEnd(v, r))
    requires after == before + (if stillIn then [EntryOf(v)] else [])
    ensures v.chapter > r.endCh && stillIn ==> after == before + Scan([v] + rest, inRange, r)
    ensures !(v.chapter > r.endCh && stillIn) ==> after + Scan(rest, stillIn, r) == before + Scan([v] + rest, inRange, r)
  {
    ScanCons(v, rest, inRange, r);
  }

  /** `get_bible_contents(bible_book, begin_ch, begin_verse, end_ch, end_verse)`. */
  method GetBibleContents(bibleBook: string, beginCh: int, beginVerse: int, endCh: int, endVerse: int,
                          bibleTextDir: string, files: map<string, seq<string>>)
    returns (result: Result<seq<BibleEntry>, BibleError>)
    ensures result == BibleContents(BibleFileMap, bibleBook, Range(beginCh, beginVerse, endCh, endVerse), bibleTextDir, files)
    ensures result.Ok? ==> result.value != []
  {
    var r := Range(beginCh, beginVerse, endCh, endVerse);
    if bibleBook !in BibleFileMap {
      return Err(UnknownBook(UnknownBookMessage(bibleBook)));
    }
    var bibleFileName := BibleFileMap[bibleBook];
    var filePath := FilePath(bibleTextDir, bibleFileName);
    if bibleFileName !in files {
      return Err(FileNotFound(FileNotFoundMessage(filePath)));
    }
    var verses := SelectVerses(files[bibleFileName], bibleBook, r);
    if verses == [] {
      return Err(RangeNotFound(RangeNotFoundMessage(bibleBook, r)));
    }
    return Ok(verses);
  }

  // ---------------------------------------------------------------- properties of the selection

  /** Without the start verse the flag is never raised and nothing is selected. */
  lemma {:induction false} ScanWithoutStart(vs: seq<Verse>, r: Range)
    requires forall i :: 0 <= i < |vs| ==> !IsStart(vs[i], r)
    ensures Scan(vs, false, r) == []
    decreases |vs|
  {
    if vs != [] {
      ScanWithoutStart(vs[1..], r);
    }
  }

  /** Verses before the start verse are neither selected nor change the flag. */
  lemma {:induction false} ScanSkipsPrefix(pre: seq<Verse>, rest: seq<Verse>, r: Range)
    requires forall i :: 0 <= i < |pre| ==> !IsStart(pre[i], r)
    ensures Scan(pre + rest, false, r) == Scan(rest, false, r)
    decreases |pre|
  {
    if pre != [] {
      assert pre + rest == [pre[0]] + (pre[1..] + rest);
      ScanCons(pre[0], pre[1..] + rest, false, r);
      assert Scan(pre + rest, false, r) == Scan(pre[1..] + rest, false, r);
      assert forall i :: 0 <= i < |pre| - 1 ==> pre[1..][i] == pre[i + 1];
      ScanSkipsPrefix(pre[1..], rest, r);
    } else {
      assert pre + rest == rest;
    }
  }

  /** A start after the end within one chapter selects nothing: the flag drops as soon as it rises. */
  lemma {:induction false} ScanStartAfterEnd(vs: seq<Verse>, inRange: bool, r: Range)
    requires r.beginCh == r.endCh && r.beginVerse > r.endVerse && !inRange
    ensures Scan(vs, inRange, r) == []
    decreases |vs|
  {
    if vs != [] {
      ScanStartAfterEnd(vs[1..], false, r);
    }
  }

  /** A verse of the end chapter beyond the end verse is not selected and lowers the flag. */
  lemma ScanPastEnd(v: Verse, rest: seq<Verse>, inRange: bool, r: Range)
    requires IsPastEnd(v, r)
    ensures Scan([v] + rest, inRange, r) == Scan(rest, false, r)
  {
    ScanCons(v, rest, inRange, r);
  }

  /**
   * While the flag is up, a verse of a chapter after the end chapter is selected and the scan stops
   * there: a range that ends on a chapter's last verse also brings the next chapter's first verse.
   */
  lemma ScanBeyondEndChapter(v: Verse, rest: seq<Verse>, inRange: bool, r: Range)
    requires inRange || IsStart(v, r)
    requires v.chapter > r.endCh
    ensures Scan([v] + rest, inRange, r) == [EntryOf(v)]
  {
    ScanCons(v, rest, inRange, r);
  }

  /** The selection starts with the first start verse, unless that verse is already past the end. */
  lemma ScanStartsAtStart(vs: seq<Verse>, s: nat, r: Range)
    requires s < |vs| && IsStart(vs[s], r) && !IsPastEnd(vs[s], r)
    requires forall i :: 0 <= i < s ==> !IsStart(vs[i], r)
    ensures Scan(vs, false, r) != [] && Scan(vs, false, r)[0] == EntryOf(vs[s])
  {
    assert vs == vs[..s] + vs[s..];
    ScanSkipsPrefix(vs[..s], vs[s..], r);
    assert vs[s..] == [vs[s]] + vs[s + 1..];
    ScanCons(vs[s], vs[s + 1..], false, r);
  }

  /** `a` is `b` with some elements left out, order kept. */
  predicate Subsequence<T(==)>(a: seq<T>, b: seq<T>)
    decreases |b|
  {
    a == [] || (b != [] && ((a[0] == b[0] && Subsequence(a[1..], b[1..])) || Subsequence(a, b[1..])))
  }

  function Entries(vs: seq<Verse>): (es: seq<BibleEntry>)
    ensures |es| == |vs|
    ensures forall i :: 0 <= i < |vs| ==> es[i] == EntryOf(vs[i])
  {
    seq(|vs|, i requires 0 <= i < |vs| => EntryOf(vs[i]))
  }

  /** The selection keeps file order: it is the parsed verses with some verses left out. */
  lemma {:induction false} ScanIsSubsequence(vs: seq<Verse>, inRange: bool, r: Range)
    ensures Subsequence(Scan(vs, inRange, r), Entries(vs))
    decreases |vs|
  {
    if vs != [] {
      var e := Entries(vs);
      assert e[1..] == Entries(vs[1..]);
      var v := vs[0];
      var stillIn := (inRange || IsStart(v, r)) && !IsPastEnd(v, r);
      assert vs == [v] + vs[1..];
      ScanCons(v, vs[1..], inRange, r);
      if v.chapter > r.endCh && stillIn {
        assert Scan(vs, inRange, r) == [EntryOf(v)];
        assert Subsequence([EntryOf(v)][1..], e[1..]);
      } else {
        ScanIsSubsequence(vs[1..], stillIn, r);
        if stillIn {
          assert Scan(vs, inRange, r) == [EntryOf(v)] + Scan(vs[1..], stillIn, r);
          assert ([EntryOf(v)] + Scan(vs[1..], stillIn, r))[1..] == Scan(vs[1..], stillIn, r);
        } else {
          assert Scan(vs, inRange, r) == Scan(vs[1..], stillIn, r);
        }
      }
    }
  }

  /** (chapter, verse) of `v` comes strictly before that of `w`. */
  predicate Before(v: Verse, w: Verse) {
    v.chapter < w.chapter || (v.chapter == w.chapter && v.verse < w.verse)
  }

  /** The verses of a book's file, each chapter:verse once, in increasing order. */
  predicate Ordered(vs: seq<Verse>) {
    forall i, j :: 0 <= i < j < |vs| ==> Before(vs[i], vs[j])
  }

  /** `v` is at or before the end `end_ch:end_verse` of the range. */
  predicate NotAfterEnd(v: Verse, r: Range) {
    v.chapter < r.endCh || (v.chapter == r.endCh && v.verse <= r.endVerse)
  }

  /**
   * In a file whose verses are in increasing order, with the start verse at `s` not after the end
   * and `e` the first position after `s` whose verse is after the end, the selection is the verses
   * `s .. e - 1`, followed by the verse at `e` when that verse opens a later chapter than the end.
   */
  lemma OrderedSelection(vs: seq<Verse>, s: nat, e: nat, r: Range)
    requires Ordered(vs)
    requires s < |vs| && IsStart(vs[s], r) && NotAfterEnd(vs[s], r)
    requires s <= e <= |vs|
    requires forall i :: s <= i < e ==> NotAfterEnd(vs[i], r)
    requires e < |vs| ==> !NotAfterEnd(vs[e], r)
    ensures Scan(vs, false, r)
            == Entries(vs[s..e]) + (if e < |vs| && vs[e].chapter > r.endCh then [EntryOf(vs[e])] else [])
  {
    SelectionHead(vs, s, r);
    var ws := vs[s..];
    forall i | 0 <= i < e - s ensures NotAfterEnd(ws[i], r) {
      assert ws[i] == vs[s + i];
    }
    InRangeRun(ws, e - s, r);
    assert ws[..e - s] == vs[s..e];
    assert ws[e - s..] == vs[e..];
    assert Scan(vs, false, r) == Entries(vs[s..e]) + Scan(vs[e..], true, r);
    SelectionTail(vs, s, e, r);
  }

  /** Up to the start verse the scan selects nothing, and from it on the flag is up. */
  lemma SelectionHead(vs: seq<Verse>, s: nat, r: Range)
    requires Ordered(vs)
    requires s < |vs| && IsStart(vs[s], r)
    ensures Scan(vs, false, r) == Scan(vs[s..], true, r)
  {
    assert vs == vs[..s] + vs[s..];
    forall i | 0 <= i < s ensures !IsStart(vs[..s][i], r) {
      assert Before(vs[i], vs[s]);
    }
    ScanSkipsPrefix(vs[..s], vs[s..], r);
    var ws := vs[s..];
    assert ws == [ws[0]] + ws[1..];
    ScanCons(ws[0], ws[1..], false, r);
    ScanCons(ws[0], ws[1..], true, r);
  }

  /** What the scan selects from the first verse after the end on. */
  lemma SelectionTail(vs: seq<Verse>, s: nat, e: nat, r: Range)
    requires Ordered(vs)
    requires s < |vs| && IsStart(vs[s], r)
    requires s <= e <= |vs|
    requires e < |vs| ==> !NotAfterEnd(vs[e], r)
    ensures Scan(vs[e..], true, r) == (if e < |vs| && vs[e].chapter > r.endCh then [EntryOf(vs[e])] else [])
  {
    var tail := vs[e..];
    if tail != [] {
      assert tail == [vs[e]] + vs[e + 1..];
      if vs[e].chapter > r.endCh {
        ScanBeyondEndChapter(vs[e], vs[e + 1..], true, r);
      } else {
        ScanPastEnd(vs[e], vs[e + 1..], true, r);
        var later := vs[e + 1..];
        forall i | 0 <= i < |later| ensures !IsStart(later[i], r) {
          assert later[i] == vs[e + 1 + i];
          assert Before(vs[s], vs[e + 1 + i]);
        }
        ScanWithoutStart(later, r);
      }
    }
  }

  /** While the verses stay at or before the end, each is selected and the flag stays up. */
  lemma {:induction false} InRangeRun(ws: seq<Verse>, n: nat, r: Range)
    requires n <= |ws|
    requires forall i :: 0 <= i < n ==> NotAfterEnd(ws[i], r)
    ensures Scan(ws, true, r) == Entries(ws[..n]) + Scan(ws[n..], true, r)
    decreases n
  {
    if n > 0 {
      var v, rest := ws[0], ws[1..];
      assert ws == [v] + rest;
      KeptInRange(v, rest, r);
      InRangeRun(rest, n - 1, r);
      assert rest[..n - 1] == ws[1..n];
      assert rest[n - 1..] == ws[n..];
      EntriesCons(ws, n);
      var a, b := Entries(ws[1..n]), Scan(ws[n..], true, r);
      assert [EntryOf(v)] + (a + b) == ([EntryOf(v)] + a) + b;
    }
  }

  /** A verse at or before the end, met with the flag up, is kept and the flag stays up. */
  lemma KeptInRange(v: Verse, rest: seq<Verse>, r: Range)
    requires NotAfterEnd(v, r)
    ensures Scan([v] + rest, true, r) == [EntryOf(v)] + Scan(rest, true, r)
  {
    ScanCons(v, rest, true, r);
  }

  lemma EntriesCons(ws: seq<Verse>, n: nat)
    requires 0 < n <= |ws|
    ensures Entries(ws[..n]) == [EntryOf(ws[0])] + Entries(ws[1..n])
  {
    assert Entries(ws[..n])[1..] == Entries(ws[1..n]);
  }

  // ---------------------------------------------------------------- the range taken inclusively

  /**
   * Genesis 1:30 to 1:31 in a file with 1:30, 1:31 and 2:1: the flag is still up when 2:1 is met
   * (only a verse of the end chapter lowers it), so 2:1 is selected before the scan stops.
   */
  lemma LastVerseBringsNextChapter(c1: string, c2: string, c3: string)
    ensures var vs := [Verse("창세기 1:30", 1, 30, c1), Verse("창세기 1:31", 1, 31, c2), Verse("창세기 2:1", 2, 1, c3)];
            Scan(vs, false, Range(1, 30, 1, 31))
            == [BibleEntry("창세기 1:30", c1), BibleEntry("창세기 1:31", c2), BibleEntry("창세기 2:1", c3)]
  {
    var vs := [Verse("창세기 1:30", 1, 30, c1), Verse("창세기 1:31", 1, 31, c2), Verse("창세기 2:1", 2, 1, c3)];
    var r := Range(1, 30, 1, 31);
    ScanCons(vs[0], vs[1..], false, r);
    ScanCons(vs[1], vs[2..], true, r);
    ScanCons(vs[2], [], true, r);
    assert vs == [vs[0]] + vs[1..] && vs[1..] == [vs[1]] + vs[2..] && vs[2..] == [vs[2]] + [];
  }

  /**
   * The selection loop with the chapter check made before the verse is kept: a verse of a later
   * chapter than the end stops the scan without being selected.
   */
  function InclusiveScan(vs: seq<Verse>, inRange: bool, r: Range): seq<BibleEntry>
    decreases |vs|
  {
    if vs == [] then []
    else
      var v := vs[0];
      var stillIn := (inRange || IsStart(v, r)) && !IsPastEnd(v, r);
      if v.chapter > r.endCh && stillIn then []
      else (if stillIn then [EntryOf(v)] else []) + InclusiveScan(vs[1..], stillIn, r)
  }

  lemma InclusiveScanCons(v: Verse, rest: seq<Verse>, inRange: bool, r: Range)
    ensures var stillIn := (inRange || IsStart(v, r)) && !IsPastEnd(v, r);
            InclusiveScan([v] + rest, inRange, r)
            == if v.chapter > r.endCh && stillIn then []
               else (if stillIn then [EntryOf(v)] else []) + InclusiveScan(rest, stillIn, r)
  {
    assert ([v] + rest)[1..] == rest;
  }

  /** The same Genesis file and range: the corrected scan selects 1:30 and 1:31 only. */
  lemma InclusiveLastVerse(c1: string, c2: string, c3: string)
    ensures var vs := [Verse("창세기 1:30", 1, 30, c1), Verse("창세기 1:31", 1, 31, c2), Verse("창세기 2:1", 2, 1, c3)];
            InclusiveScan(vs, false, Range(1, 30, 1, 31))
            == [BibleEntry("창세기 1:30", c1), BibleEntry("창세기 1:31", c2)]
  {
    var vs := [Verse("창세기 1:30", 1, 30, c1), Verse("창세기 1:31", 1, 31, c2), Verse("창세기 2:1", 2, 1, c3)];
    var r := Range(1, 30, 1, 31);
    InclusiveScanCons(vs[0], vs[1..], false, r);
    InclusiveScanCons(vs[1], vs[2..], true, r);
    InclusiveScanCons(vs[2], [], true, r);
    assert vs == [vs[0]] + vs[1..] && vs[1..] == [vs[1]] + vs[2..] && vs[2..] == [vs[2]] + [];
  }

  /**
   * In a file whose verses are in increasing order, with the start verse at `s` not after the end
   * and `e` the first position after `s` whose verse is after the end, the corrected selection is
   * exactly the verses `s .. e - 1`: the range from the start verse to the end verse, inclusive.
   */
  lemma InclusiveOrderedSelection(vs: seq<Verse>, s: nat, e: nat, r: Range)
    requires Ordered(vs)
    requires s < |vs| && IsStart(vs[s], r) && NotAfterEnd(vs[s], r)
    requires s <= e <= |vs|
    requires forall i :: s <= i < e ==> NotAfterEnd(vs[i], r)
    requires e < |vs| ==> !NotAfterEnd(vs[e], r)
    ensures InclusiveScan(vs, false, r) == Entries(vs[s..e])
  {
    InclusiveHead(vs, s, r);
    var ws := vs[s..];
    forall i | 0 <= i < e - s ensures NotAfterEnd(ws[i], r) {
      assert ws[i] == vs[s + i];
    }
    InclusiveInRangeRun(ws, e - s, r);
    assert ws[..e - s] == vs[s..e];
    assert ws[e - s..] == vs[e..];
    InclusiveTail(vs, s, e, r);
    assert Entries(vs[s..e]) + [] == Entries(vs[s..e]);
  }

  /** Up to the start verse the corrected scan selects nothing, and from it on the flag is up. */
  lemma InclusiveHead(vs: seq<Verse>, s: nat, r: Range)
    requires Ordered(vs)
    requires s < |vs| && IsStart(vs[s], r)
    ensures InclusiveScan(vs, false, r) == InclusiveScan(vs[s..], true, r)
  {
    assert vs == vs[..s] + vs[s..];
    forall i | 0 <= i < s ensures !IsStart(vs[..s][i], r) {
      assert Before(vs[i], vs[s]);
    }
    InclusiveSkipsPrefix(vs[..s], vs[s..], r);
    var ws := vs[s..];
    assert ws == [ws[0]] + ws[1..];
    InclusiveScanCons(ws[0], ws[1..], false, r);
    InclusiveScanCons(ws[0], ws[1..], true, r);
  }

  /** From the first verse after the end on, the corrected scan selects nothing. */
  lemma InclusiveTail(vs: seq<Verse>, s: nat, e: nat, r: Range)
    requires Ordered(vs)
    requires s < |vs| && IsStart(vs[s], r)
    requires s <= e <= |vs|
    requires e < |vs| ==> !NotAfterEnd(vs[e], r)
    ensures InclusiveScan(vs[e..], true, r) == []
  {
    var tail := vs[e..];
    if tail != [] {
      assert tail == [vs[e]] + vs[e + 1..];
      InclusiveScanCons(vs[e], vs[e + 1..], true, r);
      if vs[e].chapter <= r.endCh {
        var later := vs[e + 1..];
        forall i | 0 <= i < |later| ensures !IsStart(later[i], r) {
          assert later[i] == vs[e + 1 + i];
          assert Before(vs[s], vs[e + 1 + i]);
        }
        InclusiveWithoutStart(later, r);
      }
    }
  }

  lemma {:induction false} InclusiveWithoutStart(vs: seq<Verse>, r: Range)
    requires forall i :: 0 <= i < |vs| ==> !IsStart(vs[i], r)
    ensures InclusiveScan(vs, false, r) == []
    decreases |vs|
  {
    if vs != [] {
      InclusiveWithoutStart(vs[1..], r);
    }
  }

  lemma {:induction false} InclusiveSkipsPrefix(pre: seq<Verse>, rest: seq<Verse>, r: Range)
    requires forall i :: 0 <= i < |pre| ==> !IsStart(pre[i], r)
    ensures InclusiveScan(pre + rest, false, r) == InclusiveScan(rest, false, r)
    decreases |pre|
  {
    if pre != [] {
      assert pre + rest == [pre[0]] + (pre[1..] + rest);
      InclusiveScanCons(pre[0], pre[1..] + rest, false, r);
      assert forall i :: 0 <= i < |pre| - 1 ==> pre[1..][i] == pre[i + 1];
      InclusiveSkipsPrefix(pre[1..], rest, r);
    } else {
      assert pre + rest == rest;
    }
  }

  /** A verse at or before the end, met with the flag up, is kept by the corrected scan too. */
  lemma InclusiveKept(v: Verse, rest: seq<Verse>, r: Range)
    requires NotAfterEnd(v, r)
    ensures InclusiveScan([v] + rest, true, r) == [EntryOf(v)] + InclusiveScan(rest, true, r)
  {
    InclusiveScanCons(v, rest, true, r);
  }

  lemma {:induction false} InclusiveInRangeRun(ws: seq<Verse>, n: nat, r: Range)
    requires n <= |ws|
    requires forall i :: 0 <= i < n ==> NotAfterEnd(ws[i], r)
    ensures InclusiveScan(ws, true, r) == Entries(ws[..n]) + InclusiveScan(ws[n..], true, r)
    decreases n
  {
    if n > 0 {
      var v, rest := ws[0], ws[1..];
      assert ws == [v] + rest;
      InclusiveKept(v, rest, r);
      InclusiveInRangeRun(rest, n - 1, r);
      assert rest[..n - 1] == ws[1..n];
      assert rest[n - 1..] == ws[n..];
      EntriesCons(ws, n);
      var a, b := Entries(ws[1..n]), InclusiveScan(ws[n..], true, r);
      assert [EntryOf(v)] + (a + b) == ([EntryOf(v)] + a) + b;
    }
  }

  // ---------------------------------------------------------------- outcomes of get_bible_contents

  /** A book missing from the file map is refused before any file is looked at. */
  lemma UnknownBookRefused(fileMap: map<string, string>, book: string, r: Range, dir: string,
                           files: map<string, seq<string>>, otherFiles: map<string, seq<string>>)
    requires book !in fileMap
    ensures BibleContents(fileMap, book, r, dir, files) == Err(UnknownBook(UnknownBookMessage(book)))
    ensures BibleContents(fileMap, book, r, dir, otherFiles) == BibleContents(fileMap, book, r, dir, files)
  {
  }

  /** A mapped book whose file is absent raises the file-not-found error naming the file's path. */
  lemma MissingFileRefused(fileMap: map<string, string>, book: string, r: Range, dir: string,
                           files: map<string, seq<string>>)
    requires book in fileMap && fileMap[book] !in files
    ensures BibleContents(fileMap, book, r, dir, files)
            == Err(FileNotFound(FileNotFoundMessage(dir + "/" + fileMap[book])))
  {
  }

  /** A start verse that is not in the file, or a start after the end within one chapter, is an error. */
  lemma RangeNotFoundOutcomes(fileMap: map<string, string>, book: string, r: Range, dir: string,
                              files: map<string, seq<string>>)
    requires book in fileMap && fileMap[book] in files
    requires (forall i :: 0 <= i < |FileVerses(fileMap, book, files)| ==> !IsStart(FileVerses(fileMap, book, files)[i], r))
             || (r.beginCh == r.endCh && r.beginVerse > r.endVerse)
    ensures BibleContents(fileMap, book, r, dir, files) == Err(RangeNotFound(RangeNotFoundMessage(book, r)))
  {
    NothingSelected(FileVerses(fileMap, book, files), r);
  }

  lemma NothingSelected(vs: seq<Verse>, r: Range)
    requires (forall i :: 0 <= i < |vs| ==> !IsStart(vs[i], r))
             || (r.beginCh == r.endCh && r.beginVerse > r.endVerse)
    ensures Scan(vs, false, r) == []
  {
    if r.beginCh == r.endCh && r.beginVerse > r.endVerse {
      ScanStartAfterEnd(vs, false, r);
    } else {
      ScanWithoutStart(vs, r);
    }
  }
}
