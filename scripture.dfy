/**
 * The sermon-scripture parse of core/tasks.py: the reference "책이름 장:절 - 장:절" (or
 * "책이름 장:절") is matched by one regular expression, and its groups give the start book, the
 * start chapter and verse, and the end chapter and verse.
 *
 * The expression is modelled by a small backtracking matcher with Python's search order. A
 * pattern is a sequence of tokens; every character-class repetition tries its counts greedily
 * (most first) or lazily (fewest first), an optional group is tried before it is skipped, and the
 * first complete match in that order wins.
 */
module Scripture {
  import opened Base
  import opened Text

  // ---------------------------------------------------------------- patterns

  /** The character classes the expression uses. */
  datatype CharClass =
    | AnyChar   // `.`: every character but '\n'
    | Space     // `\s`
    | Digit     // `\d`, ASCII digits only
    | NonDigit  // `[^\d\n]`, used by the corrected expression

  predicate InClass(cls: CharClass, c: char) {
    match cls
    case AnyChar => c != '\n'
    case Space => IsSpace(c)
    case Digit => IsDigit(c)
    case NonDigit => c != '\n' && !IsDigit(c)
  }

  /**
   * One element of a pattern. `Run(cls, min, greedy, group)` is `cls{min,}` (greedy) or
   * `cls{min,}?` (lazy), captured as `group` when that is given; `Optional(body)` is the greedy
   * `(?:body)?`.
   */
  datatype Token =
    | Begin
    | End
    | Char(c: char)
    | Run(cls: CharClass, min: nat, greedy: bool, group: Option<nat>)
    | Optional(body: seq<Token>)

  /** The captured text of each group that took part in the match. */
  type Captures = map<nat, string>

  function TokenSize(t: Token): nat
    decreases t, 1
  {
    match t
    case Optional(body) => 1 + Size(body)
    case _ => 1
  }

  function Size(toks: seq<Token>): nat
    decreases toks, 0
  {
    if toks == [] then 0 else TokenSize(toks[0]) + Size(toks[1..])
  }

  lemma {:induction false} SizeAppend(a: seq<Token>, b: seq<Token>)
    ensures Size(a + b) == Size(a) + Size(b)
    decreases |a|
  {
    if a == [] {
      assert a + b == b;
    } else {
      assert (a + b)[0] == a[0] && (a + b)[1..] == a[1..] + b;
      SizeAppend(a[1..], b);
    }
  }

  /** Number of consecutive characters of class `cls` from `i` on. */
  function ClassRun(cls: CharClass, s: string, i: nat): (n: nat)
    requires i <= |s|
    ensures i + n <= |s|
    ensures forall j :: i <= j < i + n ==> InClass(cls, s[j])
    ensures i + n < |s| ==> !InClass(cls, s[i + n])
    decreases |s| - i
  {
    if i < |s| && InClass(cls, s[i]) then 1 + ClassRun(cls, s, i + 1) else 0
  }

  lemma {:induction false} ClassRunExact(cls: CharClass, s: string, i: nat, n: nat)
    requires i + n <= |s|
    requires forall j :: i <= j < i + n ==> InClass(cls, s[j])
    requires i + n < |s| ==> !InClass(cls, s[i + n])
    ensures ClassRun(cls, s, i) == n
    decreases n
  {
    if n > 0 {
      ClassRunExact(cls, s, i + 1, n - 1);
    }
  }

  function Record(caps: Captures, group: Option<nat>, text: string): Captures {
    if group.Some? then caps[group.value := text] else caps
  }

  // ---------------------------------------------------------------- invariants of the matcher

  /** The groups converted with `int(...)`. */
  const DigitGroups: set<nat> := {2, 3, 5, 6}

  /** Every captured repetition matches at least one character, and each digit group captures `\d`. */
  predicate TokenTagged(t: Token)
    decreases t, 1
  {
    match t
    case Run(cls, min, _, group) => group.Some? ==> min >= 1 && (group.value in DigitGroups ==> cls == Digit)
    case Optional(body) => Tagged(body)
    case _ => true
  }

  predicate Tagged(toks: seq<Token>)
    decreases toks, 0
  {
    forall j :: 0 <= j < |toks| ==> TokenTagged(toks[j])
  }

  lemma TaggedAppend(a: seq<Token>, b: seq<Token>)
    requires Tagged(a) && Tagged(b)
    ensures Tagged(a + b)
  {
    forall j | 0 <= j < |a + b|
      ensures TokenTagged((a + b)[j])
    {
      if j >= |a| {
        assert (a + b)[j] == b[j - |a|];
      }
    }
  }

  /** The groups outside every optional part: each match sets them. */
  function TopGroups(toks: seq<Token>): set<nat> {
    if toks == [] then {}
    else (if toks[0].Run? && toks[0].group.Some? then {toks[0].group.value} else {}) + TopGroups(toks[1..])
  }

  lemma {:induction false} TopGroupsAppend(a: seq<Token>, b: seq<Token>)
    ensures TopGroups(b) <= TopGroups(a + b)
    decreases |a|
  {
    if a == [] {
      assert a + b == b;
    } else {
      assert (a + b)[0] == a[0] && (a + b)[1..] == a[1..] + b;
      TopGroupsAppend(a[1..], b);
    }
  }

  /** No group is empty and every digit group holds digits only, so `int(...)` accepts it. */
  predicate GoodCaptures(caps: Captures) {
    forall n :: n in caps ==> caps[n] != [] && (n in DigitGroups ==> AllDigits(caps[n]))
  }

  predicate RunTagged(cls: CharClass, lo: nat, group: Option<nat>) {
    group.Some? ==> lo >= 1 && (group.value in DigitGroups ==> cls == Digit)
  }

  function GroupKeys(group: Option<nat>): set<nat> {
    if group.Some? then {group.value} else {}
  }

  // ---------------------------------------------------------------- the matcher

  /**
   * The first match of `toks` from position `i`, in backtracking order, as the captures it
   * leaves; `None` when no way of matching succeeds.
   */
  function First(toks: seq<Token>, s: string, i: nat, caps: Captures): Option<Captures>
    requires i <= |s|
    decreases Size(toks), |s| + 2
  {
    if toks == [] then Some(caps)
    else
      var rest := toks[1..];
      assert Size(toks) == TokenSize(toks[0]) + Size(rest);
      match toks[0]
      case Begin => if i == 0 then First(rest, s, i, caps) else None
      case End => if i == |s| || (i + 1 == |s| && s[i] == '\n') then First(rest, s, i, caps) else None
      case Char(c) => if i < |s| && s[i] == c then First(rest, s, i + 1, caps) else None
      case Run(cls, min, greedy, group) =>
        var m := ClassRun(cls, s, i);
        if m < min then None
        else if greedy then TryDown(rest, s, i, caps, group, min, m)
        else TryUp(rest, s, i, caps, group, min, m)
      case Optional(body) =>
        SizeAppend(body, rest);
        var taken := First(body + rest, s, i, caps);
        if taken.Some? then taken else First(rest, s, i, caps)
  }

  /** A greedy repetition: `k` characters, then `k - 1`, ..., down to `lo`. */
  function TryDown(rest: seq<Token>, s: string, i: nat, caps: Captures, group: Option<nat>, lo: nat, k: nat)
    : Option<Captures>
    requires i + k <= |s| && lo <= k
    decreases 1 + Size(rest), k + 1
  {
    var r := First(rest, s, i + k, Record(caps, group, s[i..i + k]));
    if r.Some? || k == lo then r else TryDown(rest, s, i, caps, group, lo, k - 1)
  }

  /** A lazy repetition: `k` characters, then `k + 1`, ..., up to `hi`. */
  function TryUp(rest: seq<Token>, s: string, i: nat, caps: Captures, group: Option<nat>, k: nat, hi: nat)
    : Option<Captures>
    requires i + hi <= |s| && k <= hi
    decreases 1 + Size(rest), hi - k + 1
  {
    var r := First(rest, s, i + k, Record(caps, group, s[i..i + k]));
    if r.Some? || k == hi then r else TryUp(rest, s, i, caps, group, k + 1, hi)
  }

  /**
   * A match of a tagged pattern sets every group outside the optional parts, keeps the groups
   * set before, and leaves no group empty and only digits in the digit groups.
   */
  lemma FirstSound(toks: seq<Token>, s: string, i: nat, caps: Captures)
    requires i <= |s| && Tagged(toks) && GoodCaptures(caps)
    ensures var r := First(toks, s, i, caps);
            r.Some? ==> GoodCaptures(r.value) && caps.Keys <= r.value.Keys && TopGroups(toks) <= r.value.Keys
    decreases Size(toks), |s| + 2
  {
    if toks != [] {
      var rest := toks[1..];
      assert Size(toks) == TokenSize(toks[0]) + Size(rest);
      assert Tagged(rest) && TokenTagged(toks[0]) by {
        assert forall j :: 0 <= j < |rest| ==> rest[j] == toks[j + 1];
      }
      match toks[0]
      case Begin => if i == 0 { FirstSound(rest, s, i, caps); }
      case End => if i == |s| || (i + 1 == |s| && s[i] == '\n') { FirstSound(rest, s, i, caps); }
      case Char(c) => if i < |s| && s[i] == c { FirstSound(rest, s, i + 1, caps); }
      case Run(cls, min, greedy, group) =>
        var m := ClassRun(cls, s, i);
        if m >= min {
          if greedy {
            TryDownSound(rest, s, i, caps, cls, group, min, m);
          } else {
            TryUpSound(rest, s, i, caps, cls, group, min, m);
          }
        }
      case Optional(body) =>
        SizeAppend(body, rest);
        TaggedAppend(body, rest);
        TopGroupsAppend(body, rest);
        FirstSound(body + rest, s, i, caps);
        FirstSound(rest, s, i, caps);
    }
  }

  lemma TryDownSound(rest: seq<Token>, s: string, i: nat, caps: Captures, cls: CharClass, group: Option<nat>,
                     lo: nat, k: nat)
    requires i + k <= |s| && lo <= k
    requires forall j :: i <= j < i + k ==> InClass(cls, s[j])
    requires Tagged(rest) && GoodCaptures(caps) && RunTagged(cls, lo, group)
    ensures var r := TryDown(rest, s, i, caps, group, lo, k);
            r.Some? ==> GoodCaptures(r.value) && caps.Keys + GroupKeys(group) <= r.value.Keys
                        && TopGroups(rest) <= r.value.Keys
    decreases 1 + Size(rest), k + 1
  {
    RecordGood(caps, group, cls, lo, s, i, k);
    FirstSound(rest, s, i + k, Record(caps, group, s[i..i + k]));
    if k > lo {
      TryDownSound(rest, s, i, caps, cls, group, lo, k - 1);
    }
  }

  lemma TryUpSound(rest: seq<Token>, s: string, i: nat, caps: Captures, cls: CharClass, group: Option<nat>,
                   k: nat, hi: nat)
    requires i + hi <= |s| && k <= hi
    requires forall j :: i <= j < i + hi ==> InClass(cls, s[j])
    requires Tagged(rest) && GoodCaptures(caps) && RunTagged(cls, k, group)
    ensures var r := TryUp(rest, s, i, caps, group, k, hi);
            r.Some? ==> GoodCaptures(r.value) && caps.Keys + GroupKeys(group) <= r.value.Keys
                        && TopGroups(rest) <= r.value.Keys
    decreases 1 + Size(rest), hi - k + 1
  {
    RecordGood(caps, group, cls, k, s, i, k);
    FirstSound(rest, s, i + k, Record(caps, group, s[i..i + k]));
    if k < hi {
      TryUpSound(rest, s, i, caps, cls, group, k + 1, hi);
    }
  }

  lemma RecordGood(caps: Captures, group: Option<nat>, cls: CharClass, lo: nat, s: string, i: nat, k: nat)
    requires GoodCaptures(caps) && RunTagged(cls, lo, group) && lo <= k && i + k <= |s|
    requires forall j :: i <= j < i + k ==> InClass(cls, s[j])
    ensures GoodCaptures(Record(caps, group, s[i..i + k]))
  {
    if group.Some? && group.value in DigitGroups {
      var t := s[i..i + k];
      assert forall j :: 0 <= j < |t| ==> t[j] == s[i + j];
    }
  }

  // ---------------------------------------------------------------- the expression at core/tasks.py:181

  const Ws: Token := Run(Space, 0, true, None)

  /** `(?:(g4)\s*)`: the optional end book. */
  function EndBookPart(g4: CharClass): seq<Token> {
    [Run(g4, 1, false, Some(4)), Ws]
  }

  /** `-\s*(?:(g4)\s*)?(\d+):(\d+)`: the range end. */
  function RangeTail(g4: CharClass): seq<Token> {
    [Char('-'), Ws, Optional(EndBookPart(g4)), Run(Digit, 1, true, Some(5)), Char(':'), Run(Digit, 1, true, Some(6))]
  }

  /** `^\s*(.+?)\s*(\d+):(\d+)\s*(?:-\s*(?:(g4)\s*)?(\d+):(\d+))?\s*$` for a class `g4` of group 4. */
  function Pattern(g4: CharClass): seq<Token> {
    [Begin, Ws, Run(AnyChar, 1, false, Some(1)), Ws, Run(Digit, 1, true, Some(2)), Char(':'),
     Run(Digit, 1, true, Some(3)), Ws, Optional(RangeTail(g4)), Ws, End]
  }

  /** The expression as written: the end book is `(.+?)`. */
  function AsWrittenPattern(): seq<Token> {
    Pattern(AnyChar)
  }

  /** The expression with an end book that cannot take the end chapter's digits. */
  function CorrectedPattern(): seq<Token> {
    Pattern(NonDigit)
  }

  lemma PatternShape(g4: CharClass)
    ensures Tagged(Pattern(g4))
    ensures {1, 2, 3} <= TopGroups(Pattern(g4))
  {
    var p := Pattern(g4);
    var e := EndBookPart(g4);
    var t := RangeTail(g4);
    assert Tagged(e);
    assert TokenTagged(t[2]);
    assert Tagged(t);
    assert TokenTagged(p[8]);
    assert Tagged(p);
    assert TopGroups(p[6..]) >= {3} by {
      assert p[6..][1..] == p[7..];
    }
    assert TopGroups(p[4..]) >= {2, 3} by {
      assert p[4..][1..] == p[5..] && p[5..][1..] == p[6..];
    }
    assert TopGroups(p[2..]) >= {1, 2, 3} by {
      assert p[2..][1..] == p[3..] && p[3..][1..] == p[4..];
    }
    assert TopGroups(p) >= {1, 2, 3} by {
      assert p[1..][1..] == p[2..];
    }
  }

  // ---------------------------------------------------------------- the reference

  /** What the groups give: the stripped start book, the numbers, and the end book (not used). */
  datatype ScriptureRef = ScriptureRef(startBook: string, startCh: nat, startVerse: nat,
                                       endBook: Option<string>, endCh: nat, endVerse: nat)

  /**
   * The group conversions: group 1 stripped, `int` of groups 2 and 3, group 4 as it is, and
   * groups 5 and 6 when they are set, the start chapter and verse otherwise.
   */
  function Groups(caps: Captures): (r: ScriptureRef)
    requires GoodCaptures(caps) && {1, 2, 3} <= caps.Keys
    ensures r.endBook.Some? <==> 4 in caps
    ensures 5 !in caps ==> r.endCh == r.startCh
    ensures 6 !in caps ==> r.endVerse == r.startVerse
  {
    var startCh := DecimalValue(caps[2]);
    var startVerse := DecimalValue(caps[3]);
    ScriptureRef(Strip(caps[1]), startCh, startVerse,
                 if 4 in caps then Some(caps[4]) else None,
                 if 5 in caps && caps[5] != [] then DecimalValue(caps[5]) else startCh,
                 if 6 in caps && caps[6] != [] then DecimalValue(caps[6]) else startVerse)
  }

  /** `pattern.match(scripture)` with the expression for group class `g4`, then the conversions. */
  function ParseWith(g4: CharClass, scripture: string): Option<ScriptureRef> {
    PatternShape(g4);
    FirstSound(Pattern(g4), scripture, 0, map[]);
    match First(Pattern(g4), scripture, 0, map[])
    case None => None
    case Some(caps) => Some(Groups(caps))
  }

  function ParseAsWritten(scripture: string): Option<ScriptureRef> {
    ParseWith(AnyChar, scripture)
  }

  /** The parse under the corrected expression, whose end book cannot start with a digit. */
  function ParseCorrected(scripture: string): Option<ScriptureRef> {
    ParseWith(NonDigit, scripture)
  }

  // ---------------------------------------------------------------- one step of the matcher

  lemma BeginStep(toks: seq<Token>, s: string, caps: Captures)
    requires toks != [] && toks[0] == Begin
    ensures First(toks, s, 0, caps) == First(toks[1..], s, 0, caps)
  {
  }

  lemma EndStep(toks: seq<Token>, s: string, caps: Captures)
    requires toks != [] && toks[0] == End
    ensures First(toks, s, |s|, caps) == First(toks[1..], s, |s|, caps)
  {
  }

  lemma CharStep(toks: seq<Token>, s: string, i: nat, caps: Captures)
    requires toks != [] && toks[0].Char? && i < |s| && s[i] == toks[0].c
    ensures First(toks, s, i, caps) == First(toks[1..], s, i + 1, caps)
  {
  }

  lemma CharFails(toks: seq<Token>, s: string, i: nat, caps: Captures)
    requires toks != [] && toks[0].Char? && i <= |s| && (i == |s| || s[i] != toks[0].c)
    ensures First(toks, s, i, caps) == None
  {
  }

  lemma OptionalStep(toks: seq<Token>, s: string, i: nat, caps: Captures)
    requires toks != [] && toks[0].Optional? && i <= |s|
    ensures var taken := First(toks[0].body + toks[1..], s, i, caps);
            First(toks, s, i, caps) == if taken.Some? then taken else First(toks[1..], s, i, caps)
  {
  }

  lemma RunFails(toks: seq<Token>, s: string, i: nat, caps: Captures)
    requires toks != [] && toks[0].Run? && i <= |s| && ClassRun(toks[0].cls, s, i) < toks[0].min
    ensures First(toks, s, i, caps) == None
  {
  }

  /** A greedy repetition takes its longest run when the rest then matches (or the run is its minimum). */
  lemma GreedyStep(toks: seq<Token>, s: string, i: nat, caps: Captures, n: nat)
    requires toks != [] && toks[0].Run? && toks[0].greedy && i <= |s|
    requires ClassRun(toks[0].cls, s, i) == n && n >= toks[0].min
    requires n == toks[0].min || First(toks[1..], s, i + n, Record(caps, toks[0].group, s[i..i + n])).Some?
    ensures First(toks, s, i, caps) == First(toks[1..], s, i + n, Record(caps, toks[0].group, s[i..i + n]))
  {
  }

  /** A lazy repetition takes the shortest run after which the rest matches. */
  lemma LazyStep(toks: seq<Token>, s: string, i: nat, caps: Captures, k0: nat)
    requires toks != [] && toks[0].Run? && !toks[0].greedy && i <= |s|
    requires toks[0].min <= k0 <= ClassRun(toks[0].cls, s, i)
    requires forall p :: i + toks[0].min <= p < i + k0 ==>
               First(toks[1..], s, p, Record(caps, toks[0].group, s[i..p])) == None
    requires First(toks[1..], s, i + k0, Record(caps, toks[0].group, s[i..i + k0])).Some?
    ensures First(toks, s, i, caps) == First(toks[1..], s, i + k0, Record(caps, toks[0].group, s[i..i + k0]))
  {
    TryUpReaches(toks[1..], s, i, caps, toks[0].group, toks[0].min, ClassRun(toks[0].cls, s, i), k0);
  }

  lemma {:induction false} TryUpReaches(rest: seq<Token>, s: string, i: nat, caps: Captures, group: Option<nat>,
                                        k: nat, hi: nat, k0: nat)
    requires i + hi <= |s| && k <= k0 <= hi
    requires forall p :: i + k <= p < i + k0 ==> First(rest, s, p, Record(caps, group, s[i..p])) == None
    requires First(rest, s, i + k0, Record(caps, group, s[i..i + k0])).Some?
    ensures TryUp(rest, s, i, caps, group, k, hi) == First(rest, s, i + k0, Record(caps, group, s[i..i + k0]))
    decreases k0 - k
  {
    if k < k0 {
      assert First(rest, s, i + k, Record(caps, group, s[i..i + k])) == None;
      TryUpReaches(rest, s, i, caps, group, k + 1, hi, k0);
    }
  }

  lemma {:induction false} ClassRunAtLeast(cls: CharClass, s: string, i: nat, n: nat)
    requires i + n <= |s|
    requires forall j :: i <= j < i + n ==> InClass(cls, s[j])
    ensures ClassRun(cls, s, i) >= n
    decreases n
  {
    if n > 0 {
      ClassRunAtLeast(cls, s, i + 1, n - 1);
    }
  }

  /** Optional white space followed by digits cannot start at a character that is neither. */
  lemma NoDigitAhead(toks: seq<Token>, s: string, p: nat, caps: Captures)
    requires |toks| >= 2 && toks[0] == Ws && toks[1].Run? && toks[1].cls == Digit && toks[1].min == 1
    requires p < |s| && !IsSpace(s[p]) && !IsDigit(s[p])
    ensures First(toks, s, p, caps) == None
  {
    ClassRunExact(Space, s, p, 0);
    GreedyStep(toks, s, p, caps, 0);
    assert s[p..p] == [];
    ClassRunExact(Digit, s, p, 0);
    RunFails(toks[1..], s, p, caps);
  }

  /**
   * Two digit groups around a colon: each takes its whole run of digits when the rest then
   * matches.
   */
  lemma DigitsColonDigits(toks: seq<Token>, s: string, i: nat, caps: Captures, ga: nat, gb: nat,
                          x: string, y: string)
    requires |toks| >= 3 && toks[0] == Run(Digit, 1, true, Some(ga)) && toks[1] == Char(':')
    requires toks[2] == Run(Digit, 1, true, Some(gb))
    requires x != [] && y != [] && AllDigits(x) && AllDigits(y)
    requires i + |x| + 1 + |y| <= |s| && s[i..i + |x| + 1 + |y|] == x + ":" + y
    requires i + |x| + 1 + |y| < |s| ==> !IsDigit(s[i + |x| + 1 + |y|])
    requires First(toks[3..], s, i + |x| + 1 + |y|, caps[ga := x][gb := y]).Some?
    ensures First(toks, s, i, caps) == First(toks[3..], s, i + |x| + 1 + |y|, caps[ga := x][gb := y])
  {
    var j := i + |x| + 1;
    var e := j + |y|;
    ColonPieces(s, i, x, y);
    ClassRunExact(Digit, s, j, |y|);
    assert toks[2..][1..] == toks[3..];
    GreedyStep(toks[2..], s, j, caps[ga := x], |y|);
    assert toks[1..][1..] == toks[2..];
    CharStep(toks[1..], s, i + |x|, caps[ga := x]);
    ClassRunExact(Digit, s, i, |x|);
    GreedyStep(toks, s, i, caps, |x|);
  }

  lemma ColonPieces(s: string, i: nat, x: string, y: string)
    requires AllDigits(x) && AllDigits(y)
    requires i + |x| + 1 + |y| <= |s| && s[i..i + |x| + 1 + |y|] == x + ":" + y
    ensures s[i..i + |x|] == x && s[i + |x|] == ':' && s[i + |x| + 1..i + |x| + 1 + |y|] == y
    ensures forall k :: i <= k < i + |x| ==> IsDigit(s[k])
    ensures forall k :: i + |x| + 1 <= k < i + |x| + 1 + |y| ==> IsDigit(s[k])
  {
    var w := s[i..i + |x| + 1 + |y|];
    assert forall k :: i <= k < i + |x| ==> s[k] == w[k - i] == x[k - i];
    assert s[i + |x|] == w[|x|];
    assert forall k :: i + |x| + 1 <= k < i + |x| + 1 + |y| ==> s[k] == w[k - i] == y[k - i - |x| - 1];
  }

  /** White space of known length, then the rest. */
  lemma SpaceStep(toks: seq<Token>, s: string, i: nat, caps: Captures, n: nat)
    requires toks != [] && toks[0] == Ws && i + n <= |s|
    requires forall j :: i <= j < i + n ==> IsSpace(s[j])
    requires i + n < |s| ==> !IsSpace(s[i + n])
    requires n == 0 || First(toks[1..], s, i + n, caps).Some?
    ensures First(toks, s, i, caps) == First(toks[1..], s, i + n, caps)
  {
    ClassRunExact(Space, s, i, n);
    GreedyStep(toks, s, i, caps, n);
  }

  /** `\s*$` matches at the end of the string. */
  lemma FinishAtEnd(toks: seq<Token>, s: string, caps: Captures)
    requires toks == [Ws, End]
    ensures First(toks, s, |s|, caps) == Some(caps)
  {
    SpaceStep(toks, s, |s|, caps, 0);
    EndStep(toks[1..], s, caps);
  }

  // ---------------------------------------------------------------- references that match

  /** A book name as the form gives it: no white space, no digit. */
  predicate BookName(b: string) {
    b != [] && forall j :: 0 <= j < |b| ==> !IsSpace(b[j]) && !IsDigit(b[j]) && b[j] != '\n'
  }

  predicate Numeral(x: string) {
    x != [] && AllDigits(x)
  }

  /** The head `^\s*(.+?)\s*(\d+):(\d+)` of both expressions. */
  predicate HeadTokens(toks: seq<Token>) {
    |toks| >= 7 && toks[0] == Begin && toks[1] == Ws && toks[2] == Run(AnyChar, 1, false, Some(1))
    && toks[3] == Ws && toks[4] == Run(Digit, 1, true, Some(2)) && toks[5] == Char(':')
    && toks[6] == Run(Digit, 1, true, Some(3))
  }

  /** The head over "b cs:vs": the book is the lazy group up to the space. */
  lemma HeadMatch(toks: seq<Token>, s: string, b: string, cs: string, vs: string, result: Option<Captures>)
    requires HeadTokens(toks)
    requires BookName(b) && Numeral(cs) && Numeral(vs)
    requires |b| + 2 + |cs| + |vs| <= |s|
    requires s[..|b|] == b && s[|b|] == ' ' && s[|b| + 1..|b| + 2 + |cs| + |vs|] == cs + ":" + vs
    requires |b| + 2 + |cs| + |vs| < |s| ==> !IsDigit(s[|b| + 2 + |cs| + |vs|])
    requires First(toks[7..], s, |b| + 2 + |cs| + |vs|, map[][1 := b][2 := cs][3 := vs]) == result
    requires result.Some?
    ensures First(toks, s, 0, map[]) == result
  {
    var c1 := map[][1 := b];
    var t4 := toks[4..];
    assert t4[3..] == toks[7..];
    DigitsColonDigits(t4, s, |b| + 1, c1, 2, 3, cs, vs);
    ColonPieces(s, |b| + 1, cs, vs);
    HeadBook(toks, s, b, c1, result);
  }

  /** The book group of the head, with what the rest of the head leaves from `|b| + 1`. */
  lemma HeadBook(toks: seq<Token>, s: string, b: string, c1: Captures, result: Option<Captures>)
    requires HeadTokens(toks) && BookName(b) && c1 == map[][1 := b]
    requires |b| + 1 < |s| && s[..|b|] == b && s[|b|] == ' ' && IsDigit(s[|b| + 1])
    requires First(toks[4..], s, |b| + 1, c1) == result && result.Some?
    ensures First(toks, s, 0, map[]) == result
  {
    var u := toks[2..];
    assert u[2..] == toks[4..];
    assert s[0..|b|] == b;
    LazyBook(u, s, 0, map[], 1, AnyChar, b, result);
    assert toks[1..][1..] == u;
    SpaceStep(toks[1..], s, 0, map[], 0);
    BeginStep(toks, s, map[]);
  }

  /**
   * `(.+?)\s*` (or its digit-free variant) before a digit run, over a book name, one space and
   * a digit: the lazy group stops at the end of the name.
   */
  lemma LazyBook(u: seq<Token>, s: string, i: nat, caps: Captures, g: nat, cls: CharClass, b: string,
                 result: Option<Captures>)
    requires |u| >= 3 && u[0] == Run(cls, 1, false, Some(g)) && u[1] == Ws
    requires u[2].Run? && u[2].cls == Digit && u[2].min == 1
    requires cls == AnyChar || cls == NonDigit
    requires BookName(b) && i + |b| + 1 < |s|
    requires s[i..i + |b|] == b && s[i + |b|] == ' ' && IsDigit(s[i + |b| + 1])
    requires First(u[2..], s, i + |b| + 1, caps[g := b]) == result && result.Some?
    ensures First(u, s, i, caps) == result
  {
    var e := i + |b|;
    assert forall j :: i <= j < e ==> s[j] == b[j - i];
    assert u[1..][1..] == u[2..];
    SpaceStep(u[1..], s, e, caps[g := b], 1);
    forall p | i + 1 <= p < e
      ensures First(u[1..], s, p, Record(caps, Some(g), s[i..p])) == None
    {
      NoDigitAhead(u[1..], s, p, Record(caps, Some(g), s[i..p]));
    }
    ClassRunAtLeast(cls, s, i, |b|);
    LazyStep(u, s, i, caps, |b|);
  }

  lemma HeadPieces(s: string, b: string, cs: string, vs: string)
    requires BookName(b) && Numeral(cs) && Numeral(vs)
    requires |b| + 2 + |cs| + |vs| <= |s|
    requires s[..|b| + 2 + |cs| + |vs|] == b + " " + cs + ":" + vs
    ensures s[..|b|] == b && s[|b|] == ' '
    ensures s[|b| + 1..|b| + 2 + |cs| + |vs|] == cs + ":" + vs
  {
    var w := s[..|b| + 2 + |cs| + |vs|];
    assert w[..|b|] == b;
    assert s[|b|] == w[|b|] == ' ';
    assert w[|b| + 1..] == cs + ":" + vs;
  }

  /** `(\d+):(\d+)\s*$` over the rest "ce:ve" of the string. */
  lemma EndChapterVerse(toks: seq<Token>, s: string, i: nat, caps: Captures, ce: string, ve: string)
    requires toks == [Run(Digit, 1, true, Some(5)), Char(':'), Run(Digit, 1, true, Some(6)), Ws, End]
    requires Numeral(ce) && Numeral(ve)
    requires i <= |s| && s[i..] == ce + ":" + ve
    ensures First(toks, s, i, caps) == Some(caps[5 := ce][6 := ve])
  {
    assert s[i..i + |ce| + 1 + |ve|] == s[i..];
    FinishAtEnd(toks[3..], s, caps[5 := ce][6 := ve]);
    DigitsColonDigits(toks, s, i, caps, 5, 6, ce, ve);
  }

  /** Nothing after the start verse: the optional range end is skipped. */
  lemma TailSingle(g4: CharClass, s: string, caps: Captures)
    ensures First(Pattern(g4)[7..], s, |s|, caps) == Some(caps)
  {
    var P := Pattern(g4);
    assert P[7..][1..] == P[8..];
    SpaceStep(P[7..], s, |s|, caps, 0);
    assert (RangeTail(g4) + P[9..])[0] == Char('-');
    CharFails(RangeTail(g4) + P[9..], s, |s|, caps);
    OptionalStep(P[8..], s, |s|, caps);
    FinishAtEnd(P[9..], s, caps);
  }

  /** The three characters " - " and then what the end book part leaves from `q + 3`. */
  lemma RangeFrame(g4: CharClass, s: string, q: nat, caps: Captures, result: Captures)
    requires q + 3 < |s| && s[q] == ' ' && s[q + 1] == '-' && s[q + 2] == ' ' && !IsSpace(s[q + 3])
    requires First((RangeTail(g4) + [Ws, End])[2..], s, q + 3, caps) == Some(result)
    ensures First(Pattern(g4)[7..], s, q, caps) == Some(result)
  {
    var P := Pattern(g4);
    var T := RangeTail(g4) + [Ws, End];
    assert T[1..][1..] == T[2..];
    SpaceStep(T[1..], s, q + 2, caps, 1);
    CharStep(T, s, q + 1, caps);
    assert P[8..][0].body + P[8..][1..] == T;
    OptionalStep(P[8..], s, q + 1, caps);
    assert P[7..][1..] == P[8..];
    SpaceStep(P[7..], s, q, caps, 1);
  }

  /** No end book: group 4 of the corrected expression cannot start on a digit, so it is skipped. */
  lemma EndWithoutBook(s: string, q: nat, caps: Captures, ce: string, ve: string)
    requires Numeral(ce) && Numeral(ve)
    requires q + 3 <= |s| && s[q + 3..] == ce + ":" + ve
    ensures First((RangeTail(NonDigit) + [Ws, End])[2..], s, q + 3, caps) == Some(caps[5 := ce][6 := ve])
  {
    var T := RangeTail(NonDigit) + [Ws, End];
    var U := T[2..][0].body + T[2..][1..];
    assert s[q + 3] == ce[0];
    ClassRunExact(NonDigit, s, q + 3, 0);
    RunFails(U, s, q + 3, caps);
    OptionalStep(T[2..], s, q + 3, caps);
    assert T[2..][1..] == T[3..];
    EndChapterVerse(T[3..], s, q + 3, caps, ce, ve);
  }

  /** No end book: group 4 of the expression as written takes the first digit of the end chapter. */
  lemma EndWithoutBookAsWritten(s: string, q: nat, caps: Captures, ce: string, ve: string)
    requires Numeral(ce) && Numeral(ve) && |ce| >= 2
    requires q + 3 <= |s| && s[q + 3..] == ce + ":" + ve
    ensures First((RangeTail(AnyChar) + [Ws, End])[2..], s, q + 3, caps)
            == Some(caps[4 := ce[..1]][5 := ce[1..]][6 := ve])
  {
    var T := RangeTail(AnyChar) + [Ws, End];
    var U := T[2..][0].body + T[2..][1..];
    var i := q + 3;
    var result := Some(caps[4 := ce[..1]][5 := ce[1..]][6 := ve]);
    SplitDigitPieces(s, i, ce, ve);
    assert U[2..] == T[3..];
    EndChapterVerse(U[2..], s, i + 1, caps[4 := s[i..i + 1]], ce[1..], ve);
    LazyOne(U, s, i, caps, 4, AnyChar, result);
    OptionalStep(T[2..], s, i, caps);
  }

  /**
   * No end book and a one-digit end chapter: under the expression as written, group 4 takes the
   * digit and then finds no colon ahead, so the optional end book is skipped.
   */
  lemma EndWithoutBookAsWrittenSingle(s: string, q: nat, caps: Captures, ce: string, ve: string)
    requires Numeral(ce) && Numeral(ve) && |ce| == 1
    requires q + 3 <= |s| && s[q + 3..] == ce + ":" + ve
    ensures First((RangeTail(AnyChar) + [Ws, End])[2..], s, q + 3, caps) == Some(caps[5 := ce][6 := ve])
  {
    var T := RangeTail(AnyChar) + [Ws, End];
    var U := T[2..][0].body + T[2..][1..];
    var i := q + 3;
    SingleDigitBookFails(U, s, i, caps, ce, ve);
    OptionalStep(T[2..], s, i, caps);
    assert T[2..][1..] == T[3..];
    EndChapterVerse(T[3..], s, i, caps, ce, ve);
  }

  /** The lazy end book over "d:ve": one character leaves the colon ahead, more leave no colon at all. */
  lemma SingleDigitBookFails(U: seq<Token>, s: string, i: nat, caps: Captures, ce: string, ve: string)
    requires U == [Run(AnyChar, 1, false, Some(4)), Ws, Run(Digit, 1, true, Some(5)), Char(':'),
                   Run(Digit, 1, true, Some(6)), Ws, End]
    requires Numeral(ce) && Numeral(ve) && |ce| == 1
    requires i <= |s| && s[i..] == ce + ":" + ve
    ensures First(U, s, i, caps) == None
  {
    var w := s[i..];
    assert w[0] == ce[0] && w[1] == ':' && w[2..] == ve;
    assert s[i] == ce[0] && s[i + 1] == ':';
    assert forall p :: i + 2 <= p < |s| ==> s[p] == ve[p - i - 2];
    ClassRunAtLeast(AnyChar, s, i, 1);
    var m := ClassRun(AnyChar, s, i);
    NoDigitAhead(U[1..], s, i + 1, caps[4 := s[i..i + 1]]);
    if m > 1 {
      TryUpNone(U[1..], s, i, caps, Some(4), 2, m, ':', 2);
    }
    assert First(U, s, i, caps) == TryUp(U[1..], s, i, caps, Some(4), 1, m);
  }

  lemma SplitDigitPieces(s: string, i: nat, ce: string, ve: string)
    requires Numeral(ce) && |ce| >= 2 && i <= |s| && s[i..] == ce + ":" + ve
    ensures i + 1 < |s| && s[i..i + 1] == ce[..1] && s[i + 1..] == ce[1..] + ":" + ve && !IsSpace(s[i + 1])
  {
    var w := s[i..];
    assert w[0] == ce[0] && w[1] == ce[1];
    assert w[1..] == ce[1..] + ":" + ve;
  }

  /** A lazy group of at least one character followed by `\s*` and text that matches from the next character. */
  lemma LazyOne(u: seq<Token>, s: string, i: nat, caps: Captures, g: nat, cls: CharClass, result: Option<Captures>)
    requires |u| >= 2 && u[0] == Run(cls, 1, false, Some(g)) && u[1] == Ws
    requires i + 1 < |s| && InClass(cls, s[i]) && !IsSpace(s[i + 1])
    requires First(u[2..], s, i + 1, caps[g := s[i..i + 1]]) == result && result.Some?
    ensures First(u, s, i, caps) == result
  {
    assert u[1..][1..] == u[2..];
    SpaceStep(u[1..], s, i + 1, caps[g := s[i..i + 1]], 0);
    ClassRunAtLeast(cls, s, i, 1);
    LazyStep(u, s, i, caps, 1);
  }

  /** An end book without digits: group 4 takes exactly the book, whichever class it has. */
  lemma EndWithBook(g4: CharClass, s: string, q: nat, caps: Captures, b2: string, ce: string, ve: string)
    requires g4 == AnyChar || g4 == NonDigit
    requires BookName(b2) && Numeral(ce) && Numeral(ve)
    requires q + 3 <= |s| && s[q + 3..] == b2 + " " + ce + ":" + ve
    ensures First((RangeTail(g4) + [Ws, End])[2..], s, q + 3, caps) == Some(caps[4 := b2][5 := ce][6 := ve])
  {
    var rest := [Run(Digit, 1, true, Some(5)), Char(':'), Run(Digit, 1, true, Some(6)), Ws, End];
    assert (RangeTail(g4) + [Ws, End])[2..] == [Optional(EndBookPart(g4))] + rest;
    EndWithBookFrom(g4, s, q + 3, caps, b2, ce, ve, rest, Some(caps[4 := b2][5 := ce][6 := ve]));
  }

  lemma EndWithBookFrom(g4: CharClass, s: string, i: nat, caps: Captures, b2: string, ce: string, ve: string,
                        rest: seq<Token>, result: Option<Captures>)
    requires g4 == AnyChar || g4 == NonDigit
    requires BookName(b2) && Numeral(ce) && Numeral(ve)
    requires rest == [Run(Digit, 1, true, Some(5)), Char(':'), Run(Digit, 1, true, Some(6)), Ws, End]
    requires result == Some(caps[4 := b2][5 := ce][6 := ve])
    requires i <= |s| && s[i..] == b2 + " " + ce + ":" + ve
    ensures First([Optional(EndBookPart(g4))] + rest, s, i, caps) == result
  {
    var u := EndBookPart(g4) + rest;
    EndPieces(s, i, b2, ce, ve);
    assert u[2..] == rest;
    EndChapterVerse(rest, s, i + |b2| + 1, caps[4 := b2], ce, ve);
    LazyBook(u, s, i, caps, 4, g4, b2, result);
    var t := [Optional(EndBookPart(g4))] + rest;
    assert t[0].body + t[1..] == u;
    OptionalStep(t, s, i, caps);
  }

  lemma EndPieces(s: string, i: nat, b: string, ce: string, ve: string)
    requires Numeral(ce) && i <= |s| && s[i..] == b + " " + ce + ":" + ve
    ensures i + |b| + 1 < |s|
    ensures s[i..i + |b|] == b && s[i + |b|] == ' ' && s[i + |b| + 1..] == ce + ":" + ve
    ensures IsDigit(s[i + |b| + 1])
  {
    var w := s[i..];
    assert w[..|b|] == b;
    assert w[|b|] == ' ';
    assert w[|b| + 1..] == ce + ":" + ve;
    assert w[|b| + 1] == ce[0];
  }


  // ---------------------------------------------------------------- what the parse gives

  /** "b c:v", as the form takes a single-verse or single-chapter reference. */
  function Reference(b: string, c: nat, v: nat): string {
    b + " " + NatToString(c) + ":" + NatToString(v)
  }

  /** "b c:v - c2:v2": a range within one book. */
  function RangeReference(b: string, c: nat, v: nat, c2: nat, v2: nat): string {
    Reference(b, c, v) + " - " + NatToString(c2) + ":" + NatToString(v2)
  }

  /** "b c:v - b2 c2:v2": a range that names its end book. */
  function BookRangeReference(b: string, c: nat, v: nat, b2: string, c2: nat, v2: nat): string {
    Reference(b, c, v) + " - " + b2 + " " + NatToString(c2) + ":" + NatToString(v2)
  }

  function HeadCaptures(b: string, c: nat, v: nat): Captures {
    map[][1 := b][2 := NatToString(c)][3 := NatToString(v)]
  }

  /** A string that starts with `Reference(b, c, v)` matches its head with the book and the numbers. */
  lemma HeadOf(g4: CharClass, s: string, b: string, c: nat, v: nat, result: Option<Captures>)
    requires BookName(b)
    requires |Reference(b, c, v)| <= |s| && s[..|Reference(b, c, v)|] == Reference(b, c, v)
    requires |Reference(b, c, v)| < |s| ==> !IsDigit(s[|Reference(b, c, v)|])
    requires First(Pattern(g4)[7..], s, |Reference(b, c, v)|, HeadCaptures(b, c, v)) == result
    requires result.Some?
    ensures First(Pattern(g4), s, 0, map[]) == result
  {
    var cs, vs := NatToString(c), NatToString(v);
    assert Reference(b, c, v) == b + " " + cs + ":" + vs;
    HeadPieces(s, b, cs, vs);
    HeadMatch(Pattern(g4), s, b, cs, vs, result);
  }

  /** A match with captures `caps` parses to their conversions. */
  lemma ParseOf(g4: CharClass, s: string, caps: Captures)
    requires First(Pattern(g4), s, 0, map[]) == Some(caps)
    ensures GoodCaptures(caps) && {1, 2, 3} <= caps.Keys
    ensures ParseWith(g4, s) == Some(Groups(caps))
  {
    PatternShape(g4);
    FirstSound(Pattern(g4), s, 0, map[]);
  }

  /** The conversions of the head groups give the book and the two numbers back. */
  lemma GroupsOfHead(caps: Captures, b: string, c: nat, v: nat)
    requires BookName(b)
    requires GoodCaptures(caps) && {1, 2, 3} <= caps.Keys
    requires caps[1] == b && caps[2] == NatToString(c) && caps[3] == NatToString(v)
    ensures Groups(caps).startBook == b && Groups(caps).startCh == c && Groups(caps).startVerse == v
  {
    StripOfTrimmed(b);
    DecimalOfNatToString(c);
    DecimalOfNatToString(v);
  }

  /** "b c:v" parses to chapter `c`, verse `v`, ending where it starts, under either expression. */
  lemma ParseSingle(g4: CharClass, b: string, c: nat, v: nat)
    requires BookName(b)
    ensures ParseWith(g4, Reference(b, c, v)) == Some(ScriptureRef(b, c, v, None, c, v))
  {
    var s := Reference(b, c, v);
    var caps := HeadCaptures(b, c, v);
    assert s[..|s|] == s;
    TailSingle(g4, s, caps);
    HeadOf(g4, s, b, c, v, Some(caps));
    ParseOf(g4, s, caps);
    GroupsOfHead(caps, b, c, v);
  }


  /** The pieces of "r - rest" around the dash. */
  lemma DashPieces(s: string, r: string, rest: string)
    requires s == r + " - " + rest
    ensures |r| + 3 <= |s| && s[..|r|] == r && s[|r|] == ' ' && s[|r| + 1] == '-' && s[|r| + 2] == ' '
    ensures s[|r| + 3..] == rest
  {
    assert s[|r|..|r| + 3] == " - ";
  }

  /** "b c:v - c2:v2" parses to the range from `c:v` to `c2:v2` under the corrected expression. */
  lemma ParseRange(b: string, c: nat, v: nat, c2: nat, v2: nat)
    requires BookName(b)
    ensures ParseCorrected(RangeReference(b, c, v, c2, v2)) == Some(ScriptureRef(b, c, v, None, c2, v2))
  {
    var s := RangeReference(b, c, v, c2, v2);
    var ce, ve := NatToString(c2), NatToString(v2);
    var q := |Reference(b, c, v)|;
    var head := HeadCaptures(b, c, v);
    var caps := head[5 := ce][6 := ve];
    DashPieces(s, Reference(b, c, v), ce + ":" + ve);
    assert s[q + 3] == ce[0];
    EndWithoutBook(s, q, head, ce, ve);
    RangeFrame(NonDigit, s, q, head, caps);
    HeadOf(NonDigit, s, b, c, v, Some(caps));
    ParseOf(NonDigit, s, caps);
    GroupsOfHead(caps, b, c, v);
    DecimalOfNatToString(c2);
    DecimalOfNatToString(v2);
  }

  /**
   * Under the expression as written, "b c:v - c2:v2" with a one-digit end chapter parses to the
   * range from `c:v` to `c2:v2`.
   */
  lemma ParseRangeAsWritten(b: string, c: nat, v: nat, c2: nat, v2: nat)
    requires BookName(b) && c2 < 10
    ensures ParseAsWritten(RangeReference(b, c, v, c2, v2)) == Some(ScriptureRef(b, c, v, None, c2, v2))
  {
    var s := RangeReference(b, c, v, c2, v2);
    var ce, ve := NatToString(c2), NatToString(v2);
    var q := |Reference(b, c, v)|;
    var head := HeadCaptures(b, c, v);
    var caps := head[5 := ce][6 := ve];
    DashPieces(s, Reference(b, c, v), ce + ":" + ve);
    assert s[q + 3] == ce[0];
    EndWithoutBookAsWrittenSingle(s, q, head, ce, ve);
    RangeFrame(AnyChar, s, q, head, caps);
    HeadOf(AnyChar, s, b, c, v, Some(caps));
    ParseOf(AnyChar, s, caps);
    GroupsOfHead(caps, b, c, v);
    DecimalOfNatToString(c2);
    DecimalOfNatToString(v2);
  }

  /** "b c:v - b2 c2:v2" parses to the range with end book `b2` under either expression. */
  lemma ParseBookRange(g4: CharClass, b: string, c: nat, v: nat, b2: string, c2: nat, v2: nat)
    requires g4 == AnyChar || g4 == NonDigit
    requires BookName(b) && BookName(b2)
    ensures ParseWith(g4, BookRangeReference(b, c, v, b2, c2, v2)) == Some(ScriptureRef(b, c, v, Some(b2), c2, v2))
  {
    var s := BookRangeReference(b, c, v, b2, c2, v2);
    var ce, ve := NatToString(c2), NatToString(v2);
    var q := |Reference(b, c, v)|;
    var head := HeadCaptures(b, c, v);
    var caps := head[4 := b2][5 := ce][6 := ve];
    assert s == Reference(b, c, v) + " - " + (b2 + " " + ce + ":" + ve);
    DashPieces(s, Reference(b, c, v), b2 + " " + ce + ":" + ve);
    assert s[q + 3] == b2[0];
    EndWithBook(g4, s, q, head, b2, ce, ve);
    RangeFrame(g4, s, q, head, caps);
    HeadOf(g4, s, b, c, v, Some(caps));
    ParseOf(g4, s, caps);
    GroupsOfHead(caps, b, c, v);
    DecimalOfNatToString(c2);
    DecimalOfNatToString(v2);
  }

  /**
   * Under the expression as written, "b c:v - c2:v2" with an end chapter of two or more digits
   * loses the first digit to group 4: the end book becomes that digit and the end chapter is
   * smaller than `c2`.
   */
  lemma AsWrittenRange(b: string, c: nat, v: nat, c2: nat, v2: nat)
    requires BookName(b) && c2 >= 10
    ensures var ce := NatToString(c2);
            |ce| >= 2 &&
            ParseAsWritten(RangeReference(b, c, v, c2, v2))
            == Some(ScriptureRef(b, c, v, Some(ce[..1]), DecimalValue(ce[1..]), v2))
    ensures ParseAsWritten(RangeReference(b, c, v, c2, v2)).value.endCh < c2
  {
    var ce, ve := NatToString(c2), NatToString(v2);
    var caps := HeadCaptures(b, c, v)[4 := ce[..1]][5 := ce[1..]][6 := ve];
    TwoDigits(c2);
    AsWrittenMatch(b, c, v, c2, v2);
    ParseOf(AnyChar, RangeReference(b, c, v, c2, v2), caps);
    AsWrittenGroups(caps, b, c, v, c2, v2);
  }

  lemma AsWrittenGroups(caps: Captures, b: string, c: nat, v: nat, c2: nat, v2: nat)
    requires BookName(b) && |NatToString(c2)| >= 2
    requires caps == HeadCaptures(b, c, v)[4 := NatToString(c2)[..1]][5 := NatToString(c2)[1..]][6 := NatToString(v2)]
    requires GoodCaptures(caps) && {1, 2, 3} <= caps.Keys
    ensures var ce := NatToString(c2);
            Groups(caps) == ScriptureRef(b, c, v, Some(ce[..1]), DecimalValue(ce[1..]), v2)
  {
    GroupsOfHead(caps, b, c, v);
    DecimalOfNatToString(v2);
  }

  /** The decimal digits of a number from 10 up, split after the first one. */
  lemma TwoDigits(n: nat)
    requires n >= 10
    ensures var d := NatToString(n);
            |d| >= 2 && d[..1] != [] && Numeral(d[1..]) && DecimalValue(d[1..]) < n
  {
    var d := NatToString(n);
    assert d == NatToString(n / 10) + [DigitChar(n % 10)];
    assert forall j :: 0 <= j < |d| - 1 ==> d[1..][j] == d[j + 1];
    DecimalOfNatToString(n);
    DecimalDropLeading(d);
  }

  lemma AsWrittenMatch(b: string, c: nat, v: nat, c2: nat, v2: nat)
    requires BookName(b) && |NatToString(c2)| >= 2
    ensures var ce := NatToString(c2);
            First(Pattern(AnyChar), RangeReference(b, c, v, c2, v2), 0, map[])
            == Some(HeadCaptures(b, c, v)[4 := ce[..1]][5 := ce[1..]][6 := NatToString(v2)])
  {
    var s := RangeReference(b, c, v, c2, v2);
    var ce, ve := NatToString(c2), NatToString(v2);
    var q := |Reference(b, c, v)|;
    var head := HeadCaptures(b, c, v);
    var caps := head[4 := ce[..1]][5 := ce[1..]][6 := ve];
    DashPieces(s, Reference(b, c, v), ce + ":" + ve);
    assert s[q + 3] == ce[0];
    EndWithoutBookAsWritten(s, q, head, ce, ve);
    RangeFrame(AnyChar, s, q, head, caps);
    HeadOf(AnyChar, s, b, c, v, Some(caps));
  }

  /** Psalm 119:1-8: the expression as written reads the end chapter as 19 and the end book as "1". */
  lemma PsalmRange(s: string)
    requires s == "시편 119:1 - 119:8"
    ensures ParseAsWritten(s) == Some(ScriptureRef("시편", 119, 1, Some("1"), 19, 8))
    ensures ParseCorrected(s) == Some(ScriptureRef("시편", 119, 1, None, 119, 8))
  {
    PsalmReference(s);
    PsalmAsWritten(s);
    ParseRange("시편", 119, 1, 119, 8);
  }

  lemma PsalmReference(s: string)
    requires s == "시편 119:1 - 119:8"
    ensures s == RangeReference("시편", 119, 1, 119, 8) && BookName("시편")
  {
    assert NatToString(119) == "119" && NatToString(1) == "1" && NatToString(8) == "8";
  }

  lemma PsalmAsWritten(s: string)
    requires s == RangeReference("시편", 119, 1, 119, 8) && BookName("시편")
    ensures ParseAsWritten(s) == Some(ScriptureRef("시편", 119, 1, Some("1"), 19, 8))
  {
    var ce := NatToString(119);
    assert ce == "119";
    AsWrittenRange("시편", 119, 1, 119, 8);
    assert ce[..1] == "1" && ce[1..] == "19";
    assert DecimalValue("19") == 19;
  }

  // ---------------------------------------------------------------- references that do not match

  /**
   * A pattern with the character `c` outside every optional part does not match from `i` when
   * `c` does not occur from `i` on.
   */
  lemma NoCharNoMatch(toks: seq<Token>, s: string, i: nat, caps: Captures, c: char, j: nat)
    requires i <= |s| && j < |toks| && toks[j] == Char(c)
    requires forall k :: i <= k < |s| ==> s[k] != c
    ensures First(toks, s, i, caps) == None
    decreases Size(toks), |s| + 2
  {
    var rest := toks[1..];
    assert Size(toks) == TokenSize(toks[0]) + Size(rest);
    if j == 0 {
      CharFails(toks, s, i, caps);
    } else {
      assert rest[j - 1] == Char(c);
      match toks[0]
      case Begin => if i == 0 { NoCharNoMatch(rest, s, i, caps, c, j - 1); }
      case End => if i == |s| || (i + 1 == |s| && s[i] == '\n') { NoCharNoMatch(rest, s, i, caps, c, j - 1); }
      case Char(d) => if i < |s| && s[i] == d { NoCharNoMatch(rest, s, i + 1, caps, c, j - 1); }
      case Run(cls, min, greedy, group) =>
        var m := ClassRun(cls, s, i);
        if m >= min {
          if greedy {
            TryDownNone(rest, s, i, caps, group, min, m, c, j - 1);
          } else {
            TryUpNone(rest, s, i, caps, group, min, m, c, j - 1);
          }
        }
      case Optional(body) =>
        SizeAppend(body, rest);
        assert (body + rest)[|body| + j - 1] == Char(c);
        NoCharNoMatch(body + rest, s, i, caps, c, |body| + j - 1);
        NoCharNoMatch(rest, s, i, caps, c, j - 1);
    }
  }

  lemma TryDownNone(rest: seq<Token>, s: string, i: nat, caps: Captures, group: Option<nat>, lo: nat, k: nat,
                    c: char, j: nat)
    requires i + k <= |s| && lo <= k && j < |rest| && rest[j] == Char(c)
    requires forall p :: i <= p < |s| ==> s[p] != c
    ensures TryDown(rest, s, i, caps, group, lo, k) == None
    decreases 1 + Size(rest), k + 1
  {
    NoCharNoMatch(rest, s, i + k, Record(caps, group, s[i..i + k]), c, j);
    if k > lo {
      TryDownNone(rest, s, i, caps, group, lo, k - 1, c, j);
    }
  }

  lemma TryUpNone(rest: seq<Token>, s: string, i: nat, caps: Captures, group: Option<nat>, k: nat, hi: nat,
                  c: char, j: nat)
    requires i + hi <= |s| && k <= hi && j < |rest| && rest[j] == Char(c)
    requires forall p :: i + k <= p < |s| ==> s[p] != c
    ensures TryUp(rest, s, i, caps, group, k, hi) == None
    decreases 1 + Size(rest), hi - k + 1
  {
    NoCharNoMatch(rest, s, i + k, Record(caps, group, s[i..i + k]), c, j);
    if k < hi {
      TryUpNone(rest, s, i, caps, group, k + 1, hi, c, j);
    }
  }

  /** A reference without a colon does not parse, under either expression. */
  lemma NoColonNoParse(g4: CharClass, s: string)
    requires ':' !in s
    ensures ParseWith(g4, s) == None
  {
    NoCharNoMatch(Pattern(g4), s, 0, map[], ':', 5);
  }

}
