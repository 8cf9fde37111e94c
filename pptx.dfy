/**
 * The slide editing of utils/update_pptx.py over an abstract presentation: an ordered sequence of
 * slides, each with an id, a layout and shapes that may be placeholders and may hold a text frame.
 * `edit_text_field` rewrites one text frame chosen by a fixed priority, `_insert_slide_at_index`
 * moves a slide by removing and re-inserting it, and `add_slides_with_text`, `add_ads_slides` and
 * `add_bible_slides` fill a template slide and clones of its layout placed right after it.
 */
module Pptx {
  import opened Base
  import opened Text

  // ---------------------------------------------------------------- data model

  datatype AutoSize = AutoSizeUnset | NoAutoSize | ShapeToFitText | TextToFitShape
  datatype Alignment = AlignmentUnset | Left | Center | Right | Justify

  /** A paragraph: its runs of text and its alignment. */
  datatype Paragraph = Paragraph(runs: seq<string>, alignment: Alignment)
  datatype TextFrame = TextFrame(paragraphs: seq<Paragraph>, autoSize: AutoSize)

  /**
   * A shape of a slide: its name, the `idx` of its placeholder format when it is a placeholder,
   * and its text frame when it has one (`has_text_frame`).
   */
  datatype Shape = Shape(name: string, placeholderIdx: Option<int>, frame: Option<TextFrame>)

  /** A slide layout, with the placeholders a slide added on it starts with. */
  datatype Layout = Layout(name: string, placeholders: seq<Shape>)

  /** A slide: its `slide_id`, its layout and its shapes in document order. */
  datatype Slide = Slide(id: nat, layout: Layout, shapes: seq<Shape>)

  /** `dict.get(key, "")` of an announcement or scripture item with `title` and `contents`. */
  datatype TitledItem = TitledItem(title: Option<string>, contents: Option<string>)

  /** The placeholder `idx` that receives an announcement's contents. */
  const AdsContentsIdx: int := 1
  /** The placeholder `idx` that receives a scripture item's contents. */
  const BibleContentsIdx: int := 10

  // ---------------------------------------------------------------- text of a frame

  function Concat(runs: seq<string>): string
    decreases |runs|
  {
    if runs == [] then "" else runs[0] + Concat(runs[1..])
  }

  function ParagraphTexts(ps: seq<Paragraph>): (r: seq<string>)
    ensures |r| == |ps|
    decreases |ps|
  {
    if ps == [] then [] else [Concat(ps[0].runs)] + ParagraphTexts(ps[1..])
  }

  /** `text_frame.text`: the paragraphs' texts joined with line feeds. */
  function FrameText(f: TextFrame): string {
    Join(ParagraphTexts(f.paragraphs), "\n")
  }

  /**
   * The frame after `clear()`, one run holding the new text, shape-to-fit auto-size and the
   * alignment of its one paragraph.
   */
  function WrittenFrame(text: string, alignCenter: bool): TextFrame {
    TextFrame([Paragraph([text], if alignCenter then Center else Left)], ShapeToFitText)
  }

  /** A written frame holds exactly the new text, in one paragraph, fitted and aligned as asked. */
  lemma WrittenFrameContents(text: string, alignCenter: bool)
    ensures FrameText(WrittenFrame(text, alignCenter)) == text
    ensures |WrittenFrame(text, alignCenter).paragraphs| == 1
    ensures WrittenFrame(text, alignCenter).autoSize == ShapeToFitText
    ensures WrittenFrame(text, alignCenter).paragraphs[0].alignment == Center <==> alignCenter
    ensures WrittenFrame(text, alignCenter).paragraphs[0].alignment == Left <==> !alignCenter
  {
    var f := WrittenFrame(text, alignCenter);
    SingleParagraphText(f.paragraphs[0]);
    assert Concat([text]) == text + Concat([]);
  }

  lemma SingleParagraphText(p: Paragraph)
    ensures ParagraphTexts([p]) == [Concat(p.runs)]
  {
    assert [p][1..] == [];
  }

  // ---------------------------------------------------------------- which frame is edited

  /** The frame `edit_text_field` looks for, in the order of its `if`/`elif` chain. */
  datatype Target = TitlePlaceholder | NamedShape(name: string) | IndexedPlaceholder(idx: int) | FirstTextFrame

  /** `is_title` first, then a non-empty `shape_name`, then a given `ph_index`, else any frame. */
  function TargetOf(isTitle: bool, shapeName: Option<string>, phIndex: Option<int>): (t: Target)
    ensures t.TitlePlaceholder? <==> isTitle
    ensures t.NamedShape? <==> !isTitle && shapeName.Some? && shapeName.value != []
    ensures t.NamedShape? ==> t.name == shapeName.value
    ensures t.IndexedPlaceholder? <==> !isTitle && shapeName.GetOr("") == [] && phIndex.Some?
    ensures t.IndexedPlaceholder? ==> t.idx == phIndex.value
  {
    if isTitle then TitlePlaceholder
    else if shapeName.Some? && shapeName.value != [] then NamedShape(shapeName.value)
    else if phIndex.Some? then IndexedPlaceholder(phIndex.value)
    else FirstTextFrame
  }

  /**
   * The shapes the search for a target stops at: the title is the placeholder with `idx` 0
   * (`shapes.title`, whether or not it has a frame); the other searches skip shapes without a frame.
   */
  predicate Candidate(t: Target, s: Shape) {
    match t
    case TitlePlaceholder => s.placeholderIdx == Some(0)
    case NamedShape(n) => s.name == n && s.frame.Some?
    case IndexedPlaceholder(i) => s.placeholderIdx == Some(i) && s.frame.Some?
    case FirstTextFrame => s.frame.Some?
  }

  /** Index of the first shape the search stops at. */
  function FirstCandidate(shapes: seq<Shape>, t: Target): (r: Option<nat>)
    ensures r.Some? ==> r.value < |shapes| && Candidate(t, shapes[r.value])
    ensures r.Some? ==> forall j :: 0 <= j < r.value ==> !Candidate(t, shapes[j])
    ensures r.None? ==> forall j :: 0 <= j < |shapes| ==> !Candidate(t, shapes[j])
    decreases |shapes|
  {
    if shapes == [] then None
    else if Candidate(t, shapes[0]) then Some(0)
    else match FirstCandidate(shapes[1..], t)
      case None => None
      case Some(k) => Some(k + 1)
  }

  /** The shape whose frame is rewritten: the first candidate, when it has a frame. */
  function ResolvedShape(shapes: seq<Shape>, t: Target): (r: Option<nat>)
    ensures r.Some? ==> r.value < |shapes| && shapes[r.value].frame.Some?
  {
    match FirstCandidate(shapes, t)
    case None => None
    case Some(k) => if shapes[k].frame.Some? then Some(k) else None
  }

  /** One call of `edit_text_field` on one slide: the target, the new text and the alignment. */
  datatype Edit = Edit(target: Target, text: string, alignCenter: bool)

  /** The slide after an edit: the resolved frame rewritten, or the slide unchanged. */
  function EditSlide(slide: Slide, e: Edit): Slide {
    match ResolvedShape(slide.shapes, e.target)
    case None => slide
    case Some(k) =>
      slide.(shapes := slide.shapes[k := slide.shapes[k].(frame := Some(WrittenFrame(e.text, e.alignCenter)))])
  }

  /** `edit_text_field` on the whole presentation: an index past the last slide changes nothing. */
  function EditedSlides(slides: seq<Slide>, index: nat, e: Edit): (r: seq<Slide>)
    ensures |r| == |slides|
    ensures forall j :: 0 <= j < |slides| && j != index ==> r[j] == slides[j]
    ensures index >= |slides| ==> r == slides
  {
    if index < |slides| then slides[index := EditSlide(slides[index], e)] else slides
  }

  // ---------------------------------------------------------------- properties of an edit

  /**
   * The resolved frame is the first shape satisfying the target's test, in the priority order:
   * the title placeholder, the first shape with that name and a frame, the first placeholder with
   * that index and a frame, the first shape with a frame.
   */
  lemma ResolvedShapeIsFirst(shapes: seq<Shape>, t: Target, k: nat)
    requires k < |shapes| && Candidate(t, shapes[k]) && shapes[k].frame.Some?
    requires forall j :: 0 <= j < k ==> !Candidate(t, shapes[j])
    ensures ResolvedShape(shapes, t) == Some(k)
  {
    var r := FirstCandidate(shapes, t);
    assert r == Some(k);
  }

  /** When nothing resolves, the slide is left as it was. */
  lemma EditWithoutTarget(slide: Slide, e: Edit)
    requires forall j :: 0 <= j < |slide.shapes| ==> !(Candidate(e.target, slide.shapes[j]) && slide.shapes[j].frame.Some?)
    ensures EditSlide(slide, e) == slide
  {
    var r := FirstCandidate(slide.shapes, e.target);
    if r.Some? {
      assert !(Candidate(e.target, slide.shapes[r.value]) && slide.shapes[r.value].frame.Some?);
    }
  }

  /**
   * A successful edit replaces the resolved frame by the written one and changes nothing else:
   * the slide keeps its id, layout, number of shapes, every name and placeholder index, and every
   * other shape.
   */
  lemma EditSlideWrites(slide: Slide, e: Edit, k: nat)
    requires ResolvedShape(slide.shapes, e.target) == Some(k)
    ensures EditSlide(slide, e).id == slide.id && EditSlide(slide, e).layout == slide.layout
    ensures |EditSlide(slide, e).shapes| == |slide.shapes|
    ensures EditSlide(slide, e).shapes[k].frame == Some(WrittenFrame(e.text, e.alignCenter))
    ensures EditSlide(slide, e).shapes[k].name == slide.shapes[k].name
    ensures EditSlide(slide, e).shapes[k].placeholderIdx == slide.shapes[k].placeholderIdx
    ensures forall j :: 0 <= j < |slide.shapes| && j != k ==> EditSlide(slide, e).shapes[j] == slide.shapes[j]
  {
  }

  /** An edit keeps the slide's id, its layout and which shape the search for any target stops at. */
  lemma EditKeepsCandidates(slide: Slide, e: Edit)
    ensures EditSlide(slide, e).id == slide.id && EditSlide(slide, e).layout == slide.layout
    ensures |EditSlide(slide, e).shapes| == |slide.shapes|
    ensures forall t: Target, j :: 0 <= j < |slide.shapes| ==>
              (Candidate(t, EditSlide(slide, e).shapes[j]) <==> Candidate(t, slide.shapes[j])) &&
              (EditSlide(slide, e).shapes[j].frame.Some? <==> slide.shapes[j].frame.Some?)
  {
  }

  lemma {:induction false} FirstCandidateSame(a: seq<Shape>, b: seq<Shape>, t: Target)
    requires |a| == |b|
    requires forall j :: 0 <= j < |a| ==> (Candidate(t, a[j]) <==> Candidate(t, b[j]))
    ensures FirstCandidate(a, t) == FirstCandidate(b, t)
    decreases |a|
  {
    if a != [] && !Candidate(t, a[0]) {
      FirstCandidateSame(a[1..], b[1..], t);
    }
  }

  /** Repeating an identical edit changes nothing more: `edit_text_field` is idempotent. */
  lemma EditIdempotent(slide: Slide, e: Edit)
    ensures EditSlide(EditSlide(slide, e), e) == EditSlide(slide, e)
  {
    var once := EditSlide(slide, e);
    EditKeepsCandidates(slide, e);
    FirstCandidateSame(once.shapes, slide.shapes, e.target);
    match ResolvedShape(slide.shapes, e.target)
    case None =>
    case Some(k) =>
      assert ResolvedShape(once.shapes, e.target) == Some(k);
      assert once.shapes[k := once.shapes[k].(frame := Some(WrittenFrame(e.text, e.alignCenter)))] == once.shapes;
  }

  /** The same on the presentation, for any slide index. */
  lemma EditedSlidesIdempotent(slides: seq<Slide>, index: nat, e: Edit)
    ensures EditedSlides(EditedSlides(slides, index, e), index, e) == EditedSlides(slides, index, e)
  {
    if index < |slides| {
      EditIdempotent(slides[index], e);
    }
  }

  // ---------------------------------------------------------------- slide ids

  function Max(a: nat, b: nat): nat {
    if a < b then b else a
  }

  /** The largest slide id in use, or 255 when it is larger. */
  function HighestId(slides: seq<Slide>): (h: nat)
    ensures h >= 255
    decreases |slides|
  {
    if slides == [] then 255 else Max(HighestId(slides[..|slides| - 1]), slides[|slides| - 1].id)
  }

  /** No slide has an id above `HighestId`. */
  lemma {:induction false} HighestIdBound(slides: seq<Slide>)
    ensures forall j :: 0 <= j < |slides| ==> slides[j].id <= HighestId(slides)
    decreases |slides|
  {
    if slides != [] {
      var front := slides[..|slides| - 1];
      HighestIdBound(front);
      assert forall j :: 0 <= j < |front| ==> slides[j] == front[j];
    }
  }

  /** The id python-pptx gives the next slide: one more than `max(255, ids)`. */
  function NextId(slides: seq<Slide>): (id: nat)
    ensures id >= 256
  {
    HighestId(slides) + 1
  }

  /** The next id is above every id in use, so the new slide's id is fresh. */
  lemma NextIdFresh(slides: seq<Slide>)
    ensures forall j :: 0 <= j < |slides| ==> slides[j].id < NextId(slides)
  {
    HighestIdBound(slides);
  }

  /** The slide `add_slide(layout)` appends, showing the layout's placeholders. */
  function NewSlide(id: nat, layout: Layout): Slide {
    Slide(id, layout, layout.placeholders)
  }

  lemma {:induction false} HighestIdConcat(a: seq<Slide>, b: seq<Slide>)
    ensures HighestId(a + b) == Max(HighestId(a), HighestId(b))
    decreases |b|
  {
    if b == [] {
      assert a + b == a;
    } else {
      var b' := b[..|b| - 1];
      assert (a + b)[..|a + b| - 1] == a + b';
      HighestIdConcat(a, b');
    }
  }

  // ---------------------------------------------------------------- moving a slide

  /** Index of the first slide with the id, as the loop over `_sldIdLst` finds it. */
  function PositionOf(slides: seq<Slide>, id: nat): (r: Option<nat>)
    ensures r.Some? ==> r.value < |slides| && slides[r.value].id == id
    ensures r.Some? ==> forall j :: 0 <= j < r.value ==> slides[j].id != id
    ensures r.None? ==> forall j :: 0 <= j < |slides| ==> slides[j].id != id
    decreases |slides|
  {
    if slides == [] then None
    else if slides[0].id == id then Some(0)
    else match PositionOf(slides[1..], id)
      case None => None
      case Some(k) => Some(k + 1)
  }

  /** `xs` without its element at `k`. */
  function Without<T>(xs: seq<T>, k: nat): (r: seq<T>)
    requires k < |xs|
    ensures |r| == |xs| - 1
  {
    xs[..k] + xs[k + 1..]
  }

  /** lxml's `insert(t, x)`: before the element at `t`, or at the end when `t` is past it. */
  function InsertAt<T>(xs: seq<T>, t: nat, x: T): (r: seq<T>)
    ensures |r| == |xs| + 1
  {
    if t >= |xs| then xs + [x] else xs[..t] + [x] + xs[t..]
  }

  /** `_insert_slide_at_index`: the slide with the id removed and re-inserted at `t`. */
  function Moved(slides: seq<Slide>, id: nat, t: nat): seq<Slide> {
    match PositionOf(slides, id)
    case None => slides
    case Some(k) => InsertAt(Without(slides, k), t, slides[k])
  }

  /** An unknown id leaves the order unchanged. */
  lemma MovedUnknown(slides: seq<Slide>, id: nat, t: nat)
    requires forall j :: 0 <= j < |slides| ==> slides[j].id != id
    ensures Moved(slides, id, t) == slides
  {
  }

  /** The moved order is a permutation of the old one. */
  lemma MovedPermutation(slides: seq<Slide>, id: nat, t: nat)
    ensures multiset(Moved(slides, id, t)) == multiset(slides)
  {
    match PositionOf(slides, id)
    case None =>
    case Some(k) =>
      var rest := Without(slides, k);
      assert slides == slides[..k] + [slides[k]] + slides[k + 1..];
      assert multiset(slides) == multiset(rest) + multiset{slides[k]};
      if t < |rest| {
        assert rest == rest[..t] + rest[t..];
      }
  }

  /**
   * The moved slide lands at `t`, or last when `t` is past the end, and the other slides keep
   * their relative order: taking the moved slide out of both orders leaves the same sequence.
   */
  lemma MovedPlacement(slides: seq<Slide>, id: nat, t: nat, k: nat)
    requires PositionOf(slides, id) == Some(k)
    ensures |Moved(slides, id, t)| == |slides|
    ensures var p := if t < |slides| - 1 then t else |slides| - 1;
            Moved(slides, id, t)[p] == slides[k] &&
            Without(Moved(slides, id, t), p) == Without(slides, k)
  {
    var rest := Without(slides, k);
    WithoutInsertAt(rest, t, slides[k]);
  }

  lemma WithoutInsertAt<T>(xs: seq<T>, t: nat, x: T)
    ensures var p := if t < |xs| then t else |xs|;
            InsertAt(xs, t, x)[p] == x && Without(InsertAt(xs, t, x), p) == xs
  {
    if t < |xs| {
      var r := InsertAt(xs, t, x);
      assert r[..t] == xs[..t];
      assert r[t + 1..] == xs[t..];
    } else {
      assert (xs + [x])[..|xs|] == xs;
    }
  }

  // ---------------------------------------------------------------- expansion

  /** The edits made on one slide of an expansion, in call order. */
  function Apply(slide: Slide, edits: seq<Edit>): Slide
    decreases |edits|
  {
    if edits == [] then slide else Apply(EditSlide(slide, edits[0]), edits[1..])
  }

  lemma {:induction false} ApplyKeepsIdentity(slide: Slide, edits: seq<Edit>)
    ensures Apply(slide, edits).id == slide.id && Apply(slide, edits).layout == slide.layout
    decreases |edits|
  {
    if edits != [] {
      EditKeepsCandidates(slide, edits[0]);
      ApplyKeepsIdentity(EditSlide(slide, edits[0]), edits[1..]);
    }
  }

  /** The added slides, with consecutive fresh ids from `base`, each filled by its edits. */
  function NewSlides(base: nat, layout: Layout, fills: seq<seq<Edit>>): (r: seq<Slide>)
    ensures |r| == |fills|
  {
    seq(|fills|, j requires 0 <= j < |fills| => Apply(NewSlide(base + j, layout), fills[j]))
  }

  /**
   * The presentation after an expansion from the template slide `t`: fill 0 is written into the
   * template, fill i into a new slide with the template's layout at `t + i`, and the later slides
   * follow. No fill changes nothing.
   */
  function Expanded(slides: seq<Slide>, t: nat, fills: seq<seq<Edit>>): seq<Slide>
    requires fills != [] ==> t < |slides|
  {
    if fills == [] then slides
    else slides[..t] + [Apply(slides[t], fills[0])]
         + NewSlides(NextId(slides), slides[t].layout, fills[1..]) + slides[t + 1..]
  }

  /** `add_slides_with_text`: one edit of one text per slide, all with the same target. */
  function TextFills(texts: seq<string>, target: Target, alignCenter: bool): (r: seq<seq<Edit>>)
    ensures |r| == |texts|
  {
    if texts == [] then [] else [[Edit(target, texts[0], alignCenter)]] + TextFills(texts[1..], target, alignCenter)
  }

  lemma {:induction false} TextFillsAt(texts: seq<string>, target: Target, alignCenter: bool, i: nat)
    requires i < |texts|
    ensures TextFills(texts, target, alignCenter)[i] == [Edit(target, texts[i], alignCenter)]
    decreases i
  {
    if i > 0 {
      TextFillsAt(texts[1..], target, alignCenter, i - 1);
    }
  }

  /** `add_ads_slides` / `add_bible_slides`: the title, then the contents into placeholder `idx`. */
  function ItemFills(items: seq<TitledItem>, idx: int): (r: seq<seq<Edit>>)
    ensures |r| == |items|
  {
    if items == [] then [] else [ItemFill(items[0], idx)] + ItemFills(items[1..], idx)
  }

  lemma {:induction false} ItemFillsAt(items: seq<TitledItem>, idx: int, i: nat)
    requires i < |items|
    ensures ItemFills(items, idx)[i] == ItemFill(items[i], idx)
    decreases i
  {
    if i > 0 {
      ItemFillsAt(items[1..], idx, i - 1);
    }
  }

  function ItemFill(item: TitledItem, idx: int): (r: seq<Edit>)
    ensures |r| == 2
  {
    [Edit(TitlePlaceholder, item.title.GetOr(""), false),
     Edit(IndexedPlaceholder(idx), item.contents.GetOr(""), false)]
  }

  /**
   * The presentation as the loop leaves it after `i` fills: the filled template, then each new
   * slide inserted in turn at `t + 1`, `t + 2`, ... with the next fresh id.
   */
  function PartlyExpanded(slides: seq<Slide>, t: nat, fills: seq<seq<Edit>>, i: nat): (r: seq<Slide>)
    requires t < |slides| && 1 <= i <= |fills|
    ensures |r| == |slides| + i - 1
    decreases i
  {
    if i == 1 then slides[t := Apply(slides[t], fills[0])]
    else InsertAt(PartlyExpanded(slides, t, fills, i - 1), t + i - 1,
                  Apply(NewSlide(NextId(slides) + i - 2, slides[t].layout), fills[i - 1]))
  }

  /** The same state written out: the template filled, the first `i - 1` new slides, the rest. */
  function ExpandedUpTo(slides: seq<Slide>, t: nat, fills: seq<seq<Edit>>, i: nat): seq<Slide>
    requires t < |slides| && 1 <= i <= |fills|
  {
    slides[..t] + [Apply(slides[t], fills[0])]
    + NewSlides(NextId(slides), slides[t].layout, fills[1..i]) + slides[t + 1..]
  }

  lemma {:induction false} PartlyExpandedClosed(slides: seq<Slide>, t: nat, fills: seq<seq<Edit>>, i: nat)
    requires t < |slides| && 1 <= i <= |fills|
    ensures PartlyExpanded(slides, t, fills, i) == ExpandedUpTo(slides, t, fills, i)
    decreases i
  {
    var layout := slides[t].layout;
    var base := NextId(slides);
    var pre := slides[..t] + [Apply(slides[t], fills[0])];
    if i == 1 {
      assert NewSlides(base, layout, fills[1..1]) == [];
      assert slides[t := Apply(slides[t], fills[0])] == pre + slides[t + 1..];
    } else {
      PartlyExpandedClosed(slides, t, fills, i - 1);
      var news := NewSlides(base, layout, fills[1..i - 1]);
      var added := Apply(NewSlide(base + i - 2, layout), fills[i - 1]);
      assert NewSlides(base, layout, fills[1..i]) == news + [added];
      assert |pre + news| == t + i - 1;
      InsertAfterPrefix(pre + news, slides[t + 1..], added);
    }
  }

  lemma {:induction false} HighestIdNewSlides(base: nat, layout: Layout, fills: seq<seq<Edit>>)
    requires base >= 256
    ensures HighestId(NewSlides(base, layout, fills)) == if fills == [] then 255 else base + |fills| - 1
    decreases |fills|
  {
    if fills != [] {
      var front := fills[..|fills| - 1];
      var r := NewSlides(base, layout, fills);
      assert r[..|r| - 1] == NewSlides(base, layout, front);
      HighestIdNewSlides(base, layout, front);
      ApplyKeepsIdentity(NewSlide(base + |fills| - 1, layout), fills[|fills| - 1]);
    }
  }

  lemma HighestIdSingle(s: Slide)
    ensures HighestId([s]) == Max(255, s.id)
  {
    assert [s][..0] == [];
  }

  /** After `i` fills the next id is `i - 1` past the first new one. */
  lemma PartlyExpandedNextId(slides: seq<Slide>, t: nat, fills: seq<seq<Edit>>, i: nat)
    requires t < |slides| && 1 <= i <= |fills|
    ensures NextId(PartlyExpanded(slides, t, fills, i)) == NextId(slides) + i - 1
  {
    PartlyExpandedClosed(slides, t, fills, i);
    ExpandedUpToNextId(slides, t, fills, i);
  }

  lemma ExpandedUpToNextId(slides: seq<Slide>, t: nat, fills: seq<seq<Edit>>, i: nat)
    requires t < |slides| && 1 <= i <= |fills|
    ensures NextId(ExpandedUpTo(slides, t, fills, i)) == NextId(slides) + i - 1
  {
    var base := NextId(slides);
    var edited := Apply(slides[t], fills[0]);
    var news := NewSlides(base, slides[t].layout, fills[1..i]);
    var pre, post := slides[..t], slides[t + 1..];
    ApplyKeepsIdentity(slides[t], fills[0]);
    assert slides == pre + [slides[t]] + [] + post;
    HighestIdParts(pre, slides[t], [], post);
    HighestIdParts(pre, edited, news, post);
    assert HighestId([]) == 255;
    HighestIdNewSlides(base, slides[t].layout, fills[1..i]);
  }

  lemma HighestIdParts(a: seq<Slide>, x: Slide, m: seq<Slide>, b: seq<Slide>)
    ensures HighestId(a + [x] + m + b) == Max(Max(Max(HighestId(a), Max(255, x.id)), HighestId(m)), HighestId(b))
  {
    HighestIdConcat(a + [x] + m, b);
    HighestIdConcat(a + [x], m);
    HighestIdConcat(a, [x]);
    HighestIdSingle(x);
  }

  /**
   * The slide `add_slide` appends is found last by its fresh id, so moving it to `t + i` inserts
   * it there.
   */
  lemma MoveAppended(cur: seq<Slide>, blank: Slide, k: nat)
    requires forall j :: 0 <= j < |cur| ==> cur[j].id < blank.id
    ensures Moved(cur + [blank], blank.id, k) == InsertAt(cur, k, blank)
  {
    PositionOfLast(cur, blank);
    assert Without(cur + [blank], |cur|) == cur;
  }

  lemma PositionOfLast(cur: seq<Slide>, blank: Slide)
    requires forall j :: 0 <= j < |cur| ==> cur[j].id < blank.id
    ensures PositionOf(cur + [blank], blank.id) == Some(|cur|)
  {
    assert (cur + [blank])[|cur|].id == blank.id;
    assert forall j :: 0 <= j < |cur| ==> (cur + [blank])[j] == cur[j];
  }

  lemma InsertAfterPrefix(a: seq<Slide>, b: seq<Slide>, y: Slide)
    ensures InsertAt(a + b, |a|, y) == a + [y] + b
  {
    if |a| < |a + b| {
      assert (a + b)[..|a|] == a && (a + b)[|a|..] == b;
    } else {
      assert b == [];
    }
  }

  lemma InsertAtUpdate(xs: seq<Slide>, k: nat, x: Slide, y: Slide)
    requires k <= |xs|
    ensures InsertAt(xs, k, x)[k := y] == InsertAt(xs, k, y)
  {
  }

  lemma PartlyExpandedAll(slides: seq<Slide>, t: nat, fills: seq<seq<Edit>>)
    requires t < |slides| && 1 <= |fills|
    ensures PartlyExpanded(slides, t, fills, |fills|) == Expanded(slides, t, fills)
  {
    PartlyExpandedClosed(slides, t, fills, |fills|);
  }

  /**
   * An expansion with n fills adds n - 1 slides: the slides before the template are untouched,
   * the template is filled with fill 0, fill i sits at `t + i`, and every later slide moves
   * exactly n - 1 places.
   */
  lemma ExpandedShape(slides: seq<Slide>, t: nat, fills: seq<seq<Edit>>)
    requires t < |slides| && fills != []
    ensures |Expanded(slides, t, fills)| == |slides| + |fills| - 1
    ensures Expanded(slides, t, fills)[..t] == slides[..t]
    ensures Expanded(slides, t, fills)[t] == Apply(slides[t], fills[0])
    ensures forall i :: 1 <= i < |fills| ==>
              Expanded(slides, t, fills)[t + i] == Apply(NewSlide(NextId(slides) + i - 1, slides[t].layout), fills[i])
    ensures forall j :: t < j < |slides| ==> Expanded(slides, t, fills)[j + |fills| - 1] == slides[j]
  {
    ExpandedHead(slides, t, fills);
    forall i | 1 <= i < |fills|
      ensures Expanded(slides, t, fills)[t + i] == Apply(NewSlide(NextId(slides) + i - 1, slides[t].layout), fills[i])
    {
      ExpandedNewAt(slides, t, fills, i);
    }
    forall j | t < j < |slides|
      ensures Expanded(slides, t, fills)[j + |fills| - 1] == slides[j]
    {
      ExpandedRestAt(slides, t, fills, j);
    }
  }

  lemma ExpandedHead(slides: seq<Slide>, t: nat, fills: seq<seq<Edit>>)
    requires t < |slides| && fills != []
    ensures |Expanded(slides, t, fills)| == |slides| + |fills| - 1
    ensures Expanded(slides, t, fills)[..t] == slides[..t]
    ensures Expanded(slides, t, fills)[t] == Apply(slides[t], fills[0])
  {
    var a := slides[..t] + [Apply(slides[t], fills[0])];
    var news := NewSlides(NextId(slides), slides[t].layout, fills[1..]);
    var b := slides[t + 1..];
    assert Expanded(slides, t, fills) == a + news + b;
    ThreeParts(a, news, b);
    assert a[..t] == slides[..t];
  }

  lemma ExpandedNewAt(slides: seq<Slide>, t: nat, fills: seq<seq<Edit>>, i: nat)
    requires t < |slides| && 1 <= i < |fills|
    ensures Expanded(slides, t, fills)[t + i] == Apply(NewSlide(NextId(slides) + i - 1, slides[t].layout), fills[i])
  {
    var a := slides[..t] + [Apply(slides[t], fills[0])];
    var news := NewSlides(NextId(slides), slides[t].layout, fills[1..]);
    var b := slides[t + 1..];
    assert Expanded(slides, t, fills) == a + news + b;
    MiddleAt(a, news, b, i - 1);
    assert fills[1..][i - 1] == fills[i];
  }

  lemma ExpandedRestAt(slides: seq<Slide>, t: nat, fills: seq<seq<Edit>>, j: nat)
    requires t < |slides| && fills != [] && t < j < |slides|
    ensures Expanded(slides, t, fills)[j + |fills| - 1] == slides[j]
  {
    var a := slides[..t] + [Apply(slides[t], fills[0])];
    var news := NewSlides(NextId(slides), slides[t].layout, fills[1..]);
    var b := slides[t + 1..];
    assert Expanded(slides, t, fills) == a + news + b;
    LastAt(a, news, b, j - t - 1);
  }

  lemma ThreeParts<T>(a: seq<T>, m: seq<T>, b: seq<T>)
    ensures (a + m + b)[..|a|] == a
  {
  }

  lemma MiddleAt<T>(a: seq<T>, m: seq<T>, b: seq<T>, i: nat)
    requires i < |m|
    ensures (a + m + b)[|a| + i] == m[i]
  {
  }

  lemma LastAt<T>(a: seq<T>, m: seq<T>, b: seq<T>, j: nat)
    requires j < |b|
    ensures (a + m + b)[|a| + |m| + j] == b[j]
  {
  }

  lemma ExpandedNewSlides(slides: seq<Slide>, t: nat, fills: seq<seq<Edit>>, i: nat)
    requires t < |slides| && 1 <= i < |fills|
    ensures Expanded(slides, t, fills)[t + i].layout == slides[t].layout
    ensures Expanded(slides, t, fills)[t + i].id == NextId(slides) + i - 1
    ensures forall j :: 0 <= j < |slides| ==> Expanded(slides, t, fills)[t + i].id != slides[j].id
  {
    ExpandedShape(slides, t, fills);
    ApplyKeepsIdentity(NewSlide(NextId(slides) + i - 1, slides[t].layout), fills[i]);
    NextIdFresh(slides);
  }

  // ---------------------------------------------------------------- the presentation

  /** A loaded presentation (`Presentation(template_path)`), its slides in `_sldIdLst` order. */
  class Presentation {
    var slides: seq<Slide>

    constructor (slides: seq<Slide>)
      ensures this.slides == slides
    {
      this.slides := slides;
    }

    /** `edit_text_field`. */
    method EditTextField(slideIndex: nat, newText: string, isTitle: bool, shapeName: Option<string>,
                         phIndex: Option<int>, alignCenter: bool)
      modifies this
      ensures slides == EditedSlides(old(slides), slideIndex,
                                     Edit(TargetOf(isTitle, shapeName, phIndex), newText, alignCenter))
    {
      if slideIndex >= |slides| {
        return;
      }
      var slide := slides[slideIndex];
      var target := TargetOf(isTitle, shapeName, phIndex);
      var k := 0;
      while k < |slide.shapes| && !Candidate(target, slide.shapes[k])
        invariant k <= |slide.shapes|
        invariant forall j :: 0 <= j < k ==> !Candidate(target, slide.shapes[j])
      {
        k := k + 1;
      }
      if k < |slide.shapes| && slide.shapes[k].frame.Some? {
        ResolvedShapeIsFirst(slide.shapes, target, k);
        var shape := slide.shapes[k].(frame := Some(WrittenFrame(newText, alignCenter)));
        slides := slides[slideIndex := slide.(shapes := slide.shapes[k := shape])];
      } else {
        assert ResolvedShape(slide.shapes, target).None? by {
          if k < |slide.shapes| {
            assert FirstCandidate(slide.shapes, target) == Some(k);
          }
        }
      }
    }

    /** `prs.slides.add_slide(layout)`: a slide with the next id and the layout's placeholders, last. */
    method AddSlide(layout: Layout) returns (newSlide: Slide)
      modifies this
      ensures newSlide == NewSlide(NextId(old(slides)), layout)
      ensures slides == old(slides) + [newSlide]
    {
      newSlide := NewSlide(NextId(slides), layout);
      slides := slides + [newSlide];
    }

    /** The search of `_sldIdLst` for the first entry with the id. */
    method FindSlide(id: nat) returns (position: Option<nat>)
      ensures position == PositionOf(slides, id)
    {
      var k := 0;
      while k < |slides| && slides[k].id != id
        invariant k <= |slides|
        invariant forall j :: 0 <= j < k ==> slides[j].id != id
      {
        k := k + 1;
      }
      if k == |slides| {
        position := None;
      } else {
        position := Some(k);
      }
    }

    /** `_insert_slide_at_index`. */
    method InsertSlideAtIndex(slideId: nat, targetIndex: nat)
      modifies this
      ensures slides == Moved(old(slides), slideId, targetIndex)
    {
      var position := FindSlide(slideId);
      if position.None? {
        return;
      }
      var k := position.value;
      var element := slides[k];
      slides := slides[..k] + slides[k + 1..];
      if targetIndex >= |slides| {
        slides := slides + [element];
      } else {
        slides := slides[..targetIndex] + [element] + slides[targetIndex..];
      }
    }

    /**
     * `add_slide(layout)` followed by `_insert_slide_at_index(prs, new_slide, index)`, the pair
     * every expansion step makes: the copy ends up at `index`.
     */
    method AddSlideAt(layout: Layout, index: nat) returns (newSlide: Slide)
      requires index <= |slides|
      modifies this
      ensures newSlide == NewSlide(NextId(old(slides)), layout)
      ensures slides == InsertAt(old(slides), index, newSlide)
    {
      ghost var before := slides;
      newSlide := AddSlide(layout);
      InsertSlideAtIndex(newSlide.id, index);
      NextIdFresh(before);
      MoveAppended(before, newSlide, index);
    }

    /** `add_slides_with_text`; the lookup of the template slide is unguarded in the source. */
    method AddSlidesWithText(templateSlideIndex: nat, textsForSlides: seq<string>, isTitleField: bool,
                             targetPhIndex: Option<int>, targetShapeName: Option<string>)
      returns (addedSlideCount: nat)
      requires textsForSlides != [] ==> templateSlideIndex < |slides|
      modifies this
      ensures var target := TargetOf(isTitleField, targetShapeName, targetPhIndex);
              slides == Expanded(old(slides), templateSlideIndex, TextFills(textsForSlides, target, true))
      ensures addedSlideCount == if textsForSlides == [] then 0 else |textsForSlides| - 1
      ensures |slides| == |old(slides)| + addedSlideCount
    {
      addedSlideCount := 0;
      if textsForSlides == [] {
        return;
      }
      ghost var initial := slides;
      var t := templateSlideIndex;
      var target := TargetOf(isTitleField, targetShapeName, targetPhIndex);
      ghost var fills := TextFills(textsForSlides, target, true);
      var slideLayout := slides[t].layout;
      EditTextField(t, textsForSlides[0], isTitleField, targetShapeName, targetPhIndex, true);
      TextFillsAt(textsForSlides, target, true, 0);
      EditedOnce(initial, t, fills[0], slides);
      for i := 1 to |textsForSlides|
        invariant slides == PartlyExpanded(initial, t, fills, i)
        invariant addedSlideCount == i - 1
      {
        ghost var current := slides;
        AddTextSlideAt(t + i, slideLayout, textsForSlides[i], isTitleField, targetShapeName, targetPhIndex);
        TextFillsAt(textsForSlides, target, true, i);
        ExpansionStep(initial, t, fills, i, current, slides);
        addedSlideCount := addedSlideCount + 1;
      }
      PartlyExpandedAll(initial, t, fills);
    }

    /**
     * One turn of the loop of `add_slides_with_text`: a copy of the template's layout placed at
     * `index`, found again by `prs.slides.index(new_slide)`, and its text written.
     */
    method AddTextSlideAt(index: nat, layout: Layout, text: string, isTitle: bool, shapeName: Option<string>,
                          phIndex: Option<int>)
      requires index <= |slides|
      modifies this
      ensures slides == InsertAt(old(slides), index, Apply(NewSlide(NextId(old(slides)), layout),
                                                           [Edit(TargetOf(isTitle, shapeName, phIndex), text, true)]))
    {
      ghost var current := slides;
      var newSlide := AddSlideAt(layout, index);
      NextIdFresh(current);
      InsertedFound(current, index, newSlide);
      ghost var placed := slides;
      var position := FindSlide(newSlide.id);
      EditTextField(position.value, text, isTitle, shapeName, phIndex, true);
      FilledAt(current, index, newSlide, [Edit(TargetOf(isTitle, shapeName, phIndex), text, true)], slides);
    }

    /** `add_lyrics_slides`: text 0 into the template, the others into copies, first frame, centred. */
    method AddLyricsSlides(duplicateSlideIndex: nat, slideTexts: seq<string>) returns (added: nat)
      requires slideTexts != [] ==> duplicateSlideIndex < |slides|
      modifies this
      ensures slides == Expanded(old(slides), duplicateSlideIndex, TextFills(slideTexts, FirstTextFrame, true))
      ensures added == if slideTexts == [] then 0 else |slideTexts| - 1
      ensures |slides| == |old(slides)| + added
    {
      added := AddSlidesWithText(duplicateSlideIndex, slideTexts, false, None, None);
    }

    /** `add_ads_slides`: each announcement's title and contents (placeholder 1), left-aligned. */
    method AddAdsSlides(adsList: seq<TitledItem>, templateSlideIndex: nat) returns (addedCount: nat)
      requires adsList != [] ==> templateSlideIndex < |slides|
      modifies this
      ensures slides == Expanded(old(slides), templateSlideIndex, ItemFills(adsList, AdsContentsIdx))
      ensures addedCount == if adsList == [] then 0 else |adsList| - 1
      ensures |slides| == |old(slides)| + addedCount
    {
      addedCount := AddItemSlides(adsList, templateSlideIndex, AdsContentsIdx);
    }

    /** `add_bible_slides`: each passage's title and contents (placeholder 10), left-aligned. */
    method AddBibleSlides(bibleContentsList: seq<TitledItem>, templateSlideIndex: nat) returns (addedCount: nat)
      requires bibleContentsList != [] ==> templateSlideIndex < |slides|
      modifies this
      ensures slides == Expanded(old(slides), templateSlideIndex, ItemFills(bibleContentsList, BibleContentsIdx))
      ensures addedCount == if bibleContentsList == [] then 0 else |bibleContentsList| - 1
      ensures |slides| == |old(slides)| + addedCount
    {
      addedCount := AddItemSlides(bibleContentsList, templateSlideIndex, BibleContentsIdx);
    }

    /** The loop `add_ads_slides` and `add_bible_slides` share, with the contents placeholder `idx`. */
    method AddItemSlides(items: seq<TitledItem>, templateSlideIndex: nat, idx: int) returns (addedCount: nat)
      requires items != [] ==> templateSlideIndex < |slides|
      modifies this
      ensures slides == Expanded(old(slides), templateSlideIndex, ItemFills(items, idx))
      ensures addedCount == if items == [] then 0 else |items| - 1
      ensures |slides| == |old(slides)| + addedCount
    {
      addedCount := 0;
      if items == [] {
        return;
      }
      ghost var initial := slides;
      var t := templateSlideIndex;
      ghost var fills := ItemFills(items, idx);
      var slideLayout := slides[t].layout;
      for i := 0 to |items|
        invariant i >= 1 ==> slides == PartlyExpanded(initial, t, fills, i)
        invariant i == 0 ==> slides == initial
        invariant addedCount == if i == 0 then 0 else i - 1
      {
        ghost var current := slides;
        var added := AddItemSlide(i, t, slideLayout, items[i], idx);
        addedCount := addedCount + added;
        ItemFillsAt(items, idx, i);
        if i == 0 {
          assert slides == PartlyExpanded(initial, t, fills, 1);
        } else {
          ExpansionStep(initial, t, fills, i, current, slides);
        }
      }
      PartlyExpandedAll(initial, t, fills);
    }

    /**
     * One turn of the loop of `add_ads_slides` / `add_bible_slides`: item 0 goes into the template
     * at `t`, item `i > 0` into a copy of its layout inserted at `t + i`; the copy is counted.
     */
    method AddItemSlide(i: nat, t: nat, layout: Layout, item: TitledItem, idx: int) returns (added: nat)
      requires i == 0 ==> t < |slides|
      requires i > 0 ==> t + i <= |slides|
      modifies this
      ensures added == if i == 0 then 0 else 1
      ensures i == 0 ==> slides == old(slides)[t := Apply(old(slides)[t], ItemFill(item, idx))]
      ensures i > 0 ==> slides == InsertAt(old(slides), t + i, Apply(NewSlide(NextId(old(slides)), layout),
                                                                     ItemFill(item, idx)))
    {
      ghost var before := slides;
      ghost var copy := NewSlide(NextId(before), layout);
      var currentSlideIndexForEditing: nat;
      added := 0;
      if i == 0 {
        currentSlideIndexForEditing := t;
      } else {
        var newSlideObj := AddSlideAt(layout, t + i);
        currentSlideIndexForEditing := t + i;
        added := 1;
      }
      ghost var placed := slides;
      FillItem(currentSlideIndexForEditing, item, idx);
      if i > 0 {
        assert placed[t + i] == copy;
        InsertAtUpdate(before, t + i, copy, Apply(copy, ItemFill(item, idx)));
      }
    }

    /** The two `edit_text_field` calls of one item: its title, then its contents into `idx`. */
    method FillItem(index: nat, item: TitledItem, idx: int)
      requires index < |slides|
      modifies this
      ensures slides == old(slides)[index := Apply(old(slides)[index], ItemFill(item, idx))]
    {
      ghost var before := slides;
      EditTextField(index, item.title.GetOr(""), true, None, None, false);
      EditTextField(index, item.contents.GetOr(""), false, None, Some(idx), false);
      EditedTwice(before, index, ItemFill(item, idx), slides);
    }
  }

  /** The copy filled at the index its id is found at is the filled copy inserted there. */
  lemma FilledAt(current: seq<Slide>, k: nat, newSlide: Slide, fill: seq<Edit>, filled: seq<Slide>)
    requires k <= |current| && |fill| == 1
    requires filled == EditedSlides(InsertAt(current, k, newSlide), k, fill[0])
    ensures filled == InsertAt(current, k, Apply(newSlide, fill))
  {
    EditedOnce(InsertAt(current, k, newSlide), k, fill, filled);
    InsertAtUpdate(current, k, newSlide, Apply(newSlide, fill));
  }

  /** A turn of the text loop takes the loop state after `i` fills to the state after `i + 1`. */
  lemma ExpansionStep(initial: seq<Slide>, t: nat, fills: seq<seq<Edit>>, i: nat,
                      current: seq<Slide>, next: seq<Slide>)
    requires t < |initial| && 1 <= i < |fills|
    requires current == PartlyExpanded(initial, t, fills, i)
    requires next == InsertAt(current, t + i, Apply(NewSlide(NextId(current), initial[t].layout), fills[i]))
    ensures next == PartlyExpanded(initial, t, fills, i + 1)
  {
    PartlyExpandedNextId(initial, t, fills, i);
  }

  /** One `edit_text_field` call is the fill of one edit. */
  lemma EditedOnce(slides: seq<Slide>, k: nat, fill: seq<Edit>, edited: seq<Slide>)
    requires k < |slides| && |fill| == 1
    requires edited == EditedSlides(slides, k, fill[0])
    ensures edited == slides[k := Apply(slides[k], fill)]
  {
    ApplyOne(slides[k], fill);
  }

  /** Two `edit_text_field` calls on one slide are the fill of two edits. */
  lemma EditedTwice(slides: seq<Slide>, k: nat, fill: seq<Edit>, edited: seq<Slide>)
    requires k < |slides| && |fill| == 2
    requires edited == EditedSlides(EditedSlides(slides, k, fill[0]), k, fill[1])
    ensures edited == slides[k := Apply(slides[k], fill)]
  {
    ApplyTwo(slides[k], fill);
  }

  /** The inserted slide is the one `prs.slides.index(new_slide)` finds, since its id is fresh. */
  lemma InsertedFound(slides: seq<Slide>, k: nat, s: Slide)
    requires k <= |slides|
    requires forall j :: 0 <= j < |slides| ==> slides[j].id < s.id
    ensures PositionOf(InsertAt(slides, k, s), s.id) == Some(k)
  {
    var r := InsertAt(slides, k, s);
    WithoutInsertAt(slides, k, s);
    assert forall j :: 0 <= j < k ==> r[j] == slides[j];
  }

  lemma ApplyOne(slide: Slide, fill: seq<Edit>)
    requires |fill| == 1
    ensures Apply(slide, fill) == EditSlide(slide, fill[0])
  {
    assert fill[1..] == [];
  }

  lemma ApplyTwo(slide: Slide, fill: seq<Edit>)
    requires |fill| == 2
    ensures Apply(slide, fill) == EditSlide(EditSlide(slide, fill[0]), fill[1])
  {
    var once := EditSlide(slide, fill[0]);
    assert Apply(slide, fill) == Apply(once, fill[1..]);
    assert fill[1..][0] == fill[1] && fill[1..][1..] == [];
    assert Apply(once, fill[1..]) == Apply(EditSlide(once, fill[1]), []);
  }
}
