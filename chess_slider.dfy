/** The rotating showcase of chess pieces: a fixed list of six slides and one
    mutable index, advanced by a timer or by the arrows, retreated by the
    arrows, and set directly by the indicator dots. */
module ChessSlider {
  import opened JsText

  datatype Slide = Slide(
    id: int,
    title: string,
    number: string,
    description: string,
    image: string,
    viewText: string)

  /** The slides, in display order, pawn to king. */
  const Slides: seq<Slide> := [
    Slide(1, "The Pawn", "01.", "Each side has 8 Pawns", "images/pawn.png", "View White"),
    Slide(2, "The Knight", "02.", "Each side has 2 Knights", "images/knight.png", "View Black"),
    Slide(3, "The Bishop", "03.", "Each side has 2 Bishops", "images/bishop.png", "View White"),
    Slide(4, "The Rook", "04.", "Each side has 2 Rooks", "images/rook.png", "View Black"),
    Slide(5, "The Queen", "05.", "Each side has 1 Queen", "images/queen.png", "View White"),
    Slide(6, "The King", "06.", "Each side has 1 King", "images/king.png", "View Black")
  ]

  /** `(prev + 1) % slides.length`. The dividend is never negative, so
      JavaScript's truncating `%` and Dafny's Euclidean `%` agree. */
  function NextIndex(i: int): (r: int)
    requires 0 <= i < |Slides|
    ensures 0 <= r < |Slides|
    ensures r == if i == |Slides| - 1 then 0 else i + 1
  {
    (i + 1) % |Slides|
  }

  /** `(prev - 1 + slides.length) % slides.length`: adding the length first
      keeps the dividend non-negative, so index 0 wraps to the last slide. */
  function PrevIndex(i: int): (r: int)
    requires 0 <= i < |Slides|
    ensures 0 <= r < |Slides|
    ensures r == if i == 0 then |Slides| - 1 else i - 1
  {
    (i - 1 + |Slides|) % |Slides|
  }

  /** Advancing and retreating undo each other, in either order. */
  lemma NextPrevInverse(i: int)
    requires 0 <= i < |Slides|
    ensures PrevIndex(NextIndex(i)) == i
    ensures NextIndex(PrevIndex(i)) == i
  {
  }

  /** The index after `k` advances (timer ticks or clicks on "next"). */
  function AdvanceTimes(i: int, k: nat): (r: int)
    requires 0 <= i < |Slides|
    ensures 0 <= r < |Slides|
  {
    if k == 0 then i else NextIndex(AdvanceTimes(i, k - 1))
  }

  /** `k` advances move the index `k` places round the cycle of slides. */
  lemma {:induction false} AdvanceTimesRotates(i: int, k: nat)
    requires 0 <= i < |Slides|
    ensures AdvanceTimes(i, k) == (i + k) % |Slides|
  {
    if k > 0 {
      AdvanceTimesRotates(i, k - 1);
      var before := AdvanceTimes(i, k - 1);
      assert before == (i + k - 1) % 6;
      assert NextIndex(before) == (before + 1) % 6;
    }
  }

  /** Advancing once per slide comes back to the starting slide. */
  lemma FullCycle(i: int)
    requires 0 <= i < |Slides|
    ensures AdvanceTimes(i, |Slides|) == i
  {
  }

  /** The fallback glyph shown when a slide's image fails to load:
      `title.split(' ')[1]?.charAt(0) || '?'`. It is the character right
      after the first space, unless there is no space or that character is
      itself a space or missing (the second token is then empty). */
  function Glyph(title: string): (c: char)
    ensures ' ' !in title ==> c == '?'
    ensures forall p :: 0 <= p < |title| && title[p] == ' ' && ' ' !in title[..p] ==>
      c == if p + 1 < |title| && title[p + 1] != ' ' then title[p + 1] else '?'
  {
    SecondToken(title, ' ');
    var parts := Split(title, ' ');
    if |parts| >= 2 && |parts[1]| > 0 then parts[1][0] else '?'
  }

  /** A title of the form "The X…" yields the glyph X. */
  lemma GlyphAfterArticle(title: string)
    requires |title| > 4 && title[..4] == "The " && title[4] != ' '
    ensures Glyph(title) == title[4]
  {
    assert title[3] == ' ' && title[..3] == "The";
  }

  /** The six titles give the glyphs P, K, B, R, Q, K. */
  lemma SlideGlyph(k: int)
    requires 0 <= k < |Slides|
    ensures Glyph(Slides[k].title) == "PKBRQK"[k]
  {
    var title := Slides[k].title;
    assert |title| > 4 && title[..4] == "The " && title[4] == "PKBRQK"[k];
    GlyphAfterArticle(title);
  }

  /** The indicator dots: `slides.map((_, index) => index === currentSlide)`. */
  function IndicatorRow(current: int): (row: seq<bool>)
    ensures |row| == |Slides|
  {
    seq(|Slides|, index => index == current)
  }

  /** With the index in range, exactly one dot is lit, the current one. */
  lemma ExactlyOneIndicator(current: int)
    requires 0 <= current < |Slides|
    ensures (set index | 0 <= index < |Slides| && IndicatorRow(current)[index]) == {current}
    ensures |set index | 0 <= index < |Slides| && IndicatorRow(current)[index]| == 1
  {
  }

  /** The component's state: the index of the slide in the middle. */
  class Carousel {
    var currentSlide: int

    ghost predicate Valid()
      reads this
    {
      0 <= currentSlide < |Slides|
    }

    /** Mounting starts at the first slide. */
    constructor ()
      ensures Valid() && currentSlide == 0
    {
      currentSlide := 0;
    }

    function Current(): (s: Slide)
      reads this
      requires Valid()
      ensures s in Slides
    {
      Slides[currentSlide]
    }

    /** The preview on the left: the slide before the current one, cyclically. */
    function GetPrevSlide(): (s: Slide)
      reads this
      requires Valid()
      ensures s == Slides[if currentSlide == 0 then |Slides| - 1 else currentSlide - 1]
    {
      Slides[PrevIndex(currentSlide)]
    }

    /** The preview on the right: the slide after the current one, cyclically. */
    function GetNextSlide(): (s: Slide)
      reads this
      requires Valid()
      ensures s == Slides[if currentSlide == |Slides| - 1 then 0 else currentSlide + 1]
    {
      Slides[NextIndex(currentSlide)]
    }

    /** The text shown in place of the current slide's image when it fails to load. */
    function FallbackGlyph(): (c: char)
      reads this
      requires Valid()
      ensures c == "PKBRQK"[currentSlide]
    {
      SlideGlyph(currentSlide);
      Glyph(Slides[currentSlide].title)
    }

    /** The "next" arrow and the right-hand preview. */
    method NextSlide()
      requires Valid()
      modifies this
      ensures Valid()
      ensures currentSlide == NextIndex(old(currentSlide))
      ensures Current() == old(GetNextSlide())
      ensures GetPrevSlide() == old(Current())
    {
      currentSlide := (currentSlide + 1) % |Slides|;
    }

    /** One firing of the auto-advance timer: the same update as `NextSlide`. */
    method Tick()
      requires Valid()
      modifies this
      ensures Valid()
      ensures currentSlide == NextIndex(old(currentSlide))
    {
      currentSlide := (currentSlide + 1) % |Slides|;
    }

    /** The "previous" arrow and the left-hand preview. */
    method PrevSlide()
      requires Valid()
      modifies this
      ensures Valid()
      ensures currentSlide == PrevIndex(old(currentSlide))
      ensures Current() == old(GetPrevSlide())
      ensures GetNextSlide() == old(Current())
    {
      currentSlide := (currentSlide - 1 + |Slides|) % |Slides|;
    }

    /** A click on indicator dot `index`; the dots are the only callers, so
        `index` is a position in the list. */
    method GoToSlide(index: int)
      requires Valid()
      requires 0 <= index < |Slides|
      modifies this
      ensures Valid()
      ensures currentSlide == index
      ensures Current() == Slides[index]
      ensures IndicatorRow(currentSlide)[index]
    {
      currentSlide := index;
    }

    /** `k` successive timer firings with no other interaction. */
    method ElapseTicks(k: nat)
      requires Valid()
      modifies this
      ensures Valid()
      ensures currentSlide == AdvanceTimes(old(currentSlide), k)
      ensures currentSlide == (old(currentSlide) + k) % |Slides|
    {
      var fired := 0;
      while fired < k
        invariant 0 <= fired <= k
        invariant Valid()
        invariant currentSlide == AdvanceTimes(old(currentSlide), fired)
      {
        Tick();
        fired := fired + 1;
      }
      AdvanceTimesRotates(old(currentSlide), k);
    }
  }

  /** From mount, three advances show the rook. */
  method AdvanceThreeFromMount() returns (title: string)
    ensures title == "The Rook"
  {
    var carousel := new Carousel();
    carousel.NextSlide();
    carousel.NextSlide();
    carousel.NextSlide();
    title := carousel.Current().title;
  }

  /** From mount, one retreat wraps round to the king. */
  method RetreatFromMount() returns (title: string)
    ensures title == "The King"
  {
    var carousel := new Carousel();
    carousel.PrevSlide();
    title := carousel.Current().title;
  }

  /** From mount, three timer firings and nothing else show the rook. */
  method ThreeTicksFromMount() returns (title: string)
    ensures title == "The Rook"
  {
    var carousel := new Carousel();
    carousel.ElapseTicks(3);
    title := carousel.Current().title;
  }
}
