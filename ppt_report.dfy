/**
 * `create_ppt` of auto_report/report.py: the graphs-only slide deck. A
 * presentation is an object whose list of slides grows one slide at a time;
 * each slide is modelled by its title text, the point size of that title and
 * the picture placed on it. Images are opaque PNG bytes. Text-box and picture
 * geometry, the blank layout and the writing of the file are not modelled.
 */
module PptReport {
  import opened Wrappers
  import opened Paths

  /** An in-memory PNG image, opaque to the report. */
  datatype Image = Image(bytes: seq<bv8>)

  /** A slide: its title, the title's size in points, and the picture on it, if any. */
  datatype Slide = Slide(title: string, titlePt: nat, picture: Option<Image>)

  const DefaultPptName: string := "graph_report.pptx"
  const DeckTitle: string := "Graphical Analysis Report"
  const HeatmapTitle: string := "Correlation Heatmap"
  const DistributionPrefix: string := "Distribution: "
  const DeckTitlePt: nat := 48
  const SlideTitlePt: nat := 36

  /** A `python-pptx` presentation: the slides added so far, in order. */
  class Presentation {
    var slides: seq<Slide>

    /** `Presentation()`: a new deck with no slides. */
    constructor ()
      ensures slides == []
    {
      slides := [];
    }

    /** `prs.slides.add_slide(...)` followed by filling the slide in: the slide goes last. */
    method AddSlide(s: Slide)
      modifies this
      ensures slides == old(slides) + [s]
    {
      slides := slides + [s];
    }
  }

  /** The title slide. */
  function TitleSlide(): (s: Slide)
    ensures s.picture.None? && s.titlePt == DeckTitlePt
  {
    Slide(DeckTitle, DeckTitlePt, None)
  }

  /** The heatmap slide. */
  function HeatmapSlide(heatmap: Image): (s: Slide)
    ensures s.picture == Some(heatmap) && s.titlePt == SlideTitlePt
  {
    Slide(HeatmapTitle, SlideTitlePt, Some(heatmap))
  }

  /** The slide for one `(col, img)` pair of `plot_images`. */
  function DistributionSlide(col: string, img: Image): (s: Slide)
    ensures s.picture == Some(img)
    ensures DistributionPrefix <= s.title && s.title[|DistributionPrefix|..] == col
  {
    Slide(DistributionPrefix + col, SlideTitlePt, Some(img))
  }

  /** One distribution slide per plot, in the list's order. */
  function DistributionSlides(plotImages: seq<(string, Image)>): (slides: seq<Slide>)
    ensures |slides| == |plotImages|
  {
    seq(|plotImages|, k requires 0 <= k < |plotImages| => DistributionSlide(plotImages[k].0, plotImages[k].1))
  }

  /** The slide list `create_ppt(plot_images, heatmap, ...)` saves. */
  function DeckSlides(plotImages: seq<(string, Image)>, heatmap: Option<Image>): (deck: seq<Slide>)
    ensures |deck| == (if heatmap.Some? then 2 else 1) + |plotImages|
    ensures deck[0] == TitleSlide()
  {
    [TitleSlide()]
    + (match heatmap case None => [] case Some(h) => [HeatmapSlide(h)])
    + DistributionSlides(plotImages)
  }

  lemma DistributionSlidesStep(plotImages: seq<(string, Image)>, i: nat)
    requires i < |plotImages|
    ensures DistributionSlides(plotImages[..i + 1])
      == DistributionSlides(plotImages[..i]) + [DistributionSlide(plotImages[i].0, plotImages[i].1)]
  {
  }

  /** `for col, img in plot_images:` adding one distribution slide per plot, in order. */
  method AddDistributionSlides(prs: Presentation, plotImages: seq<(string, Image)>)
    modifies prs
    ensures prs.slides == old(prs.slides) + DistributionSlides(plotImages)
  {
    ghost var head := prs.slides;
    for i := 0 to |plotImages|
      invariant prs.slides == head + DistributionSlides(plotImages[..i])
    {
      var (col, img) := plotImages[i];
      DistributionSlidesStep(plotImages, i);
      prs.AddSlide(DistributionSlide(col, img));
    }
    assert plotImages[..|plotImages|] == plotImages;
  }

  /** `create_ppt(plot_images, heatmap, folder_path, filename)`: returns the
      path `os.path.join(folder_path, filename)` and the presentation saved there. */
  method CreatePpt(plotImages: seq<(string, Image)>, heatmap: Option<Image>, folderPath: string, filename: string := DefaultPptName)
    returns (pptPath: string, prs: Presentation)
    ensures fresh(prs)
    ensures pptPath == JoinPath(folderPath, filename)
    ensures prs.slides == DeckSlides(plotImages, heatmap)
  {
    prs := new Presentation();
    pptPath := JoinPath(folderPath, filename);

    prs.AddSlide(TitleSlide());

    if heatmap.Some? {
      prs.AddSlide(HeatmapSlide(heatmap.value));
    }
    ghost var head := prs.slides;
    assert head == [TitleSlide()] + (match heatmap case None => [] case Some(h) => [HeatmapSlide(h)]);

    AddDistributionSlides(prs, plotImages);
  }

  /** The deck has `1 + (heatmap ? 1 : 0) + |plot_images|` slides: the
      48 pt title slide first, then the heatmap slide only when a heatmap is
      given, then one 36 pt `Distribution: {col}` slide with its image per
      entry of `plot_images`, in the list's order. */
  lemma DeckLayout(plotImages: seq<(string, Image)>, heatmap: Option<Image>)
    ensures var deck := DeckSlides(plotImages, heatmap);
      var offset := if heatmap.Some? then 2 else 1;
      && |deck| == offset + |plotImages|
      && deck[0] == Slide(DeckTitle, DeckTitlePt, None)
      && (heatmap.Some? ==> deck[1] == Slide(HeatmapTitle, SlideTitlePt, heatmap))
      && forall k :: 0 <= k < |plotImages| ==>
           deck[offset + k] == Slide(DistributionPrefix + plotImages[k].0, SlideTitlePt, Some(plotImages[k].1))
  {
  }

  /** The pictures of a deck, slide by slide. */
  function Pictures(deck: seq<Slide>): seq<Image> {
    if deck == [] then []
    else (match deck[0].picture case None => [] case Some(img) => [img]) + Pictures(deck[1..])
  }

  lemma {:induction false} PicturesAppend(a: seq<Slide>, b: seq<Slide>)
    ensures Pictures(a + b) == Pictures(a) + Pictures(b)
  {
    if a == [] {
      assert a + b == b;
    } else {
      assert (a + b)[0] == a[0] && (a + b)[1..] == a[1..] + b;
      PicturesAppend(a[1..], b);
    }
  }

  /** The images of the distribution slides, in order. */
  lemma {:induction false} PicturesOfDistributionSlides(plotImages: seq<(string, Image)>)
    ensures Pictures(DistributionSlides(plotImages)) == seq(|plotImages|, k requires 0 <= k < |plotImages| => plotImages[k].1)
  {
    if plotImages != [] {
      var slides := DistributionSlides(plotImages);
      assert slides[1..] == DistributionSlides(plotImages[1..]);
      PicturesOfDistributionSlides(plotImages[1..]);
    }
  }

  /** Every image handed to `create_ppt` ends up in the deck exactly once and
      in order: the heatmap, if any, then the plots in the list's order. The
      title slide has no picture. */
  lemma DeckPictures(plotImages: seq<(string, Image)>, heatmap: Option<Image>)
    ensures Pictures(DeckSlides(plotImages, heatmap))
      == (match heatmap case None => [] case Some(h) => [h])
         + seq(|plotImages|, k requires 0 <= k < |plotImages| => plotImages[k].1)
  {
    var heatSlides: seq<Slide> := match heatmap case None => [] case Some(h) => [HeatmapSlide(h)];
    var dist := DistributionSlides(plotImages);
    PicturesAppend([TitleSlide()] + heatSlides, dist);
    PicturesAppend([TitleSlide()], heatSlides);
    assert Pictures([TitleSlide()]) == [] by {
      assert [TitleSlide()][1..] == [];
    }
    if heatmap.Some? {
      assert Pictures(heatSlides) == [heatmap.value] by {
        assert heatSlides[1..] == [];
      }
    }
    PicturesOfDistributionSlides(plotImages);
  }

  /** Called with the default name, the deck is written as `graph_report.pptx` in the folder. */
  lemma DefaultPptPath(folderPath: string)
    ensures Basename(JoinPath(folderPath, DefaultPptName)) == DefaultPptName
  {
    assert Sep !in DefaultPptName;
    BasenameOfJoin(folderPath, DefaultPptName);
  }
}
