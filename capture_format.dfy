/**
 * Capture formats and the format-selection policy of the capture controller:
 * starting from the first format, scan every format once and switch to a
 * format only if its pixel count is strictly larger than the current choice's
 * AND its maximum frame rate is strictly above 29.
 */
module CaptureFormat {
  import opened Wrappers
  import opened FrameRate

  /** The platform's 32-bit signed integer, used for video dimensions and their product. */
  newtype int32 = x: int | -0x8000_0000 <= x < 0x8000_0000

  datatype Dimensions = Dimensions(width: int32, height: int32)

  /** A capture format: its resolution and its supported frame-rate ranges. */
  datatype Format = Format(dimensions: Dimensions, ranges: seq<FrameRateRange>)

  /** height × width, as a mathematical integer. */
  function PixelCount(f: Format): int
  {
    f.dimensions.height as int * f.dimensions.width as int
  }

  /** The 32-bit product height × width does not overflow (Swift traps when it does). */
  predicate PixelCountFits(f: Format)
  {
    -0x8000_0000 <= PixelCount(f) < 0x8000_0000
  }

  predicate FormatsFit(formats: seq<Format>)
  {
    forall i :: 0 <= i < |formats| ==> PixelCountFits(formats[i])
  }

  /** The frame-rate half of the replacement test: the format can stay above 29 fps. */
  predicate Qualifies(f: Format)
  {
    MaxFrameRate(f.ranges) > 29.0
  }

  /** Formats that can end up selected: the first one, and every one that passes the rate test. */
  predicate Candidate(formats: seq<Format>, j: nat)
    requires j < |formats|
  {
    j == 0 || Qualifies(formats[j])
  }

  /**
   * Index of the format selected after the scan has visited formats[..k].
   * This is the loop of the source, step by step, as a left fold.
   */
  function SelectedAfter(formats: seq<Format>, k: nat): (s: nat)
    requires formats != [] && k <= |formats|
    ensures s < |formats|
    ensures s == 0 || s < k
    decreases k
  {
    if k == 0 then 0
    else
      var s := SelectedAfter(formats, k - 1);
      if PixelCount(formats[k - 1]) > PixelCount(formats[s]) && Qualifies(formats[k - 1]) then k - 1 else s
  }

  /** Index of the format the scan returns. */
  function PreferredIndex(formats: seq<Format>): nat
    requires formats != []
  {
    SelectedAfter(formats, |formats|)
  }

  /**
   * Within formats[..k], `s` is the earliest candidate of largest pixel count:
   * every candidate is no larger, and every earlier candidate is strictly smaller.
   */
  ghost predicate BestIn(formats: seq<Format>, k: nat, s: nat)
    requires k <= |formats|
  {
    s < k &&
    Candidate(formats, s) &&
    (forall j :: 0 <= j < k && Candidate(formats, j) ==> PixelCount(formats[j]) <= PixelCount(formats[s])) &&
    (forall j :: 0 <= j < s && Candidate(formats, j) ==> PixelCount(formats[j]) < PixelCount(formats[s]))
  }

  /** The declarative statement of the policy over the whole list. */
  ghost predicate IsPreferredIndex(formats: seq<Format>, i: nat)
  {
    BestIn(formats, |formats|, i)
  }

  /** Each prefix of the scan ends on the earliest largest candidate of that prefix. */
  lemma {:induction false} SelectedAfterIsBest(formats: seq<Format>, k: nat)
    requires formats != [] && 1 <= k <= |formats|
    ensures BestIn(formats, k, SelectedAfter(formats, k))
  {
    if k > 1 {
      SelectedAfterIsBest(formats, k - 1);
    }
  }

  /** The scan computes exactly the index the declarative policy describes, and no other. */
  lemma PreferredIndexCharacterized(formats: seq<Format>, i: nat)
    requires formats != []
    ensures IsPreferredIndex(formats, i) <==> i == PreferredIndex(formats)
  {
    var p := PreferredIndex(formats);
    SelectedAfterIsBest(formats, |formats|);
  }

  /**
   * The selected format is the first one unless it passes the rate test: a
   * format whose best rate is 29 or less, in particular one with no frame-rate
   * ranges at all, never replaces the first.
   */
  lemma ReplacementNeedsRateAbove29(formats: seq<Format>)
    requires formats != []
    ensures var i := PreferredIndex(formats);
            i != 0 ==> MaxFrameRate(formats[i].ranges) > 29.0 && formats[i].ranges != []
    ensures formats[PreferredIndex(formats)] != formats[0] ==>
              MaxFrameRate(formats[PreferredIndex(formats)].ranges) > 29.0
  {
    SelectedAfterIsBest(formats, |formats|);
  }

  /**
   * The selected format is at least as large as the first format and as every
   * format that passes the rate test, whether or not the first one passes it.
   */
  lemma PreferredPixelCountIsMaximal(formats: seq<Format>)
    requires formats != []
    ensures var p := PixelCount(formats[PreferredIndex(formats)]);
            PixelCount(formats[0]) <= p &&
            forall j :: 0 <= j < |formats| && Qualifies(formats[j]) ==> PixelCount(formats[j]) <= p
  {
    SelectedAfterIsBest(formats, |formats|);
  }

  /** Ties go to the earliest format: no earlier candidate has as many pixels as the selected one. */
  lemma EarliestAmongEqual(formats: seq<Format>, j: nat)
    requires formats != []
    requires j < PreferredIndex(formats)
    requires Candidate(formats, j)
    ensures PixelCount(formats[j]) != PixelCount(formats[PreferredIndex(formats)])
  {
    SelectedAfterIsBest(formats, |formats|);
  }

  /** The pixel count of the current choice never decreases as the scan proceeds. */
  lemma {:induction false} SelectedPixelCountNeverDecreases(formats: seq<Format>, k1: nat, k2: nat)
    requires formats != [] && k1 <= k2 <= |formats|
    ensures PixelCount(formats[SelectedAfter(formats, k1)]) <= PixelCount(formats[SelectedAfter(formats, k2)])
    decreases k2
  {
    if k1 < k2 {
      SelectedPixelCountNeverDecreases(formats, k1, k2 - 1);
    }
  }

  /** A format in a rearranged suffix is some format of the original suffix. */
  lemma SuffixElementFrom(formats: seq<Format>, other: seq<Format>, i: nat, j: nat)
    requires i < j < |other| == |formats|
    requires multiset(other[i + 1..]) == multiset(formats[i + 1..])
    ensures exists m :: i < m < |formats| && formats[m] == other[j]
  {
    assert other[j] == other[i + 1..][j - i - 1];
    assert other[j] in multiset(formats[i + 1..]);
    var m :| 0 <= m < |formats[i + 1..]| && formats[i + 1..][m] == other[j];
    assert formats[i + 1 + m] == other[j];
  }

  /**
   * Rearranging the formats that follow the selected one (equal-sized ones
   * included) does not change which format is selected.
   */
  lemma ReorderAfterPreferred(formats: seq<Format>, other: seq<Format>)
    requires formats != [] && |other| == |formats|
    requires var i := PreferredIndex(formats);
             other[..i + 1] == formats[..i + 1] &&
             multiset(other[i + 1..]) == multiset(formats[i + 1..])
    ensures PreferredIndex(other) == PreferredIndex(formats)
  {
    var i := PreferredIndex(formats);
    SelectedAfterIsBest(formats, |formats|);
    forall j | 0 <= j <= i ensures other[j] == formats[j] {
      assert other[j] == other[..i + 1][j];
    }
    forall j | i < j < |other| && Candidate(other, j)
      ensures PixelCount(other[j]) <= PixelCount(other[i])
    {
      SuffixElementFrom(formats, other, i, j);
    }
    assert BestIn(other, |other|, i);
    PreferredIndexCharacterized(other, i);
  }

  /**
   * The scan of the source: keeps the selected format, its size and its pixel
   * count in step, and replaces them only for a strictly larger format whose
   * best rate is above 29. Absent exactly when there are no formats.
   */
  method FindPreferredFormat(formats: seq<Format>) returns (prefFormat: Option<Format>)
    requires FormatsFit(formats)
    ensures prefFormat.None? <==> formats == []
    ensures prefFormat.Some? ==> prefFormat.value in formats
    ensures formats != [] ==> prefFormat == Some(formats[PreferredIndex(formats)])
  {
    prefFormat := None;
    if |formats| > 0 {
      var firstFormat := formats[0];
      var selectedFormat := firstFormat;
      var selectedSize := firstFormat.dimensions;
      var selectedPixelCount := selectedSize.height * selectedSize.width;
      ghost var selected := 0;
      for i := 0 to |formats|
        invariant selected == SelectedAfter(formats, i)
        invariant selectedFormat == formats[selected]
        invariant selectedSize == selectedFormat.dimensions
        invariant selectedPixelCount as int == PixelCount(selectedFormat)
      {
        var format := formats[i];
        var maxFrameRate := MaxFrameRate(format.ranges);
        var formatSize := format.dimensions;
        var formatPixelCount := formatSize.height * formatSize.width;
        if formatPixelCount > selectedPixelCount && maxFrameRate > 29.0 {
          selectedFormat := format;
          selectedSize := formatSize;
          selectedPixelCount := formatPixelCount;
          selected := i;
        }
      }
      prefFormat := Some(selectedFormat);
    }
  }

  /**
   * 640×480 at 60 fps against 1920×1080 at 24 fps. The slow large format fails
   * the rate test, so it never replaces the small one: listed as [a, b], the
   * 640×480 format is kept. Listed as [b, a], the 1920×1080 format is kept,
   * because it comes first and the smaller 640×480 format cannot replace it.
   */
  lemma ExampleSlowLargeFormatRejected()
    ensures var d := Duration(1, 60);
            var a := Format(Dimensions(640, 480), [FrameRateRange(60.0, d, d)]);
            var b := Format(Dimensions(1920, 1080), [FrameRateRange(24.0, d, d)]);
            PreferredIndex([a, b]) == 0 && PreferredIndex([b, a]) == 0
  {
  }

  /** 640×480 at 60 fps against 1920×1080 at 30 fps: the larger format is selected. */
  lemma ExampleFastLargeFormatSelected()
    ensures var d := Duration(1, 60);
            var a := Format(Dimensions(640, 480), [FrameRateRange(60.0, d, d)]);
            var c := Format(Dimensions(1920, 1080), [FrameRateRange(30.0, d, d)]);
            PreferredIndex([a, c]) == 1 && PreferredIndex([c, a]) == 0
  {
  }

  /** A first format at 10 fps is kept against a larger one at exactly 29 fps, but not against one at 30 fps. */
  lemma ExampleExactly29Excluded()
    ensures var d := Duration(1, 30);
            var first := Format(Dimensions(320, 240), [FrameRateRange(10.0, d, d)]);
            var at29 := Format(Dimensions(1280, 720), [FrameRateRange(29.0, d, d)]);
            var at30 := Format(Dimensions(1280, 720), [FrameRateRange(30.0, d, d)]);
            PreferredIndex([first, at29]) == 0 && PreferredIndex([first, at29, at30]) == 2
  {
    var d := Duration(1, 30);
    var at29 := Format(Dimensions(1280, 720), [FrameRateRange(29.0, d, d)]);
    var at30 := Format(Dimensions(1280, 720), [FrameRateRange(30.0, d, d)]);
    var first := Format(Dimensions(320, 240), [FrameRateRange(10.0, d, d)]);
    assert MaxFrameRate(at29.ranges) == 29.0;
    assert MaxFrameRate(at30.ranges) == 30.0;
    assert SelectedAfter([first, at29, at30], 2) == 0;
  }
}
