/**
 * The proportional sizing rules of the planet gallery (script.js): the
 * static ratio table, the fallback lookups, the reference ("sun") size, the
 * size of every other planet, and the effect of one sizing pass on the
 * inline sizes of the gallery's image elements.
 *
 * Pixel values are exact reals; the browser's floating point and the
 * `${x}px` formatting are not modelled.
 */
module Sizing {
  import opened Seqs

  /** An inline `style.width` / `style.height` pair, in pixels. */
  datatype Size = Size(width: real, height: real)

  /**
   * One entry of `imagesData`: the image element it belongs to (its index
   * among the `.planet-image` elements), its `data-planet` label, the
   * natural dimensions measured by the off-screen load, and the ratio
   * looked up at measurement time.
   */
  datatype Record = Record(element: nat, planetName: string, naturalWidth: real, naturalHeight: real, sizeRatio: real)

  /** `planetSizes`: display height of each body relative to the sun. */
  const PlanetSizes: map<string, real> := map[
    "mercury" := 0.33,
    "mars" := 0.36,
    "venus" := 0.40,
    "earth" := 0.45,
    "neptune" := 0.50,
    "uranus" := 0.55,
    "saturn" := 0.60,
    "jupiter" := 0.70,
    "sun" := 1.0
  ]

  /** The order the table's comment promises, smallest first. */
  const SizeOrder: seq<string> := ["mercury", "mars", "venus", "earth", "neptune", "uranus", "saturn", "jupiter", "sun"]

  /** The label of the reference image. */
  const Reference: string := "sun"

  /**
   * `planetSizes[name] || fallback`: the table's value when it is present
   * and truthy (a number other than 0), the fallback otherwise.
   */
  function RatioOr(name: string, fallback: real): (r: real)
    ensures name in PlanetSizes ==> r == PlanetSizes[name]
    ensures name !in PlanetSizes ==> r == fallback
  {
    RatioTableBounds();
    if name in PlanetSizes && PlanetSizes[name] != 0.0 then PlanetSizes[name] else fallback
  }

  /** The ratio stored in a measurement record (`|| 1`). */
  function StoredRatio(name: string): (r: real)
    ensures 0.0 < r <= 1.0
    ensures name in PlanetSizes ==> r == PlanetSizes[name]
    ensures name !in PlanetSizes ==> r == 1.0
  {
    RatioTableBounds();
    RatioOr(name, 1.0)
  }

  /** The ratio a sizing pass uses (`|| 0.33`). */
  function SizingRatio(name: string): (r: real)
    ensures 0.0 < r <= 1.0
    ensures name in PlanetSizes ==> r == PlanetSizes[name]
    ensures name !in PlanetSizes ==> r == 0.33
    ensures name != Reference ==> r < 1.0
  {
    RatioTableBounds();
    RatioOr(name, 0.33)
  }

  /** Every table value lies in (0, 1], and only the sun has ratio 1. */
  lemma RatioTableBounds()
    ensures forall name :: name in PlanetSizes ==> 0.0 < PlanetSizes[name] <= 1.0
    ensures forall name :: name in PlanetSizes && name != Reference ==> PlanetSizes[name] < 1.0
    ensures Reference in PlanetSizes && PlanetSizes[Reference] == 1.0
  {
  }

  /** The table holds exactly the bodies of SizeOrder, strictly increasing along it, ending at the sun with 1.0. */
  lemma RatioTableOrdered()
    ensures forall name :: name in PlanetSizes <==> name in SizeOrder
    ensures forall i, j :: 0 <= i < j < |SizeOrder| ==> PlanetSizes[SizeOrder[i]] < PlanetSizes[SizeOrder[j]]
    ensures SizeOrder[|SizeOrder| - 1] == Reference && PlanetSizes[Reference] == 1.0
  {
  }

  predicate IsReference(d: Record) {
    d.planetName == Reference
  }

  /** `imagesData.find(d => d.planetName === 'sun')`, as an index. */
  function FindSun(data: seq<Record>): (r: Option<nat>)
    ensures r.Some? ==> r.value < |data| && data[r.value].planetName == Reference
    ensures r.Some? ==> forall j :: 0 <= j < r.value ==> data[j].planetName != Reference
    ensures r.None? <==> forall j :: 0 <= j < |data| ==> data[j].planetName != Reference
  {
    First(data, IsReference)
  }

  /**
   * The reference image's size: its height is the viewport width and its
   * width keeps its natural aspect ratio.
   */
  function ReferenceSize(viewportWidth: real, sun: Record): (r: Size)
    requires sun.naturalHeight > 0.0
    ensures r.height == viewportWidth
    ensures r.width * sun.naturalHeight == r.height * sun.naturalWidth
  {
    var sunHeight := viewportWidth;
    var sunAspectRatio := sun.naturalWidth / sun.naturalHeight;
    Size(sunHeight * sunAspectRatio, sunHeight)
  }

  /**
   * A non-reference image's size: its height is the sun's height scaled by
   * the table ratio (never the ratio stored in the record) and its width
   * keeps its own natural aspect ratio.
   */
  function PlanetSize(sunHeight: real, d: Record): (r: Size)
    requires d.naturalHeight > 0.0
    ensures r.height == sunHeight * SizingRatio(d.planetName)
    ensures r.width * d.naturalHeight == r.height * d.naturalWidth
    ensures 0.0 <= sunHeight ==> 0.0 <= r.height <= sunHeight
  {
    var planetHeight := sunHeight * SizingRatio(d.planetName);
    var planetAspectRatio := d.naturalWidth / d.naturalHeight;
    Size(planetHeight * planetAspectRatio, planetHeight)
  }

  /** Every record was measured with a positive natural height. */
  predicate Measured(data: seq<Record>) {
    forall j :: 0 <= j < |data| ==> data[j].naturalHeight > 0.0
  }

  /** Every record refers to one of `n` image elements. */
  predicate InRange(data: seq<Record>, n: nat) {
    forall j :: 0 <= j < |data| ==> data[j].element < n
  }

  /** No two records refer to the same element. */
  predicate DistinctElements(data: seq<Record>) {
    forall i, j :: 0 <= i < j < |data| ==> data[i].element != data[j].element
  }

  /** Some non-reference record of `data` refers to element `e`. */
  predicate SizedAsPlanet(data: seq<Record>, e: nat) {
    exists j :: 0 <= j < |data| && !IsReference(data[j]) && data[j].element == e
  }

  /**
   * The inline sizes after the `forEach` over `data` that sizes every
   * record not labelled "sun", in order, starting from `styles`.
   */
  function SizeOthers(styles: seq<Option<Size>>, data: seq<Record>, sunHeight: real): (r: seq<Option<Size>>)
    requires Measured(data) && InRange(data, |styles|)
    ensures |r| == |styles|
    decreases |data|
  {
    if data == [] then styles
    else
      var prev := SizeOthers(styles, data[..|data| - 1], sunHeight);
      var d := data[|data| - 1];
      if IsReference(d) then prev else prev[d.element := Some(PlanetSize(sunHeight, d))]
  }

  /**
   * The inline sizes after `applyProportionalSizes(data)` with the given
   * viewport width: unchanged when no record is labelled "sun"; otherwise
   * the first sun record gets the reference size and every other record the
   * size derived from it.
   */
  function SizedStyles(styles: seq<Option<Size>>, data: seq<Record>, viewportWidth: real): (r: seq<Option<Size>>)
    requires Measured(data) && InRange(data, |styles|)
    ensures |r| == |styles|
  {
    match FindSun(data)
    case None => styles
    case Some(k) =>
      var sun := data[k];
      SizeOthers(styles[sun.element := Some(ReferenceSize(viewportWidth, sun))], data, viewportWidth)
  }

  /** An element that no non-reference record refers to keeps its size through the `forEach`. */
  lemma {:induction false} SizeOthersKeeps(styles: seq<Option<Size>>, data: seq<Record>, sunHeight: real, e: nat)
    requires Measured(data) && InRange(data, |styles|)
    requires e < |styles| && !SizedAsPlanet(data, e)
    ensures SizeOthers(styles, data, sunHeight)[e] == styles[e]
    decreases |data|
  {
    if data != [] {
      var init := data[..|data| - 1];
      assert !SizedAsPlanet(init, e) by {
        forall j | 0 <= j < |init| && !IsReference(init[j]) ensures init[j].element != e {
          assert init[j] == data[j];
        }
      }
      SizeOthersKeeps(styles, init, sunHeight, e);
      var d := data[|data| - 1];
      assert !IsReference(d) ==> d.element != e;
    }
  }

  /** With distinct elements, every non-reference record's element ends with that record's planet size. */
  lemma {:induction false} SizeOthersWrites(styles: seq<Option<Size>>, data: seq<Record>, sunHeight: real, j: nat)
    requires Measured(data) && InRange(data, |styles|) && DistinctElements(data)
    requires j < |data| && !IsReference(data[j])
    ensures SizeOthers(styles, data, sunHeight)[data[j].element] == Some(PlanetSize(sunHeight, data[j]))
    decreases |data|
  {
    var init := data[..|data| - 1];
    var d := data[|data| - 1];
    if j < |data| - 1 {
      assert init[j] == data[j];
      SizeOthersWrites(styles, init, sunHeight, j);
      assert d.element != data[j].element;
    }
  }

  /**
   * What one sizing pass does, when some record is labelled "sun": the first
   * such record's element gets the reference size, every record not labelled
   * "sun" gets its planet size, and every other element (further "sun"
   * records, images that failed to load) keeps its size.
   */
  lemma SizedStylesEffect(styles: seq<Option<Size>>, data: seq<Record>, viewportWidth: real, k: nat)
    requires Measured(data) && InRange(data, |styles|) && DistinctElements(data)
    requires FindSun(data) == Some(k)
    ensures SizedStyles(styles, data, viewportWidth)[data[k].element] == Some(ReferenceSize(viewportWidth, data[k]))
    ensures forall j :: 0 <= j < |data| && !IsReference(data[j]) ==>
      SizedStyles(styles, data, viewportWidth)[data[j].element] == Some(PlanetSize(viewportWidth, data[j]))
    ensures forall e :: 0 <= e < |styles| && e != data[k].element && !SizedAsPlanet(data, e) ==>
      SizedStyles(styles, data, viewportWidth)[e] == styles[e]
  {
    var sun := data[k];
    var start := styles[sun.element := Some(ReferenceSize(viewportWidth, sun))];
    assert !SizedAsPlanet(data, sun.element) by {
      forall j | 0 <= j < |data| && !IsReference(data[j]) ensures data[j].element != sun.element {
        assert j != k;
      }
    }
    SizeOthersKeeps(start, data, viewportWidth, sun.element);
    forall j | 0 <= j < |data| && !IsReference(data[j])
      ensures SizedStyles(styles, data, viewportWidth)[data[j].element] == Some(PlanetSize(viewportWidth, data[j]))
    {
      SizeOthersWrites(start, data, viewportWidth, j);
    }
    forall e | 0 <= e < |styles| && e != sun.element && !SizedAsPlanet(data, e)
      ensures SizedStyles(styles, data, viewportWidth)[e] == styles[e]
    {
      SizeOthersKeeps(start, data, viewportWidth, e);
    }
  }

  /** Without a record labelled "sun" a sizing pass changes no element's size. */
  lemma SizedStylesWithoutSun(styles: seq<Option<Size>>, data: seq<Record>, viewportWidth: real)
    requires Measured(data) && InRange(data, |styles|)
    requires forall j :: 0 <= j < |data| ==> data[j].planetName != Reference
    ensures SizedStyles(styles, data, viewportWidth) == styles
  {
  }

  /**
   * A later pass over the same records overrides an earlier one entirely:
   * the sizes after a resize depend only on the records and the new
   * viewport width, never on the width of the previous pass.
   */
  lemma ResizeOverrides(styles: seq<Option<Size>>, data: seq<Record>, w1: real, w2: real)
    requires Measured(data) && InRange(data, |styles|) && DistinctElements(data)
    ensures SizedStyles(SizedStyles(styles, data, w1), data, w2) == SizedStyles(styles, data, w2)
  {
    match FindSun(data)
    case None =>
    case Some(k) =>
      var once := SizedStyles(styles, data, w1);
      var twice := SizedStyles(once, data, w2);
      var direct := SizedStyles(styles, data, w2);
      SizedStylesEffect(styles, data, w1, k);
      SizedStylesEffect(once, data, w2, k);
      SizedStylesEffect(styles, data, w2, k);
      forall e | 0 <= e < |styles| ensures twice[e] == direct[e] {
        if e != data[k].element && SizedAsPlanet(data, e) {
          var j :| 0 <= j < |data| && !IsReference(data[j]) && data[j].element == e;
        }
      }
  }

  /** The record differs from `d` only in its stored `sizeRatio`. */
  predicate SameMeasurement(d: Record, d': Record) {
    d' == d.(sizeRatio := d'.sizeRatio)
  }

  /** The `forEach` ignores the stored `sizeRatio`. */
  lemma {:induction false} SizeOthersIgnoresStoredRatio(styles: seq<Option<Size>>, data: seq<Record>, data': seq<Record>, sunHeight: real)
    requires Measured(data) && InRange(data, |styles|)
    requires |data'| == |data| && forall j :: 0 <= j < |data| ==> SameMeasurement(data[j], data'[j])
    ensures Measured(data') && InRange(data', |styles|)
    ensures SizeOthers(styles, data, sunHeight) == SizeOthers(styles, data', sunHeight)
    decreases |data|
  {
    assert Measured(data') && InRange(data', |styles|) by {
      forall j | 0 <= j < |data'| ensures data'[j].naturalHeight > 0.0 && data'[j].element < |styles| {
        assert SameMeasurement(data[j], data'[j]);
      }
    }
    if data != [] {
      var n := |data| - 1;
      var init, init' := data[..n], data'[..n];
      forall j | 0 <= j < n ensures SameMeasurement(init[j], init'[j]) {
        assert init[j] == data[j] && init'[j] == data'[j];
      }
      SizeOthersIgnoresStoredRatio(styles, init, init', sunHeight);
      assert data[..n] == init && data'[..n] == init';
      SameMeasurementSameSize(data[n], data'[n], sunHeight);
    }
  }

  /** Records that differ only in `sizeRatio` are sized alike. */
  lemma SameMeasurementSameSize(d: Record, d': Record, sunHeight: real)
    requires SameMeasurement(d, d') && d.naturalHeight > 0.0
    ensures IsReference(d) == IsReference(d') && d.element == d'.element
    ensures d'.naturalHeight > 0.0 && PlanetSize(sunHeight, d) == PlanetSize(sunHeight, d')
    ensures forall w :: ReferenceSize(w, d) == ReferenceSize(w, d')
  {
  }

  /** The `sizeRatio` stored at measurement time (`|| 1`) never influences a sizing pass. */
  lemma StoredRatioUnused(styles: seq<Option<Size>>, data: seq<Record>, data': seq<Record>, viewportWidth: real)
    requires Measured(data) && InRange(data, |styles|)
    requires |data'| == |data| && forall j :: 0 <= j < |data| ==> SameMeasurement(data[j], data'[j])
    ensures Measured(data') && InRange(data', |styles|)
    ensures SizedStyles(styles, data, viewportWidth) == SizedStyles(styles, data', viewportWidth)
  {
    SizeOthersIgnoresStoredRatio(styles, data, data', viewportWidth);
    forall j | 0 <= j < |data| ensures IsReference(data[j]) == IsReference(data'[j]) {
      SameMeasurementSameSize(data[j], data'[j], viewportWidth);
    }
    FirstAgrees(data, IsReference, data', IsReference);
    match FindSun(data)
    case None =>
    case Some(k) =>
      SameMeasurementSameSize(data[k], data'[k], viewportWidth);
      var start := styles[data[k].element := Some(ReferenceSize(viewportWidth, data[k]))];
      assert start == styles[data'[k].element := Some(ReferenceSize(viewportWidth, data'[k]))];
      SizeOthersIgnoresStoredRatio(start, data, data', viewportWidth);
  }

  /** On a visible viewport every non-reference planet is strictly shorter than the sun. */
  lemma PlanetsShorterThanSun(viewportWidth: real, sun: Record, d: Record)
    requires sun.naturalHeight > 0.0 && d.naturalHeight > 0.0
    requires viewportWidth > 0.0 && !IsReference(d)
    ensures 0.0 < PlanetSize(viewportWidth, d).height < ReferenceSize(viewportWidth, sun).height
  {
  }

  /** Planet heights follow the table's order: a body earlier in SizeOrder is drawn shorter. */
  lemma HeightsFollowOrder(viewportWidth: real, a: Record, b: Record, i: nat, j: nat)
    requires a.naturalHeight > 0.0 && b.naturalHeight > 0.0 && viewportWidth > 0.0
    requires i < j < |SizeOrder| && a.planetName == SizeOrder[i] && b.planetName == SizeOrder[j]
    ensures PlanetSize(viewportWidth, a).height < PlanetSize(viewportWidth, b).height
  {
  }

  /** A viewport 1000 wide, a 2000 x 1000 sun and a 100 x 100 mercury give 2000 x 1000 and 330 x 330. */
  lemma WorkedExample()
    ensures ReferenceSize(1000.0, Record(0, "sun", 2000.0, 1000.0, 1.0)) == Size(2000.0, 1000.0)
    ensures PlanetSize(1000.0, Record(1, "mercury", 100.0, 100.0, 0.33)) == Size(330.0, 330.0)
  {
  }
}
