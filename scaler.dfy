/**
 * The stateful part of the planet gallery (script.js, scalePlanetsProportionally
 * and applyProportionalSizes): the off-screen loads that measure each image,
 * the completion counter that acts as a join barrier, the global cache of
 * measurements, the once-only resize listener, and the inline sizes written
 * to the image elements.
 *
 * Browser events are method calls: each image's completion is one call of
 * OnLoad or OnError, in any order, and a window resize is a call of Resize.
 * The viewport width read by a sizing pass is a parameter of the call that
 * triggers the pass.
 */
module Scaler {
  import opened Seqs
  import opened Sizing

  /** The indices of `n` image elements. */
  function AllImages(n: nat): (r: set<nat>)
    ensures |r| == n
    ensures forall i: nat :: i in r <==> i < n
  {
    if n == 0 then {} else AllImages(n - 1) + {n - 1}
  }

  /** Once as many images have completed as there are images, every image has completed. */
  lemma CountReachedMeansAll(done: set<nat>, n: nat)
    requires forall i :: i in done ==> i < n
    ensures |done| == n <==> done == AllImages(n)
  {
    if |done| == n {
      var all := AllImages(n);
      assert done <= all;
      assert |all - done| == 0;
    }
  }

  /**
   * `data` holds one record per image of `succeeded`, each carrying that
   * image's label, a positive natural height and the stored ratio.
   */
  ghost predicate Measurements(data: seq<Record>, succeeded: set<nat>, names: seq<string>) {
    && |data| == |succeeded|
    && (forall j :: 0 <= j < |data| ==>
          && data[j].element in succeeded
          && data[j].element < |names|
          && data[j].planetName == names[data[j].element]
          && data[j].naturalHeight > 0.0
          && data[j].sizeRatio == StoredRatio(data[j].planetName))
    && DistinctElements(data)
  }

  /** A successful load of a not yet completed image adds its record. */
  lemma MeasurementsGrow(data: seq<Record>, succeeded: set<nat>, names: seq<string>, i: nat, w: real, h: real)
    requires Measurements(data, succeeded, names)
    requires i < |names| && i !in succeeded && h > 0.0
    ensures Measurements(data + [Record(i, names[i], w, h, StoredRatio(names[i]))], succeeded + {i}, names)
  {
  }

  /** Every record was measured and refers to one of the images. */
  lemma MeasurementsSizable(data: seq<Record>, succeeded: set<nat>, names: seq<string>)
    requires Measurements(data, succeeded, names)
    ensures Measured(data) && InRange(data, |names|) && DistinctElements(data)
  {
  }

  class PlanetScaler {
    /** The `data-planet` label of each `.planet-image` element, in document order. */
    const names: seq<string>
    /** The inline size of each image element; None while it keeps its intrinsic or CSS size. */
    const style: array<Option<Size>>

    /** `imagesData`: one record per successful load, in completion order. */
    var imagesData: seq<Record>
    /** `loadedCount`: completed loads, successful or not. */
    var loadedCount: nat
    /** `storedImagesData`: the measurements the resize handler reuses. */
    var storedImagesData: seq<Record>
    /** `window.planetResizeHandlerAdded`. */
    var resizeHandlerAdded: bool
    /** How many resize listeners this code has registered on the window. */
    var resizeListeners: nat

    /** Images whose load succeeded, and images whose load failed. */
    ghost var succeeded: set<nat>
    ghost var failed: set<nat>
    /** How many sizing passes the completion barrier has started. */
    ghost var passes: nat

    ghost predicate Valid()
      reads this, style
    {
      && style.Length == |names|
      && succeeded !! failed
      && (forall i :: i in succeeded + failed ==> i < |names|)
      && loadedCount == |succeeded + failed|
      // failed loads leave no record: one record per successful load
      && Measurements(imagesData, succeeded, names)
      // the barrier has fired exactly once when every image has completed, never before
      && passes == (if |names| > 0 && succeeded + failed == AllImages(|names|) then 1 else 0)
      && storedImagesData == (if passes == 1 then imagesData else [])
      // at most one resize listener, and only after a pass that found the sun
      && resizeListeners == (if resizeHandlerAdded then 1 else 0)
      && (resizeHandlerAdded ==> FindSun(storedImagesData).Some?)
    }

    /** While image `i` has not completed, the barrier has not fired and nothing is cached or registered. */
    lemma BeforeBarrier(i: nat)
      requires Valid() && i < |names| && i !in succeeded + failed
      ensures passes == 0 && storedImagesData == []
      ensures !resizeHandlerAdded && resizeListeners == 0
    {
    }

    /** A page without planet images never runs a sizing pass. */
    lemma NoImagesNoPass()
      requires Valid() && |names| == 0
      ensures passes == 0 && storedImagesData == [] && !resizeHandlerAdded
    {
    }

    /** The page as `scalePlanetsProportionally` leaves it: every load started, none completed. */
    constructor (names: seq<string>)
      ensures Valid()
      ensures this.names == names && fresh(style)
      ensures forall e :: 0 <= e < style.Length ==> style[e] == None
      ensures imagesData == [] && storedImagesData == [] && loadedCount == 0
      ensures !resizeHandlerAdded && resizeListeners == 0
      ensures succeeded == {} && failed == {} && passes == 0
    {
      this.names := names;
      style := new Option<Size>[|names|](_ => None);
      imagesData := [];
      loadedCount := 0;
      storedImagesData := [];
      resizeHandlerAdded := false;
      resizeListeners := 0;
      succeeded := {};
      failed := {};
      passes := 0;
    }

    /**
     * `applyProportionalSizes(data)`: size the images from `data` at the
     * given viewport width and register the resize listener the first time
     * a pass finds the sun.
     */
    method ApplyProportionalSizes(data: seq<Record>, innerWidth: real)
      requires Measured(data) && InRange(data, style.Length)
      requires resizeListeners == (if resizeHandlerAdded then 1 else 0)
      modifies this`resizeHandlerAdded, this`resizeListeners, style
      ensures style[..] == SizedStyles(old(style[..]), data, innerWidth)
      ensures resizeHandlerAdded == (old(resizeHandlerAdded) || FindSun(data).Some?)
      ensures resizeListeners == (if resizeHandlerAdded then 1 else 0)
    {
      var sunIndex := FindSun(data);
      if sunIndex.None? {
        return;
      }
      var sunData := data[sunIndex.value];
      var sunHeight := innerWidth;
      style[sunData.element] := Some(ReferenceSize(innerWidth, sunData));
      ghost var start := style[..];
      var j := 0;
      while j < |data|
        invariant 0 <= j <= |data|
        invariant style[..] == SizeOthers(start, data[..j], sunHeight)
        modifies style
      {
        var d := data[j];
        assert data[..j + 1][..j] == data[..j];
        if d.planetName != Reference {
          style[d.element] := Some(PlanetSize(sunHeight, d));
        }
        j := j + 1;
      }
      assert data[..|data|] == data;
      if !resizeHandlerAdded {
        resizeListeners := resizeListeners + 1;
        resizeHandlerAdded := true;
      }
    }

    /** The state a callback leaves just before its `loadedCount++`: one more image completed than counted, no pass yet. */
    ghost predicate AboutToCount()
      reads this, style
    {
      && style.Length == |names|
      && succeeded !! failed
      && (forall i :: i in succeeded + failed ==> i < |names|)
      && loadedCount + 1 == |succeeded + failed|
      && Measurements(imagesData, succeeded, names)
      && passes == 0 && storedImagesData == []
      && !resizeHandlerAdded && resizeListeners == 0
    }

    /**
     * The completion barrier shared by both callbacks: `loadedCount++`, and
     * once it equals the image count, cache the records and run the pass.
     */
    method CountCompletion(innerWidth: real)
      requires AboutToCount()
      modifies this`loadedCount, this`passes, this`storedImagesData, this`resizeHandlerAdded, this`resizeListeners, style
      ensures Valid()
      ensures loadedCount == old(loadedCount) + 1
      ensures passes == (if succeeded + failed == AllImages(|names|) then 1 else 0)
      ensures if loadedCount == |names| then
                && storedImagesData == imagesData
                && style[..] == SizedStyles(old(style[..]), imagesData, innerWidth)
                && resizeHandlerAdded == FindSun(imagesData).Some?
              else
                && storedImagesData == []
                && style[..] == old(style[..])
                && !resizeHandlerAdded
    {
      loadedCount := loadedCount + 1;
      CountReachedMeansAll(succeeded + failed, |names|);
      if loadedCount == |names| {
        passes := 1;
        MeasurementsSizable(imagesData, succeeded, names);
        storedImagesData := imagesData;
        ApplyProportionalSizes(imagesData, innerWidth);
      }
    }

    /** `tempImg.onload` for image `i`, measured at the given natural size. */
    method OnLoad(i: nat, naturalWidth: real, naturalHeight: real, innerWidth: real)
      requires Valid()
      requires i < |names| && i !in succeeded + failed
      requires naturalHeight > 0.0
      modifies this, style
      ensures Valid()
      ensures imagesData == old(imagesData) + [Record(i, names[i], naturalWidth, naturalHeight, StoredRatio(names[i]))]
      ensures loadedCount == old(loadedCount) + 1
      ensures succeeded == old(succeeded) + {i} && failed == old(failed)
      ensures passes == old(passes) + (if succeeded + failed == AllImages(|names|) then 1 else 0)
      ensures if loadedCount == |names| then
                && style[..] == SizedStyles(old(style[..]), imagesData, innerWidth)
                && resizeHandlerAdded == FindSun(imagesData).Some?
              else
                && style[..] == old(style[..])
                && resizeHandlerAdded == old(resizeHandlerAdded)
    {
      BeforeBarrier(i);
      MeasurementsGrow(imagesData, succeeded, names, i, naturalWidth, naturalHeight);
      var sizeRatio := StoredRatio(names[i]);
      imagesData := imagesData + [Record(i, names[i], naturalWidth, naturalHeight, sizeRatio)];
      succeeded := succeeded + {i};
      CountCompletion(innerWidth);
    }

    /** `tempImg.onerror` for image `i`: counted, but no record. */
    method OnError(i: nat, innerWidth: real)
      requires Valid()
      requires i < |names| && i !in succeeded + failed
      modifies this, style
      ensures Valid()
      ensures imagesData == old(imagesData)
      ensures loadedCount == old(loadedCount) + 1
      ensures failed == old(failed) + {i} && succeeded == old(succeeded)
      ensures passes == old(passes) + (if succeeded + failed == AllImages(|names|) then 1 else 0)
      ensures if loadedCount == |names| then
                && style[..] == SizedStyles(old(style[..]), imagesData, innerWidth)
                && resizeHandlerAdded == FindSun(imagesData).Some?
              else
                && style[..] == old(style[..])
                && resizeHandlerAdded == old(resizeHandlerAdded)
    {
      BeforeBarrier(i);
      failed := failed + {i};
      CountCompletion(innerWidth);
    }

    /**
     * A window `resize` event with the given new viewport width: the
     * registered listener (if any) re-sizes from the cached records, never
     * re-measuring.
     */
    method Resize(innerWidth: real)
      requires Valid()
      modifies this, style
      ensures Valid()
      ensures style[..] == if resizeListeners == 1 && |storedImagesData| > 0
                           then SizedStyles(old(style[..]), storedImagesData, innerWidth)
                           else old(style[..])
      ensures imagesData == old(imagesData) && storedImagesData == old(storedImagesData)
      ensures loadedCount == old(loadedCount) && passes == old(passes)
      ensures succeeded == old(succeeded) && failed == old(failed)
      ensures resizeHandlerAdded == old(resizeHandlerAdded) && resizeListeners == old(resizeListeners)
    {
      if resizeListeners == 1 && |storedImagesData| > 0 {
        ApplyProportionalSizes(storedImagesData, innerWidth);
      }
    }
  }
}
