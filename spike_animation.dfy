/**
 * The time-based animation of src/NewGameSpike/Animation.ts: the image index
 * is the number of whole 200 ms periods since time 0, modulo the number of
 * images. It keeps no anchor and no completion flag.
 */
module SpikeAnimations {
  import opened Wrappers
  import opened Assets

  /** Milliseconds each image is shown. */
  const ImagePeriod: real := 200.0

  /** `Math.floor(time / 200) % count`. */
  function IndexAt(time: real, count: nat): (k: nat)
    requires time >= 0.0 && count > 0
    ensures k < count
  {
    (time / ImagePeriod).Floor % count
  }

  /** In the `k`-th window of 200 ms of the first cycle, image `k` is shown. */
  lemma IndexDuringWindow(time: real, count: nat, k: nat)
    requires k < count && ImagePeriod * k as real <= time < ImagePeriod * (k + 1) as real
    ensures IndexAt(time, count) == k
  {
    assert k as real <= time / ImagePeriod < (k + 1) as real;
    assert (time / ImagePeriod).Floor == k;
  }

  class Animation {
    const images: seq<Image>
    var frameIndex: nat

    /** `new Animation(images)`: on the first image. */
    constructor(images: seq<Image>)
      ensures this.images == images && frameIndex == 0
    {
      this.images := images;
      frameIndex := 0;
    }

    /**
     * `update(time)`. The new index depends on `time` alone, not on the
     * previous index, so repeating an update with the same time changes
     * nothing.
     */
    method Update(time: real)
      requires time >= 0.0 && |images| > 0
      modifies this
      ensures frameIndex == IndexAt(time, |images|)
    {
      frameIndex := (time / 200.0).Floor % |images|;
    }

    /** `frame`: the image at the current index (`undefined` when the index is past the end). */
    function Frame(): (f: Option<Image>)
      reads this
      ensures f.Some? <==> frameIndex < |images|
      ensures f.Some? ==> f.value == images[frameIndex]
    {
      if frameIndex < |images| then Some(images[frameIndex]) else None
    }
  }
}
