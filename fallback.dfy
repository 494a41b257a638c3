/**
 * `setImgWithFallback`: an image element shows `src`, and its one-shot
 * `onerror` handler swaps in a fallback image the first time loading fails.
 */
module Fallback {
  import opened Basics

  /** The image the tiles and the detail view fall back to. */
  const Placeholder := "images/placeholder.jpg"

  /**
   * What an image element holds: its source and, while the handler is
   * armed, the fallback that handler will install (`None` is `onerror = null`).
   */
  datatype ImgState = ImgState(src: string, onerror: Option<string>)

  /** The state right after `setImgWithFallback(img, src, fallback)`. */
  function Load(src: string, fallback: string): ImgState {
    ImgState(src, Some(fallback))
  }

  /** A load error: an armed handler disarms itself and installs its fallback; with no handler nothing happens. */
  function OnError(s: ImgState): (t: ImgState)
    ensures s.onerror.None? ==> t == s
    ensures s.onerror.Some? ==> t.src == s.onerror.value && t.onerror.None?
  {
    match s.onerror
    case None => s
    case Some(fallback) => ImgState(fallback, None)
  }

  /** The state after `n` consecutive load errors. */
  function AfterErrors(s: ImgState, n: nat): ImgState
    decreases n
  {
    if n == 0 then s else AfterErrors(OnError(s), n - 1)
  }

  /**
   * However many times loading fails, the fallback is installed by the first
   * failure and never again: afterwards the source is the fallback and no
   * handler is left.
   */
  lemma {:induction false} FallbackAppliedOnce(src: string, fallback: string, n: nat)
    ensures AfterErrors(Load(src, fallback), n) == if n == 0 then Load(src, fallback) else ImgState(fallback, None)
  {
    if n > 0 {
      DisarmedIsStable(ImgState(fallback, None), n - 1);
    }
  }

  /** Errors on an element without a handler change nothing. */
  lemma {:induction false} DisarmedIsStable(s: ImgState, n: nat)
    requires s.onerror.None?
    ensures AfterErrors(s, n) == s
  {
    if n > 0 {
      DisarmedIsStable(OnError(s), n - 1);
    }
  }

  /** An `<img>` element, with the two properties `setImgWithFallback` touches. */
  class ImageElement {
    var src: string
    var onerror: Option<string>
    /** How many times the fallback has been installed since the last `SetWithFallback`. */
    ghost var swaps: nat

    ghost predicate Valid()
      reads this
    {
      swaps <= 1 && (onerror.Some? ==> swaps == 0)
    }

    function State(): ImgState
      reads this
    {
      ImgState(src, onerror)
    }

    /** `document.createElement('img')`: no source and no handler. */
    constructor ()
      ensures Valid() && State() == ImgState("", None) && swaps == 0
    {
      src := "";
      onerror := None;
      swaps := 0;
    }

    /** `setImgWithFallback(this, src, fallback)` */
    method SetWithFallback(newSrc: string, fallback: string)
      modifies this
      ensures Valid() && State() == Load(newSrc, fallback) && swaps == 0
    {
      src := newSrc;
      onerror := Some(fallback);
      swaps := 0;
    }

    /** The browser reports that loading `src` failed and runs the handler, if any. */
    method FireError()
      requires Valid()
      modifies this
      ensures Valid() && State() == OnError(old(State()))
      ensures swaps == if old(onerror).Some? then old(swaps) + 1 else old(swaps)
    {
      match onerror
      case None =>
      case Some(fallback) =>
        onerror := None;
        src := fallback;
        swaps := swaps + 1;
    }
  }
}
