/**
 * Two class and style rules of the page: the navigation bar's shadow, which
 * the scroll listener of `addScrollEffects` switches at a scroll offset of 50
 * pixels, and `addFadeInAnimations`, which either starts the fade-in
 * animation of every marked element or, when the user prefers reduced
 * motion, shows it at once through inline styles.
 */
module PageEffects {
  import opened Dom

  const ShadowMd := "shadow-md"
  const ShadowSm := "shadow-sm"
  const ScrollThreshold: real := 50.0
  const AnimateClass := "animate"

  /** The nav's classes after the scroll listener has run at vertical offset `scrollY`. */
  function NavClasses(classes: set<string>, scrollY: real): (r: set<string>)
    ensures (ShadowMd in r && ShadowSm !in r) <==> scrollY > ScrollThreshold
    ensures (ShadowSm in r && ShadowMd !in r) <==> scrollY <= ScrollThreshold
    ensures r - {ShadowMd, ShadowSm} == classes - {ShadowMd, ShadowSm}
  {
    if scrollY > ScrollThreshold then classes + {ShadowMd} - {ShadowSm} else classes - {ShadowMd} + {ShadowSm}
  }

  /** The nav's classes after a series of scroll events. */
  function Scrolls(classes: set<string>, offsets: seq<real>): (r: set<string>)
    ensures r - {ShadowMd, ShadowSm} == classes - {ShadowMd, ShadowSm}
    ensures offsets != [] ==> (ShadowMd in r <==> ShadowSm !in r)
  {
    if offsets == [] then classes else NavClasses(Scrolls(classes, offsets[..|offsets| - 1]), offsets[|offsets| - 1])
  }

  /** One run of the listener decides the shadow alone: an earlier run leaves no trace. */
  lemma NavClassesLatestWins(classes: set<string>, y1: real, y2: real)
    ensures NavClasses(NavClasses(classes, y1), y2) == NavClasses(classes, y2)
  {
  }

  /** After any series of scroll events the shadow is the one the last offset calls for. */
  lemma {:induction false} ScrollsLatestWins(classes: set<string>, offsets: seq<real>)
    requires |offsets| > 0
    ensures Scrolls(classes, offsets) == NavClasses(classes, offsets[|offsets| - 1])
    decreases |offsets|
  {
    var init := offsets[..|offsets| - 1];
    if |init| > 0 {
      ScrollsLatestWins(classes, init);
      NavClassesLatestWins(classes, init[|init| - 1], offsets[|offsets| - 1]);
    }
  }

  /**
   * The scroll listener, which `addScrollEffects` registers only when the
   * page has a nav element.
   */
  method OnScroll(nav: Element, scrollY: real)
    modifies nav
    ensures nav.classes == NavClasses(old(nav.classes), scrollY)
    ensures nav.complete == old(nav.complete) && nav.text == old(nav.text)
      && nav.opacity == old(nav.opacity) && nav.transform == old(nav.transform)
  {
    if scrollY > ScrollThreshold {
      nav.classes := nav.classes + {ShadowMd};
      nav.classes := nav.classes - {ShadowSm};
    } else {
      nav.classes := nav.classes - {ShadowMd};
      nav.classes := nav.classes + {ShadowSm};
    }
  }

  /**
   * `addFadeInAnimations`: without a reduced-motion preference every element
   * gains `animate` and its inline style is untouched; with it, the classes
   * are untouched and the inline style shows the element in place.
   */
  method AddFadeInAnimations(elements: seq<Element>, prefersReducedMotion: bool)
    requires Distinct(elements)
    modifies elements
    ensures forall i :: 0 <= i < |elements| ==>
      if !prefersReducedMotion then
        && elements[i].classes == old(elements[i].classes) + {AnimateClass}
        && elements[i].opacity == old(elements[i].opacity) && elements[i].transform == old(elements[i].transform)
      else
        && elements[i].classes == old(elements[i].classes)
        && elements[i].opacity == "1" && elements[i].transform == "translateY(0)"
    ensures forall i :: 0 <= i < |elements| ==>
      elements[i].complete == old(elements[i].complete) && elements[i].text == old(elements[i].text)
  {
    if !prefersReducedMotion {
      for n := 0 to |elements|
        invariant forall i :: 0 <= i < n ==> elements[i].classes == old(elements[i].classes) + {AnimateClass}
        invariant forall i :: n <= i < |elements| ==> elements[i].classes == old(elements[i].classes)
        invariant forall i :: 0 <= i < |elements| ==>
          && elements[i].opacity == old(elements[i].opacity) && elements[i].transform == old(elements[i].transform)
          && elements[i].complete == old(elements[i].complete) && elements[i].text == old(elements[i].text)
      {
        elements[n].classes := elements[n].classes + {AnimateClass};
      }
    } else {
      for n := 0 to |elements|
        invariant forall i :: 0 <= i < n ==> elements[i].opacity == "1" && elements[i].transform == "translateY(0)"
        invariant forall i :: 0 <= i < |elements| ==>
          && elements[i].classes == old(elements[i].classes)
          && elements[i].complete == old(elements[i].complete) && elements[i].text == old(elements[i].text)
      {
        elements[n].opacity := "1";
        elements[n].transform := "translateY(0)";
      }
    }
  }
}
