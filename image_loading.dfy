/**
 * `optimizeImageLoading`: every image that has already finished loading is
 * marked `loaded` at once; every other image gets a load listener that marks
 * it `loaded` and an error listener that marks it `error`.
 */
module ImageLoading {
  import opened Dom

  const LoadedClass := "loaded"
  const ErrorClass := "error"

  /** The two events the listeners wait for. */
  datatype ImageEvent = Load | Error

  /** The classes an image has once `optimizeImageLoading` has visited it. */
  function ClassesOnVisit(classes: set<string>, complete: bool): (r: set<string>)
    ensures classes <= r && r - {LoadedClass} == classes - {LoadedClass}
    ensures LoadedClass in r <==> complete || LoadedClass in classes
  {
    if complete then classes + {LoadedClass} else classes
  }

  /** What the listener for one event does to the class list. */
  function OnEvent(classes: set<string>, e: ImageEvent): set<string> {
    match e
    case Load => classes + {LoadedClass}
    case Error => classes + {ErrorClass}
  }

  /** The listeners run once per event, in the order the events arrive. */
  function Dispatch(classes: set<string>, events: seq<ImageEvent>): (r: set<string>)
    ensures classes <= r && r <= classes + {LoadedClass, ErrorClass}
  {
    if events == [] then classes else OnEvent(Dispatch(classes, events[..|events| - 1]), events[|events| - 1])
  }

  /**
   * The classes of an image after the visit and then the events the browser
   * fires at it: an already complete image has no listeners, so later events
   * change nothing.
   */
  function ClassesAfter(classes: set<string>, complete: bool, events: seq<ImageEvent>): (r: set<string>)
    ensures classes <= r && r <= classes + {LoadedClass, ErrorClass}
    ensures complete ==> LoadedClass in r
  {
    if complete then ClassesOnVisit(classes, true) else Dispatch(ClassesOnVisit(classes, false), events)
  }

  /**
   * Whatever the order and number of events, the listeners only add: an image
   * gains `loaded` exactly when some load event came and `error` exactly when
   * some error event came, and keeps every class it had.
   */
  lemma {:induction false} DispatchAdds(classes: set<string>, events: seq<ImageEvent>)
    ensures Dispatch(classes, events)
      == classes + (if Load in events then {LoadedClass} else {}) + (if Error in events then {ErrorClass} else {})
    decreases |events|
  {
    if events != [] {
      var init := events[..|events| - 1];
      DispatchAdds(classes, init);
      assert events == init + [events[|events| - 1]];
      assert forall e :: e in events <==> e in init || e == events[|events| - 1];
    }
  }

  /**
   * The per-image rule: a complete image is `loaded` whatever happens later;
   * an incomplete one becomes `loaded` exactly on a load event and `error`
   * exactly on an error event. Both can happen to the same image, since
   * neither listener is removed after it runs.
   */
  lemma ImageRule(classes: set<string>, complete: bool, events: seq<ImageEvent>)
    ensures complete ==> ClassesAfter(classes, complete, events) == classes + {LoadedClass}
    ensures !complete ==> (LoadedClass in ClassesAfter(classes, complete, events) <==> LoadedClass in classes || Load in events)
    ensures !complete ==> (ErrorClass in ClassesAfter(classes, complete, events) <==> ErrorClass in classes || Error in events)
    ensures classes <= ClassesAfter(classes, complete, events)
  {
    DispatchAdds(classes, events);
  }

  /**
   * The visiting loop. Returns the images that now wait for a load or error
   * event: exactly those not yet complete.
   */
  method OptimizeImageLoading(images: seq<Element>) returns (awaiting: set<Element>)
    requires Distinct(images)
    modifies images
    ensures forall i :: 0 <= i < |images| ==> images[i].classes == ClassesOnVisit(old(images[i].classes), old(images[i].complete))
    ensures forall i :: 0 <= i < |images| ==>
      && images[i].complete == old(images[i].complete) && images[i].text == old(images[i].text)
      && images[i].opacity == old(images[i].opacity) && images[i].transform == old(images[i].transform)
    ensures awaiting == set i | 0 <= i < |images| && !images[i].complete :: images[i]
  {
    awaiting := {};
    for n := 0 to |images|
      invariant forall i :: 0 <= i < n ==> images[i].classes == ClassesOnVisit(old(images[i].classes), old(images[i].complete))
      invariant forall i :: n <= i < |images| ==> images[i].classes == old(images[i].classes)
      invariant forall i :: 0 <= i < |images| ==>
        && images[i].complete == old(images[i].complete) && images[i].text == old(images[i].text)
        && images[i].opacity == old(images[i].opacity) && images[i].transform == old(images[i].transform)
      invariant awaiting == set i | 0 <= i < n && !images[i].complete :: images[i]
    {
      var img := images[n];
      if img.complete {
        img.classes := img.classes + {LoadedClass};
      } else {
        awaiting := awaiting + {img};
      }
    }
  }

  /** The load listener. */
  method OnImageLoad(img: Element)
    modifies img
    ensures img.classes == OnEvent(old(img.classes), Load)
    ensures img.complete == old(img.complete) && img.text == old(img.text)
      && img.opacity == old(img.opacity) && img.transform == old(img.transform)
  {
    img.classes := img.classes + {LoadedClass};
  }

  /** The error listener (its console message is not modelled). */
  method OnImageError(img: Element)
    modifies img
    ensures img.classes == OnEvent(old(img.classes), Error)
    ensures img.complete == old(img.complete) && img.text == old(img.text)
      && img.opacity == old(img.opacity) && img.transform == old(img.transform)
  {
    img.classes := img.classes + {ErrorClass};
  }
}
