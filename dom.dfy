/**
 * The part of a DOM element that the site's scripts read or write: its class
 * list (as a set of class names), its text content, the `complete` flag of an
 * image, and the two inline style properties the fade-in code sets.
 */
module Dom {

  class Element {
    var classes: set<string>
    var text: string
    var complete: bool
    var opacity: string
    var transform: string

    constructor (classes0: set<string>, complete0: bool)
      ensures classes == classes0 && complete == complete0
      ensures text == "" && opacity == "" && transform == ""
    {
      classes := classes0;
      complete := complete0;
      text := "";
      opacity := "";
      transform := "";
    }
  }

  /** No element occurs twice (what `querySelectorAll` returns). */
  predicate Distinct(elements: seq<Element>) {
    forall i, j :: 0 <= i < j < |elements| ==> elements[i] != elements[j]
  }
}
