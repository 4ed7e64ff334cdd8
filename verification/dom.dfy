/**
 * The part of a web page that the injected script reads and writes,
 * as plain data: elements as records, the document as the sequence of its
 * elements in document order, and `document.querySelector` as a first-match
 * search over that sequence.
 */
module Dom {
  import opened Wrappers
  import opened JsString

  /**
   * One element of the page. Attribute-valued fields are `None` when the
   * attribute is absent (`getAttribute` returns `null`). `width` and
   * `height` stand for the bounding box; only their sign matters.
   */
  datatype Element = Element(
    tagName: string,                  // upper-case, as `element.tagName`: "INPUT", "TEXTAREA", "DIV", …
    inputType: string,                // `element.type`; "" when the element has none
    disabled: bool,
    readOnly: bool,
    isContentEditable: bool,          // the computed `isContentEditable` property
    role: Option<string>,             // the `role` attribute
    id: string,                       // the `id` attribute, "" when absent
    placeholder: Option<string>,      // the `placeholder` attribute
    contentEditable: Option<string>,  // the `contenteditable` attribute
    width: int,
    height: int,
    display: string,                  // computed style `display`
    visibility: string,               // computed style `visibility`
    opacity: string,                  // computed style `opacity`, as the string the browser reports
    value: string,                    // `value` of a form control
    textContent: string)

  /**
   * The document: its elements in document order and the index of the
   * element `document.activeElement` returns. That is the focused element
   * or, when nothing has focus, the body; `focused` is `None` only for a
   * document with neither a body nor a document element, where
   * `activeElement` is `null`.
   */
  datatype Document = Document(elements: seq<Element>, focused: Option<nat>)

  /** `document.activeElement`, when present, is an element of the document. */
  predicate WellFormed(d: Document) {
    d.focused.Some? ==> d.focused.value < |d.elements|
  }

  /** `document.activeElement`: the element at index `focused`, or `null`. */
  function ActiveElement(d: Document): (r: Option<Element>)
    requires WellFormed(d)
    ensures r.Some? <==> d.focused.Some?
    ensures r.Some? ==> r.value == d.elements[d.focused.value]
  {
    if d.focused.Some? then Some(d.elements[d.focused.value]) else None
  }

  /** The selector shapes the search uses. */
  datatype Selector =
    | IdIs(id: string)                           // #id
    | TextareaPlaceholderContains(part: string)  // textarea[placeholder*="part"]
    | TextareaNotDisabledNotReadonly             // textarea:not([disabled]):not([readonly])
    | RoleIs(role: string)                       // [role="role"]
    | ContentEditableIs(value: string)           // [contenteditable="value"]

  /** Whether `e` matches `sel` (an empty `*=` operand matches nothing in CSS). */
  predicate Matches(sel: Selector, e: Element)
    ensures sel == TextareaPlaceholderContains("") ==> !Matches(sel, e)
    ensures (sel.TextareaPlaceholderContains? || sel == TextareaNotDisabledNotReadonly) && Matches(sel, e) ==>
      e.tagName == "TEXTAREA"
    ensures sel.TextareaPlaceholderContains? ==>
      (Matches(sel, e) <==> e.tagName == "TEXTAREA" && e.placeholder.Some? && sel.part != [] && Contains(e.placeholder.value, sel.part))
    ensures sel == TextareaNotDisabledNotReadonly ==> (Matches(sel, e) <==> e.tagName == "TEXTAREA" && !e.disabled && !e.readOnly)
    ensures sel.IdIs? ==> (Matches(sel, e) <==> e.id == sel.id)
    ensures sel.RoleIs? ==> (Matches(sel, e) <==> e.role == Some(sel.role))
    ensures sel.ContentEditableIs? ==> (Matches(sel, e) <==> e.contentEditable == Some(sel.value))
  {
    match sel
    case IdIs(id) => e.id == id
    case TextareaPlaceholderContains(part) =>
      e.tagName == "TEXTAREA" && e.placeholder.Some? && part != [] && Contains(e.placeholder.value, part)
    case TextareaNotDisabledNotReadonly => e.tagName == "TEXTAREA" && !e.disabled && !e.readOnly
    case RoleIs(role) => e.role == Some(role)
    case ContentEditableIs(value) => e.contentEditable == Some(value)
  }

  /** `document.querySelector(sel)`: the index of the first element in document order that matches. */
  function QuerySelector(elements: seq<Element>, sel: Selector): (r: Option<nat>)
    ensures r.Some? ==> r.value < |elements| && Matches(sel, elements[r.value])
    ensures r.Some? ==> forall j :: 0 <= j < r.value ==> !Matches(sel, elements[j])
    ensures r.None? ==> forall j :: 0 <= j < |elements| ==> !Matches(sel, elements[j])
  {
    if elements == [] then None
    else if Matches(sel, elements[0]) then Some(0)
    else match QuerySelector(elements[1..], sel)
      case None => None
      case Some(k) => Some(k + 1)
  }
}
