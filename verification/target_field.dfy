/**
 * `insertTextIntoTargetField` (popup.js), the function the popup injects into
 * the active tab: which element of the page receives the template text, and
 * how the text is written into it.
 */
module TargetField {
  import opened Wrappers
  import opened Dom

  // ---------------------------------------------------------------------------
  // Eligibility and visibility
  // ---------------------------------------------------------------------------

  /** The element is edited through the editing command rather than through `value`. */
  predicate EditsAsRichText(e: Element) {
    e.isContentEditable || e.role == Some("textbox")
  }

  /** `isValidInputElement`: a present, enabled, writable element of a text-entry kind. */
  predicate IsValidInputElement(element: Option<Element>)
    ensures IsValidInputElement(element) ==> element.Some? && !element.value.disabled && !element.value.readOnly
    ensures IsValidInputElement(element) ==>
      var e := element.value;
      (e.tagName == "INPUT" && e.inputType in {"text", "search", ""}) || e.tagName == "TEXTAREA" || EditsAsRichText(e)
    ensures element.Some? && !element.value.disabled && !element.value.readOnly ==>
      var e := element.value;
      (e.tagName == "TEXTAREA" || EditsAsRichText(e) || (e.tagName == "INPUT" && e.inputType in {"text", "search", ""}))
      ==> IsValidInputElement(element)
  {
    if element.None? || element.value.disabled || element.value.readOnly then false
    else
      var e := element.value;
      var isInputType := e.tagName == "INPUT" && (e.inputType == "text" || e.inputType == "search" || e.inputType == "");
      var isTextarea := e.tagName == "TEXTAREA";
      var isContentEditable := EditsAsRichText(e);
      isInputType || isTextarea || isContentEditable
  }

  /** `isElementVisible`: a present element with a non-empty box that no style hides. */
  predicate IsElementVisible(element: Option<Element>)
    ensures IsElementVisible(element) ==> element.Some? && element.value.width > 0 && element.value.height > 0
    ensures IsElementVisible(element) ==>
      element.value.display != "none" && element.value.visibility != "hidden" && element.value.opacity != "0"
    ensures element.Some? ==>
      var e := element.value;
      e.width > 0 && e.height > 0 && e.display != "none" && e.visibility != "hidden" && e.opacity != "0"
      ==> IsElementVisible(element)
  {
    if element.None? then false
    else
      var e := element.value;
      e.width > 0 && e.height > 0 && e.display != "none" && e.visibility != "hidden" && e.opacity != "0"
  }

  /** The test every candidate of the search has to pass. */
  predicate Qualifies(element: Option<Element>) {
    IsValidInputElement(element) && IsElementVisible(element)
  }

  // ---------------------------------------------------------------------------
  // The search, as a specification
  // ---------------------------------------------------------------------------

  const SpecificSelectors: seq<Selector> := [IdIs("prompt-textarea"), TextareaPlaceholderContains("Ask me")]
  const GeneralSelectors: seq<Selector> := [TextareaNotDisabledNotReadonly, RoleIs("textbox")]
  const LastResortSelector: Selector := ContentEditableIs("true")

  /** Every selector the search tries, in the order it tries them. */
  const Tiers: seq<Selector> := SpecificSelectors + (GeneralSelectors + [LastResortSelector])

  /** The first match of `sel` exists and qualifies. */
  predicate TierHits(d: Document, sel: Selector) {
    var c := QuerySelector(d.elements, sel);
    c.Some? && Qualifies(Some(d.elements[c.value]))
  }

  /** The first match of the first selector in `sels` whose first match qualifies. */
  function FirstQualifying(d: Document, sels: seq<Selector>): (r: Option<nat>)
    ensures r.Some? ==> r.value < |d.elements| && Qualifies(Some(d.elements[r.value]))
  {
    if sels == [] then None
    else if TierHits(d, sels[0]) then QuerySelector(d.elements, sels[0])
    else FirstQualifying(d, sels[1..])
  }

  /** `findTargetElement`: the focused element if it qualifies, otherwise the tiered search. */
  function TargetOf(d: Document): (r: Option<nat>)
    requires WellFormed(d)
    ensures r.Some? ==> r.value < |d.elements| && Qualifies(Some(d.elements[r.value]))
  {
    if Qualifies(ActiveElement(d)) then d.focused else FirstQualifying(d, Tiers)
  }

  /** Trying `a` and then `b` is trying `a + b`. */
  lemma {:induction false} FirstQualifyingAppend(d: Document, a: seq<Selector>, b: seq<Selector>)
    ensures FirstQualifying(d, a + b) ==
      if FirstQualifying(d, a).Some? then FirstQualifying(d, a) else FirstQualifying(d, b)
  {
    if a == [] {
      assert a + b == b;
    } else {
      assert (a + b)[0] == a[0];
      assert (a + b)[1..] == a[1..] + b;
      FirstQualifyingAppend(d, a[1..], b);
    }
  }

  /** The search settles on the first selector whose first match qualifies. */
  lemma {:induction false} FirstQualifyingPicksFirstHit(d: Document, sels: seq<Selector>, k: nat)
    requires k < |sels| && TierHits(d, sels[k])
    requires forall j :: 0 <= j < k ==> !TierHits(d, sels[j])
    ensures FirstQualifying(d, sels) == QuerySelector(d.elements, sels[k])
  {
    if k > 0 {
      assert !TierHits(d, sels[0]);
      FirstQualifyingPicksFirstHit(d, sels[1..], k - 1);
    }
  }

  /** The search finds nothing exactly when no selector's first match qualifies. */
  lemma {:induction false} FirstQualifyingNone(d: Document, sels: seq<Selector>)
    ensures FirstQualifying(d, sels).None? <==> forall k :: 0 <= k < |sels| ==> !TierHits(d, sels[k])
  {
    if sels != [] {
      FirstQualifyingNone(d, sels[1..]);
      assert forall k :: 1 <= k < |sels| ==> sels[k] == sels[1..][k - 1];
    }
  }

  /** Focus wins: a qualifying focused element is chosen whatever the selectors match. */
  lemma FocusWins(d: Document)
    requires WellFormed(d) && Qualifies(ActiveElement(d))
    ensures TargetOf(d) == d.focused && TargetOf(d).Some?
  {
  }

  /**
   * Tier order: without a qualifying focus, the result is the first match of
   * the earliest selector whose first match qualifies.
   */
  lemma TierOrder(d: Document, k: nat)
    requires WellFormed(d) && !Qualifies(ActiveElement(d))
    requires k < |Tiers| && TierHits(d, Tiers[k])
    requires forall j :: 0 <= j < k ==> !TierHits(d, Tiers[j])
    ensures TargetOf(d) == QuerySelector(d.elements, Tiers[k])
  {
    FirstQualifyingPicksFirstHit(d, Tiers, k);
  }

  /** The search returns null exactly when the focus and every selector's first match fail. */
  lemma TargetNone(d: Document)
    requires WellFormed(d)
    ensures TargetOf(d).None? <==>
      !Qualifies(ActiveElement(d)) && forall k :: 0 <= k < |Tiers| ==> !TierHits(d, Tiers[k])
  {
    FirstQualifyingNone(d, Tiers);
  }

  /** A `div` with the given role and width and otherwise neutral attributes. */
  function Div(role: Option<string>, width: int): Element {
    Element("DIV", "", false, false, false, role, "", None, None, width, 10, "block", "visible", "1", "", "")
  }

  /** A plain `<body>`, the active element of a page where nothing has focus. */
  function Body(): Element {
    Element("BODY", "", false, false, false, None, "", None, None, 800, 600, "block", "visible", "1", "", "")
  }

  /**
   * Only first matches count: on a page where nothing has focus, the second
   * `role="textbox"` element qualifies, but the first one, which is
   * invisible, stops the search for that selector.
   */
  lemma OnlyFirstMatchConsidered()
    ensures var d := Document([Body(), Div(Some("textbox"), 0), Div(Some("textbox"), 5)], Some(0));
      Qualifies(Some(d.elements[2])) && TargetOf(d).None?
  {
    var d := Document([Body(), Div(Some("textbox"), 0), Div(Some("textbox"), 5)], Some(0));
    assert !Qualifies(ActiveElement(d));
    assert QuerySelector(d.elements, RoleIs("textbox")) == Some(1);
    assert QuerySelector(d.elements, IdIs("prompt-textarea")).None?;
    assert QuerySelector(d.elements, TextareaPlaceholderContains("Ask me")).None?;
    assert QuerySelector(d.elements, TextareaNotDisabledNotReadonly).None?;
    assert QuerySelector(d.elements, LastResortSelector).None?;
    TargetNone(d);
  }

  // ---------------------------------------------------------------------------
  // The search, as the source runs it
  // ---------------------------------------------------------------------------

  /** One `for (const selector of …)` loop: the first selector whose first match qualifies. */
  method ScanSelectors(d: Document, selectors: seq<Selector>) returns (element: Option<nat>)
    ensures element == FirstQualifying(d, selectors)
  {
    var k := 0;
    while k < |selectors|
      invariant 0 <= k <= |selectors|
      invariant FirstQualifying(d, selectors[k..]) == FirstQualifying(d, selectors)
    {
      element := QuerySelector(d.elements, selectors[k]);
      if element.Some? && IsValidInputElement(Some(d.elements[element.value])) && IsElementVisible(Some(d.elements[element.value])) {
        return;
      }
      assert selectors[k..][1..] == selectors[k + 1..];
      k := k + 1;
    }
    return None;
  }

  /** `findTargetElement`: focus first, then the specific, general and last-resort selectors. */
  method FindTargetElement(d: Document) returns (element: Option<nat>)
    requires WellFormed(d)
    ensures element == TargetOf(d)
  {
    var active := ActiveElement(d);
    if IsValidInputElement(active) && IsElementVisible(active) {
      return d.focused;
    }
    FirstQualifyingAppend(d, SpecificSelectors, GeneralSelectors + [LastResortSelector]);
    FirstQualifyingAppend(d, GeneralSelectors, [LastResortSelector]);

    element := ScanSelectors(d, SpecificSelectors);
    if element.Some? {
      return;
    }
    element := ScanSelectors(d, GeneralSelectors);
    if element.Some? {
      return;
    }
    element := QuerySelector(d.elements, LastResortSelector);
    if element.Some? && IsValidInputElement(Some(d.elements[element.value])) && IsElementVisible(Some(d.elements[element.value])) {
      return;
    }
    return None;
  }

  // ---------------------------------------------------------------------------
  // Injection
  // ---------------------------------------------------------------------------

  datatype EventType = InputEvent | ChangeEvent

  /** An event dispatched on the element at index `target`. */
  datatype DomEvent = DomEvent(eventType: EventType, target: nat, bubbles: bool)

  /**
   * What `document.execCommand('insertText', …)` did: it returned (whatever
   * boolean it returned), leaving `resultingText` as the element's text, or it threw.
   */
  datatype ExecCommandOutcome = Returned(resultingText: string) | Threw

  /**
   * The target after the write: rich-text targets take the editing
   * command's result, or `templateText` as `textContent` when the command
   * threw; every other valid target is an INPUT or TEXTAREA and takes
   * `templateText` as `value`.
   */
  function Written(e: Element, templateText: string, execCommand: ExecCommandOutcome): (r: Element)
    ensures r == e.(textContent := r.textContent, value := r.value)
    ensures EditsAsRichText(e) ==> r.value == e.value
    ensures EditsAsRichText(e) && execCommand.Threw? ==> r.textContent == templateText
    ensures EditsAsRichText(e) && execCommand.Returned? ==> r.textContent == execCommand.resultingText
    ensures !EditsAsRichText(e) && (e.tagName == "TEXTAREA" || e.tagName == "INPUT") ==>
      r.value == templateText && r.textContent == e.textContent
    ensures !EditsAsRichText(e) && e.tagName != "TEXTAREA" && e.tagName != "INPUT" ==> r == e
  {
    if EditsAsRichText(e) then
      e.(textContent := if execCommand.Threw? then templateText else execCommand.resultingText)
    else if e.tagName == "TEXTAREA" || e.tagName == "INPUT" then e.(value := templateText)
    else e
  }

  /** The page the script runs in: its document and the events dispatched so far. */
  class Page {
    var doc: Document
    var events: seq<DomEvent>

    constructor(d: Document)
      requires WellFormed(d)
      ensures doc == d && events == []
    {
      doc := d;
      events := [];
    }

    /**
     * `insertTextIntoTargetField(templateText)`. With a target it focuses it,
     * writes the text, dispatches a bubbling `input` and then a bubbling
     * `change` event on it, and returns true; without one it changes nothing
     * and returns false.
     */
    method InsertTextIntoTargetField(templateText: string, execCommand: ExecCommandOutcome) returns (filled: bool)
      requires WellFormed(doc)
      modifies this
      ensures WellFormed(doc)
      ensures filled <==> TargetOf(old(doc)).Some?
      ensures !filled ==> doc == old(doc) && events == old(events)
      ensures filled ==>
        var i := TargetOf(old(doc)).value;
        var e := old(doc).elements[i];
        && doc.focused == Some(i)
        && doc.elements == old(doc).elements[i := Written(e, templateText, execCommand)]
        && events == old(events) + [DomEvent(InputEvent, i, true), DomEvent(ChangeEvent, i, true)]
    {
      var targetElement := FindTargetElement(doc);
      if targetElement.Some? {
        var i := targetElement.value;
        doc := doc.(focused := Some(i));
        var e := doc.elements[i];
        if EditsAsRichText(e) {
          match execCommand
          case Returned(text) => e := e.(textContent := text);
          case Threw => e := e.(textContent := templateText);
        } else if e.tagName == "TEXTAREA" || e.tagName == "INPUT" {
          e := e.(value := templateText);
        }
        doc := doc.(elements := doc.elements[i := e]);
        events := events + [DomEvent(InputEvent, i, true)];
        events := events + [DomEvent(ChangeEvent, i, true)];
        return true;
      }
      return false;
    }
  }
}
