# smart-prompt-filler popup, modelled in Dafny

The browser-extension popup keeps named prompt templates and writes a template
into a text field of the active web page. This project models two parts of
`popup.js`. The first is `insertTextIntoTargetField`, the function injected into the page.
It picks the target element with a tiered first-match search:
the focused element, then `#prompt-textarea`, `textarea[placeholder*="Ask me"]`,
`textarea:not([disabled]):not([readonly])`, `[role="textbox"]`, and last `[contenteditable="true"]`.
It then writes the text and dispatches `input` and then `change`. The second part is the template
operations: `saveTemplate`, `deleteTemplate` and the guard and result test of `fillForm`.

Files:

- `wrappers.dfy`: `Option`, which stands for a value that may be `null` or `undefined`.
- `js_string.dfy`: JavaScript `trim` (white space as ECMAScript defines it) and the substring test that `*=` uses.
- `dom.dfy`: an element is a record, and a document is its elements in document order plus the index of the focused one.
  `querySelector` is the first index whose element matches a `Selector`.
- `target_field.dfy`: the two predicates and the search. `TargetOf` specifies the search as a function, and
  `FindTargetElement` runs it with the source's loops. The `Page` class holds the document and
  the log of dispatched events, and its `InsertTextIntoTargetField` performs the injection.
- `templates.dfy`: the `Popup` class. Its fields are the stored `savedTemplates` map, the
  `currentTemplate` slot, the editor text and the name field. Save, delete and fill are its methods.

Two behaviours differ from what one might expect; the model follows the code:

- One might expect a save followed by a load to return the body exactly. The code stores
  the trimmed body, so `SaveTemplate` stores `Trim(editorText)`.
  `TrimKeepsTrimmed` shows that a body without surrounding white space comes back unchanged.
- One might expect the general tiers to take the first match that passes
  the checks. The code examines only the first match of each selector.
  The model does the same; see `OnlyFirstMatchConsidered`.

## Model

| member | source | states |
|---|---|---|
| JsString.TrimStart | popup.js:52-53 | the result is the longest suffix of the input that does not start with white space; everything dropped is white space |
| JsString.TrimEnd | popup.js:52-53 | the result is the longest prefix of the input that does not end with white space; everything dropped is white space |
| JsString.Trim | popup.js:52-55 | the result is a contiguous slice of the input with only white space before and after it; it is empty (falsy) exactly when the input is all white space, and otherwise starts and ends with a non-space character |
| JsString.TrimIdempotent | popup.js:164 | trimming an already trimmed text changes nothing |
| JsString.TrimKeepsTrimmed | popup.js:53-74 | a body without leading or trailing white space is stored exactly as typed |
| Dom.ActiveElement | popup.js:221 | `document.activeElement` is the element at index `focused` (the focused element, or the body when nothing has focus), and null exactly when the document has no such element |
| Dom.Matches | popup.js:224-236 | `#id`, `[role=…]` and `[contenteditable=…]` match exactly the elements with that attribute value; `textarea:not([disabled]):not([readonly])` matches exactly enabled, writable textareas; the textarea selectors match only TEXTAREA elements; `textarea[placeholder*=…]` matches exactly the textareas whose placeholder contains the non-empty operand, so an empty operand matches nothing |
| JsString.ContainsIffOccurs | popup.js:224 | the substring test behind `*=` holds exactly when the operand occurs at some index of the attribute value |
| Dom.QuerySelector | popup.js:226 | `querySelector` returns the first element in document order that matches, and null when no element matches |
| TargetField.IsValidInputElement | popup.js:204-211 | false for an absent, disabled or read-only element whatever its tag, type or role; otherwise true exactly for INPUT of type text, search or none, TEXTAREA, content-editable or `role="textbox"` |
| TargetField.IsElementVisible | popup.js:213-218 | true exactly when width > 0, height > 0, display is not `none`, visibility is not `hidden` and opacity is not the string `"0"` |
| TargetField.FirstQualifying | popup.js:225-237 | whatever the selector loop returns is an element of the document that is valid and visible |
| TargetField.TargetOf | popup.js:220-240 | soundness: a non-null search result is a document element that is both valid and visible |
| TargetField.FirstQualifyingAppend | popup.js:224-237 | trying one selector list and then another is the same as trying their concatenation, which is how the two loops and the last-resort check chain |
| TargetField.FirstQualifyingPicksFirstHit | popup.js:225-228 | the loop returns the first match of the earliest selector whose first match qualifies |
| TargetField.FirstQualifyingNone | popup.js:225-239 | the loop finds nothing exactly when no selector's first match qualifies |
| TargetField.FocusWins | popup.js:221-222 | a valid, visible focused element is returned even when a named selector matches another element |
| TargetField.TierOrder | popup.js:224-237 | without a qualifying focus, the tiers are tried in their fixed order and the earliest tier whose first match qualifies decides |
| TargetField.TargetNone | popup.js:220-240 | the search returns null exactly when the focus and every tier's first match are absent or fail a check |
| TargetField.OnlyFirstMatchConsidered | popup.js:230-234 | on a page where nothing has focus (the body is the active element), a qualifying later match of `[role="textbox"]` is not found when that selector's first match is invisible |
| TargetField.ScanSelectors | popup.js:225-228 | one selector loop returns exactly what the search specification gives for that selector list |
| TargetField.FindTargetElement | popup.js:220-240 | the procedure with its early returns computes exactly `TargetOf` |
| TargetField.Written | popup.js:247-255 | only `textContent` and `value` of the target change. A content-editable or textbox target keeps its value and gets the editing command's result, or the payload as `textContent` when the command throws. An INPUT or TEXTAREA target gets the payload as `value` and keeps its text. Any other element is left unchanged |
| TargetField.Page.InsertTextIntoTargetField | popup.js:242-272 | returns true exactly when a target exists. The target gets focus. A content-editable or textbox target gets the editing command's result, or the payload as `textContent` when the command throws. An INPUT or TEXTAREA target gets the payload as `value`. No other element changes, and a bubbling `input` then a bubbling `change` event are appended. With no target, nothing changes and the result is false |
| Templates.HasTruthyEntry | popup.js:68 | the overwrite check fires exactly when the name is stored with a non-empty body; an absent name never triggers it |
| Templates.IsFilled | popup.js:183 | success exactly when the result list is present and non-empty and its first entry is exactly `true` |
| Templates.IsFilledSingleFrame | popup.js:177-183 | with one frame, the fill reports success exactly when the injected function returned true |
| Templates.Popup.SaveTemplate | popup.js:51-81 | an empty trimmed name or body is rejected with no change. An existing truthy entry is overwritten only with confirmation. Otherwise the map gains trimmed name → trimmed body, the name field is cleared, and every other entry is unchanged |
| Templates.Popup.DeleteTemplate | popup.js:96-113 | without confirmation nothing changes. With confirmation exactly the given key is removed and every other entry is unchanged. The editor is reset to the default text exactly when it shows the deleted body (the corrected test; see Findings) |
| Templates.Popup.FillForm | popup.js:163-196 | an all-white-space editor text is refused and nothing changes. Otherwise the trimmed text becomes the current template, and the outcome is Filled exactly when the page has a target. When Filled, the target has focus, holds the trimmed text as `Written` describes, no other element changes, and `input` then `change` are dispatched on it; when NotFilled, the page is unchanged |
| Templates.ResetsEditorAsWritten | popup.js:109 | the reset test as written holds only when the name is still in the map after the delete and the trimmed editor text equals its entry |
| Templates.ResetsEditor | popup.js:108-111 | the intended reset test holds exactly when the name was stored and the trimmed editor text equals its body; so never for a name that was not stored, and never for an all-white-space editor when the body was non-empty |
| Templates.DeleteNeverResetsAsWritten | popup.js:101-111 | as written, the reset test reads the key that was just deleted, so it never fires |
| Templates.AsWrittenMissesOpenTemplate | popup.js:103-111 | whenever the editor shows the deleted body, the intended test fires and the written one does not |
| Templates.AsWrittenMissesOpenTemplateExample | popup.js:108-111 | deleting "Foo" while the editor shows its body "Hello" resets under the intended test and not under the written one |

## Findings

| source | as written | input that shows it | evidently intended | confidence | as-written member | corrected member |
|---|---|---|---|---|---|---|
| popup.js:103-111 | `delete savedTemplates[templateName]` runs before the test `templateTextarea.value.trim() === savedTemplates[templateName]`, so the test compares against `undefined` and never holds (`DeleteNeverResetsAsWritten`; the concrete input is `AsWrittenMissesOpenTemplateExample`) | saved `{"Foo": "Hello"}`, editor text `Hello`, delete `Foo` confirmed: the editor keeps `Hello` | the comment at line 108 says the default template is loaded when the deleted template is the editor's content, so the test should use the body from before the deletion, as `DeleteTemplate` does | high (not executed) | Templates.ResetsEditorAsWritten | Templates.ResetsEditor |

## Left out

- Templates.Popup.DeleteTemplate: models the corrected reset test; the code as written never resets the editor (see Findings).
- `chrome.storage.sync` get/set, `chrome.tabs.query` and `chrome.scripting.executeScript` are asynchronous I/O. Storage is the `Popup` fields. Injection is a direct call on a `Page` with exactly one frame. The transport-error branch of `fillForm` (popup.js:192-195) is not modelled.
- Concurrent operations are not modelled. Each operation's storage get and set are taken to run back to back. In the browser, two quick deletes can both read the same map, and the second set then restores the key the first one removed.
- `renderTemplateList`, `showStatus`, `loadTemplate`, `loadTemplateByName`, `resetTemplate`, the keyboard shortcuts (popup.js:283-296) and `window.close` (popup.js:187) are UI wiring with no logic beyond assignments.
- `confirm` dialogs are boolean parameters (`confirmOverwrite`, `confirmed`).
- The outline/box-shadow highlight and its `setTimeout` restore (popup.js:260-268) are cosmetic and not modelled.
- `document.execCommand('insertText')` internals are not modelled: its outcome is an input, either it returned and left some text in the element, or it threw. Where the browser puts the text (the caret, the value of a form control carrying `role="textbox"`) is not modelled. The boolean it returns is ignored, as in the source.
- `focus()` is assumed to move focus to the target. An element the browser refuses to focus, such as a `div` with `role="textbox"` and no `tabindex`, is not modelled.
- The fallback `textContent` assignment cannot fail in the model, so the unrecoverable-failure path does not arise.
- The CSS selector engine, `getBoundingClientRect` and `getComputedStyle` are not modelled. Each selector is a predicate on element fields. Width and height are integers whose sign stands for the real box size; no floating point is modelled.
- `element.type` is taken as given; the DOM's normalisation of unknown or missing input types is not modelled.
- The template map holds only own keys. Names that JavaScript objects inherit (`toString`, `__proto__`, …) behave differently in the source and are not modelled.
