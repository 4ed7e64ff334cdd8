/**
 * The popup's template handling (popup.js): the saved-template map with its
 * save and delete rules, and the fill action that hands the editor text to
 * the injected script. Storage is the class's fields. The model assumes one
 * operation at a time: each one's asynchronous `chrome.storage.sync` get and
 * set run back to back, so each operation is one sequential update.
 */
module Templates {
  import opened Wrappers
  import opened JsString
  import opened Dom
  import opened TargetField

  /** `DEFAULT_TEMPLATE`, the text the editor falls back to. */
  const DefaultTemplate: string := "[دور النظام]\nأنت مساعد ذكاء اصطناعي متقدم، مهمتك هي: ________________________________\n\n[السياق]\nالموضوع: __________________________\nالجمهور: __________________________\n\n[المهمة]\nأجب على السؤال التالي: ___________________________________________\n"

  /** `if (savedTemplates[name])`: a stored body that is truthy, that is, not empty. */
  predicate HasTruthyEntry(templates: map<string, string>, name: string)
    ensures name !in templates ==> !HasTruthyEntry(templates, name)
    ensures name in templates ==> (HasTruthyEntry(templates, name) <==> templates[name] != "")
  {
    name in templates && templates[name] != ""
  }

  datatype SaveOutcome = MissingName | EmptyContent | OverwriteDeclined | Saved

  // ---------------------------------------------------------------------------
  // The editor reset after a delete
  // ---------------------------------------------------------------------------

  /**
   * The reset test as `deleteTemplate` writes it: the trimmed editor text is
   * compared with the entry for `name` in the map AFTER the deletion. A
   * string is never `===` to `undefined`, so an absent entry never matches.
   */
  predicate ResetsEditorAsWritten(afterDelete: map<string, string>, name: string, editorText: string)
    ensures name !in afterDelete ==> !ResetsEditorAsWritten(afterDelete, name, editorText)
    ensures ResetsEditorAsWritten(afterDelete, name, editorText) ==> Trim(editorText) == afterDelete[name]
  {
    name in afterDelete && Trim(editorText) == afterDelete[name]
  }

  /** The intended reset test: the editor shows the body of the template being deleted. */
  predicate ResetsEditor(beforeDelete: map<string, string>, name: string, editorText: string)
    ensures name in beforeDelete && Trim(editorText) == beforeDelete[name] ==> ResetsEditor(beforeDelete, name, editorText)
    ensures ResetsEditor(beforeDelete, name, editorText) && name in beforeDelete && beforeDelete[name] != "" ==> !AllWhitespace(editorText)
    ensures name !in beforeDelete ==> !ResetsEditor(beforeDelete, name, editorText)
    ensures ResetsEditor(beforeDelete, name, editorText) ==> name in beforeDelete && Trim(editorText) == beforeDelete[name]
  {
    name in beforeDelete && Trim(editorText) == beforeDelete[name]
  }

  /** As written, a delete never resets the editor. */
  lemma DeleteNeverResetsAsWritten(templates: map<string, string>, name: string, editorText: string)
    ensures !ResetsEditorAsWritten(templates - {name}, name, editorText)
  {
  }

  /** Whenever the editor shows the deleted template, the two tests disagree. */
  lemma AsWrittenMissesOpenTemplate(templates: map<string, string>, name: string, editorText: string)
    requires name in templates && Trim(editorText) == templates[name]
    ensures ResetsEditor(templates, name, editorText)
    ensures !ResetsEditorAsWritten(templates - {name}, name, editorText)
  {
    DeleteNeverResetsAsWritten(templates, name, editorText);
  }

  /** A concrete input: deleting "Foo" while the editor shows its body "Hello". */
  lemma AsWrittenMissesOpenTemplateExample()
    ensures ResetsEditor(map["Foo" := "Hello"], "Foo", "Hello")
    ensures !ResetsEditorAsWritten(map["Foo" := "Hello"] - {"Foo"}, "Foo", "Hello")
  {
    assert Trim("Hello") == "Hello" by {
      assert !IsJsWhitespace('H') && !IsJsWhitespace('o');
      TrimKeepsTrimmed("Hello");
    }
    AsWrittenMissesOpenTemplate(map["Foo" := "Hello"], "Foo", "Hello");
  }

  // ---------------------------------------------------------------------------
  // The fill action's result test
  // ---------------------------------------------------------------------------

  /** One frame's entry of `executeScript`'s results; `result` is `None` when it is not a boolean. */
  datatype FrameResult = FrameResult(result: Option<bool>)

  /** `results && results.length > 0 && results[0].result === true`. */
  predicate IsFilled(results: Option<seq<FrameResult>>)
    ensures IsFilled(results) <==> results.Some? && results.value != [] && results.value[0].result == Some(true)
  {
    results.Some? && |results.value| > 0 && results.value[0].result == Some(true)
  }

  /** A single frame reports success exactly when the injected function returned true. */
  lemma IsFilledSingleFrame(filled: bool)
    ensures IsFilled(Some([FrameResult(Some(filled))])) == filled
  {
  }

  datatype FillOutcome = TemplateEmpty | Filled | NotFilled

  // ---------------------------------------------------------------------------
  // The popup's state
  // ---------------------------------------------------------------------------

  /**
   * The popup: the stored `savedTemplates` map and `currentTemplate` slot,
   * the template editor's text and the template-name field.
   */
  class Popup {
    var savedTemplates: map<string, string>
    var currentTemplate: string
    var editorText: string
    var nameField: string

    constructor(saved: map<string, string>, current: string, editor: string, name: string)
      ensures savedTemplates == saved && currentTemplate == current
      ensures editorText == editor && nameField == name
    {
      savedTemplates := saved;
      currentTemplate := current;
      editorText := editor;
      nameField := name;
    }

    /**
     * `saveTemplate`: stores the trimmed editor text under the trimmed name.
     * An empty name or body is refused; an existing truthy entry is
     * overwritten only when the user confirms.
     */
    method SaveTemplate(confirmOverwrite: bool) returns (outcome: SaveOutcome)
      modifies this
      ensures editorText == old(editorText) && currentTemplate == old(currentTemplate)
      ensures outcome == MissingName <==> AllWhitespace(old(nameField))
      ensures outcome == EmptyContent <==> !AllWhitespace(old(nameField)) && AllWhitespace(old(editorText))
      ensures outcome == OverwriteDeclined <==>
        && !AllWhitespace(old(nameField)) && !AllWhitespace(old(editorText))
        && HasTruthyEntry(old(savedTemplates), Trim(old(nameField))) && !confirmOverwrite
      ensures outcome != Saved ==> savedTemplates == old(savedTemplates) && nameField == old(nameField)
      ensures outcome == Saved ==>
        && savedTemplates == old(savedTemplates)[Trim(old(nameField)) := Trim(old(editorText))]
        && nameField == ""
      ensures outcome == Saved ==> savedTemplates[Trim(old(nameField))] == Trim(old(editorText))
      ensures forall k :: k != Trim(old(nameField)) ==>
        (k in savedTemplates <==> k in old(savedTemplates)) &&
        (k in savedTemplates ==> savedTemplates[k] == old(savedTemplates)[k])
    {
      var templateName := Trim(nameField);
      var templateContent := Trim(editorText);
      if templateName == "" {
        return MissingName;
      }
      if templateContent == "" {
        return EmptyContent;
      }
      if HasTruthyEntry(savedTemplates, templateName) && !confirmOverwrite {
        return OverwriteDeclined;
      }
      savedTemplates := savedTemplates[templateName := templateContent];
      nameField := "";
      return Saved;
    }

    /**
     * `deleteTemplate(name)` once the user has (or has not) confirmed: removes
     * exactly `name`, and puts the default text in the editor when the editor
     * shows the deleted body.
     */
    method DeleteTemplate(name: string, confirmed: bool)
      modifies this
      ensures currentTemplate == old(currentTemplate) && nameField == old(nameField)
      ensures !confirmed ==> savedTemplates == old(savedTemplates) && editorText == old(editorText)
      ensures confirmed ==> savedTemplates == old(savedTemplates) - {name}
      ensures confirmed ==> name !in savedTemplates
      ensures forall k :: k != name ==>
        (k in savedTemplates <==> k in old(savedTemplates)) &&
        (k in savedTemplates ==> savedTemplates[k] == old(savedTemplates)[k])
      ensures confirmed && name in old(savedTemplates) && Trim(old(editorText)) == old(savedTemplates)[name] ==>
        editorText == DefaultTemplate
      ensures !(confirmed && name in old(savedTemplates) && Trim(old(editorText)) == old(savedTemplates)[name]) ==>
        editorText == old(editorText)
    {
      if !confirmed {
        return;
      }
      var showsDeleted := ResetsEditor(savedTemplates, name, editorText);
      savedTemplates := savedTemplates - {name};
      if showsDeleted {
        editorText := DefaultTemplate;
      }
    }

    /**
     * `fillForm`: refuses an empty template; otherwise stores the trimmed
     * text as the current template, runs the injected function on the page
     * and reports whether its one frame returned true.
     */
    method FillForm(page: Page, execCommand: ExecCommandOutcome) returns (outcome: FillOutcome)
      requires WellFormed(page.doc)
      modifies this, page
      ensures WellFormed(page.doc)
      ensures savedTemplates == old(savedTemplates) && editorText == old(editorText) && nameField == old(nameField)
      ensures AllWhitespace(old(editorText)) ==>
        && outcome == TemplateEmpty && currentTemplate == old(currentTemplate)
        && page.doc == old(page.doc) && page.events == old(page.events)
      ensures !AllWhitespace(old(editorText)) ==>
        && currentTemplate == Trim(old(editorText))
        && (outcome == Filled <==> TargetOf(old(page.doc)).Some?)
        && (outcome == NotFilled <==> TargetOf(old(page.doc)).None?)
      ensures outcome == NotFilled ==> page.doc == old(page.doc) && page.events == old(page.events)
      ensures outcome == Filled ==>
        var i := TargetOf(old(page.doc)).value;
        && page.doc.focused == Some(i)
        && page.doc.elements == old(page.doc).elements[i := Written(old(page.doc).elements[i], Trim(old(editorText)), execCommand)]
        && page.events == old(page.events) + [DomEvent(InputEvent, i, true), DomEvent(ChangeEvent, i, true)]
    {
      var template := Trim(editorText);
      if template == "" {
        return TemplateEmpty;
      }
      currentTemplate := template;
      ghost var before := page.doc;
      var filled := page.InsertTextIntoTargetField(template, execCommand);
      assert filled <==> TargetOf(before).Some?;
      assert !filled ==> page.doc == before;
      var results := Some([FrameResult(Some(filled))]);
      IsFilledSingleFrame(filled);
      outcome := if IsFilled(results) then Filled else NotFilled;
    }
  }
}
