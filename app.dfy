/** The application state of WarningGeneratorApp: the warning and template
    lists, the warning-number counter, the storage slots they are written
    to, and the form whose fields the app reads, validates and fills. */
module App {
  import opened Wrappers
  import opened Text
  import opened Records
  import opened Counter
  import opened History
  import opened Analytics

  /** validateField's test: the value is not blank after trim(). */
  predicate IsFilled(value: string) {
    Trim(value) != ""
  }

  /** A value passes validation exactly when some character of it is not
      whitespace. */
  lemma IsFilledIff(value: string)
    ensures IsFilled(value) <==> exists i :: 0 <= i < |value| && !IsWhitespace(value[i])
  {
    TrimEmptyIff(value);
  }

  /** Where the focus is after validateField has run on each field of fs
      in turn, starting from init: on the last blank one, or still on init
      when every one is filled. */
  function FocusAfter(values: FieldValues, fs: seq<Field>, init: Option<Field>): Option<Field>
    requires forall f: Field :: f in values
  {
    if |fs| == 0 then init
    else if !IsFilled(values[fs[|fs| - 1]]) then Some(fs[|fs| - 1])
    else FocusAfter(values, fs[..|fs| - 1], init)
  }

  /** The set of fields listed in fs. */
  function Listed(fs: seq<Field>): set<Field> {
    set f | f in fs
  }

  /** The listed fields whose value is blank. */
  function Unfilled(values: FieldValues, fs: seq<Field>): set<Field>
    requires forall f: Field :: f in values
  {
    set f | f in fs && !IsFilled(values[f])
  }

  /** One more validateField call extends the marks and the focus by the
      next required field. */
  lemma ValidationStep(values: FieldValues, required: seq<Field>, i: int, marks0: set<Field>, focus0: Option<Field>)
    requires forall f: Field :: f in values
    requires 0 <= i < |required|
    ensures var f := required[i];
            var marks := (marks0 - Listed(required[..i])) + Unfilled(values, required[..i]);
            && (marks0 - Listed(required[..i + 1])) + Unfilled(values, required[..i + 1])
               == (if IsFilled(values[f]) then marks - {f} else marks + {f})
            && FocusAfter(values, required[..i + 1], focus0)
               == (if IsFilled(values[f]) then FocusAfter(values, required[..i], focus0) else Some(f))
  {
    var done := required[..i];
    var f := required[i];
    assert required[..i + 1] == done + [f];
    assert (done + [f])[..i] == done;
    assert Listed(done + [f]) == Listed(done) + {f};
    assert Unfilled(values, done + [f]) == Unfilled(values, done) + (if IsFilled(values[f]) then {} else {f});
  }

  /** The limit updateCharCounter enforces on the details textarea. */
  const MaxDetailsLength: nat := 1000

  /** The form's input elements: their values, the signature checkbox, and
      which fields carry the error mark and the focus. */
  class Form {
    var values: FieldValues
    var requireEmployeeSignature: bool
    var errorMarks: set<Field>
    var focused: Option<Field>

    /** Every field has an input element. */
    ghost predicate Valid()
      reads this
    {
      forall f: Field :: f in values
    }

    constructor (values: FieldValues, requireEmployeeSignature: bool)
      requires forall f: Field :: f in values
      ensures Valid()
      ensures this.values == values && this.requireEmployeeSignature == requireEmployeeSignature
      ensures errorMarks == {} && focused == None
    {
      this.values := values;
      this.requireEmployeeSignature := requireEmployeeSignature;
      errorMarks := {};
      focused := None;
    }

    /** validateField: a blank value gets the error mark and the focus, a
        filled one loses the mark. */
    method ValidateField(f: Field) returns (ok: bool)
      requires Valid()
      modifies this`errorMarks, this`focused
      ensures ok == IsFilled(values[f])
      ensures errorMarks == if ok then old(errorMarks) - {f} else old(errorMarks) + {f}
      ensures focused == if ok then old(focused) else Some(f)
    {
      var value := Trim(values[f]);
      ok := value != "";
      if ok {
        errorMarks := errorMarks - {f};
      } else {
        errorMarks := errorMarks + {f};
        focused := Some(f);
      }
    }

    /** validateForm: every required field is validated, none skipped after
        a failure; the result is true exactly when all are filled. */
    method ValidateForm(required: seq<Field>) returns (isValid: bool)
      requires Valid()
      modifies this`errorMarks, this`focused
      ensures isValid <==> forall i :: 0 <= i < |required| ==> IsFilled(values[required[i]])
      ensures errorMarks == (old(errorMarks) - Listed(required)) + Unfilled(values, required)
      ensures focused == FocusAfter(values, required, old(focused))
    {
      isValid := true;
      var i := 0;
      while i < |required|
        invariant 0 <= i <= |required|
        invariant isValid <==> forall j :: 0 <= j < i ==> IsFilled(values[required[j]])
        invariant errorMarks == (old(errorMarks) - Listed(required[..i])) + Unfilled(values, required[..i])
        invariant focused == FocusAfter(values, required[..i], old(focused))
      {
        var ok := ValidateField(required[i]);
        if !ok {
          isValid := false;
        }
        ValidationStep(values, required, i, old(errorMarks), old(focused));
        i := i + 1;
      }
      assert required[..i] == required;
    }

    /** updateCharCounter on the details textarea: a value over 1000
        characters is cut to its first 1000; the counter shows the length
        that remains and turns red when the limit was exceeded. */
    method UpdateCharCounter() returns (shown: nat, overLimit: bool)
      requires Valid()
      modifies this`values
      ensures Valid()
      ensures overLimit == (|old(values)[WarningDetails]| > MaxDetailsLength)
      ensures values == old(values)[WarningDetails := Clamp(old(values)[WarningDetails], MaxDetailsLength)]
      ensures shown == |values[WarningDetails]|
    {
      var current := |values[WarningDetails]|;
      shown := current;
      overLimit := current > MaxDetailsLength;
      if current > MaxDetailsLength {
        values := values[WarningDetails := values[WarningDetails][..MaxDetailsLength]];
        shown := MaxDetailsLength;
      }
    }

    /** The field-by-field copy of fillFormWithData and useTemplate: each
        listed field whose source value is present and non-empty is
        overwritten, every other field keeps its value. */
    method CopyNonEmpty(source: FieldValues, fields: seq<Field>)
      requires Valid()
      modifies this`values
      ensures Valid()
      ensures forall f: Field :: values[f] == if f in fields && Truthy(source, f) then source[f] else old(values)[f]
    {
      var i := 0;
      while i < |fields|
        invariant 0 <= i <= |fields|
        invariant Valid()
        invariant forall f: Field :: values[f] == if f in fields[..i] && Truthy(source, f) then source[f] else old(values)[f]
      {
        var f := fields[i];
        if Truthy(source, f) {
          values := values[f := source[f]];
        }
        assert fields[..i + 1] == fields[..i] + [f];
        i := i + 1;
      }
      assert fields[..i] == fields;
    }
  }

  /** The application object. The three stored* fields stand for the
      localStorage slots 'warnings', 'templates' and 'nextWarningNumber',
      holding the values last written (serialisation is not modelled). */
  class WarningGeneratorApp {
    const form: Form
    var warnings: seq<Warning>
    var templates: seq<Template>
    var currentWarningNumber: WarningNumber
    var storedWarnings: Option<seq<Warning>>
    var storedTemplates: Option<seq<Template>>
    var storedWarningNumber: Option<string>

    ghost predicate Valid()
      reads this, form
    {
      form.Valid()
    }

    /** The constructor: the counter from its slot, the lists from theirs
        (an empty slot gives an empty list). The slots hold what was parsed
        from them. */
    constructor (form: Form, savedNumber: Option<string>,
                 savedWarnings: Option<seq<Warning>>, savedTemplates: Option<seq<Template>>)
      requires form.Valid()
      ensures Valid() && this.form == form
      ensures currentWarningNumber == GetNextWarningNumber(savedNumber)
      ensures warnings == (if savedWarnings.Some? then savedWarnings.value else [])
      ensures templates == (if savedTemplates.Some? then savedTemplates.value else [])
      ensures storedWarnings == savedWarnings && storedTemplates == savedTemplates
      ensures storedWarningNumber == savedNumber
    {
      this.form := form;
      currentWarningNumber := GetNextWarningNumber(savedNumber);
      warnings := if savedWarnings.Some? then savedWarnings.value else [];
      templates := if savedTemplates.Some? then savedTemplates.value else [];
      storedWarnings := savedWarnings;
      storedTemplates := savedTemplates;
      storedWarningNumber := savedNumber;
    }

    /** saveWarning: append and write the list back. */
    method SaveWarning(data: Warning)
      modifies this`warnings, this`storedWarnings
      ensures warnings == old(warnings) + [data]
      ensures storedWarnings == Some(warnings)
    {
      warnings := warnings + [data];
      storedWarnings := Some(warnings);
    }

    /** saveTemplate: a name that is blank after trimming is refused and
        nothing changes; otherwise the collected form data, stamped with the
        given time and carrying the trimmed name and description and the
        template identifier, is appended and the list written back. */
    method SaveTemplate(nameInput: string, descriptionInput: string, id: string, templateId: string, now: int)
      returns (saved: bool)
      requires Valid()
      modifies this`templates, this`storedTemplates
      ensures saved == (Trim(nameInput) != "")
      ensures saved ==> templates == old(templates) + [Template(
                          CollectFormData(form.values, form.requireEmployeeSignature, id, now),
                          Trim(nameInput), Trim(descriptionInput), templateId)]
      ensures saved ==> storedTemplates == Some(templates)
      ensures !saved ==> templates == old(templates) && storedTemplates == old(storedTemplates)
    {
      var name := Trim(nameInput);
      var description := Trim(descriptionInput);
      if name == "" {
        saved := false;
        return;
      }
      var templateData := CollectFormData(form.values, form.requireEmployeeSignature, id, now);
      templates := templates + [Template(templateData, name, description, templateId)];
      storedTemplates := Some(templates);
      saved := true;
    }

    /** deleteWarning: when confirmed, keep the warnings with another
        identifier and write the list back. */
    method DeleteWarning(warningId: string, confirmed: bool)
      modifies this`warnings, this`storedWarnings
      ensures confirmed ==> warnings == WithoutWarning(old(warnings), warningId) && storedWarnings == Some(warnings)
      ensures !confirmed ==> warnings == old(warnings) && storedWarnings == old(storedWarnings)
    {
      if confirmed {
        warnings := WithoutWarning(warnings, warningId);
        storedWarnings := Some(warnings);
      }
    }

    /** deleteTemplate: when confirmed, keep the templates with another
        identifier and write the list back. */
    method DeleteTemplate(templateId: string, confirmed: bool)
      modifies this`templates, this`storedTemplates
      ensures confirmed ==> templates == WithoutTemplate(old(templates), templateId) && storedTemplates == Some(templates)
      ensures !confirmed ==> templates == old(templates) && storedTemplates == old(storedTemplates)
    {
      if confirmed {
        templates := WithoutTemplate(templates, templateId);
        storedTemplates := Some(templates);
      }
    }

    /** incrementWarningNumber: one more, written back as its decimal
        notation. */
    method IncrementWarningNumber()
      modifies this`currentWarningNumber, this`storedWarningNumber
      ensures currentWarningNumber == Increment(old(currentWarningNumber))
      ensures storedWarningNumber == Some(NumberToString(currentWarningNumber))
      ensures GetNextWarningNumber(storedWarningNumber) == currentWarningNumber
    {
      currentWarningNumber := Increment(currentWarningNumber);
      storedWarningNumber := Some(NumberToString(currentWarningNumber));
      CounterSurvivesReload(currentWarningNumber);
    }

    /** generatePreview once its delay has passed: if validation fails
        nothing is stored; otherwise the collected warning is appended and the
        counter advances by one. */
    method GeneratePreview(required: seq<Field>, id: string, now: int) returns (generated: bool)
      requires Valid()
      modifies this`warnings, this`storedWarnings, this`currentWarningNumber, this`storedWarningNumber
      modifies form`errorMarks, form`focused
      ensures Valid()
      ensures form.values == old(form.values) && form.requireEmployeeSignature == old(form.requireEmployeeSignature)
      ensures templates == old(templates)
      ensures generated <==> forall i :: 0 <= i < |required| ==> IsFilled(form.values[required[i]])
      ensures generated ==> warnings == old(warnings) + [CollectFormData(form.values, form.requireEmployeeSignature, id, now)]
      ensures generated ==> currentWarningNumber == Increment(old(currentWarningNumber))
      ensures !generated ==> warnings == old(warnings) && currentWarningNumber == old(currentWarningNumber)
      ensures storedWarnings == (if generated then Some(warnings) else old(storedWarnings))
      ensures storedWarningNumber == (if generated then Some(NumberToString(currentWarningNumber)) else old(storedWarningNumber))
      ensures generated ==> GetNextWarningNumber(storedWarningNumber) == currentWarningNumber
      ensures storedTemplates == old(storedTemplates)
      ensures form.errorMarks == (old(form.errorMarks) - Listed(required)) + Unfilled(form.values, required)
      ensures form.focused == FocusAfter(form.values, required, old(form.focused))
    {
      generated := form.ValidateForm(required);
      if !generated {
        return;
      }
      var warningData := CollectFormData(form.values, form.requireEmployeeSignature, id, now);
      SaveWarning(warningData);
      IncrementWarningNumber();
    }

    /** fillFormWithData: every form field with a non-empty value in data is
        overwritten, the others keep theirs, and the checkbox takes the
        record's flag. */
    method FillFormWithData(data: Warning)
      requires Valid()
      modifies form`values, form`requireEmployeeSignature
      ensures Valid()
      ensures forall f: Field :: form.values[f] == if Truthy(data.fields, f) then data.fields[f] else old(form.values)[f]
      ensures form.requireEmployeeSignature == data.requireEmployeeSignature
    {
      form.CopyNonEmpty(data.fields, FormFields);
      form.requireEmployeeSignature := data.requireEmployeeSignature;
      forall f: Field ensures f in FormFields {
        FormFieldsComplete(f);
      }
    }

    /** useTemplate: an unknown identifier changes nothing; otherwise only the
        nine template fields can change, each to the template's value when
        that is non-empty. */
    method UseTemplate(templateId: string) returns (found: bool)
      requires Valid()
      modifies form`values
      ensures Valid()
      ensures found <==> exists i :: 0 <= i < |templates| && templates[i].templateId == templateId
      ensures !found ==> form.values == old(form.values)
      ensures found ==> var t := FindTemplate(templates, templateId).value;
                        forall f: Field :: form.values[f] ==
                          if f in TemplateFields && Truthy(t.data.fields, f) then t.data.fields[f] else old(form.values)[f]
      ensures forall f: Field :: f !in TemplateFields ==> form.values[f] == old(form.values)[f]
    {
      var template := FindTemplate(templates, templateId);
      if template.None? {
        found := false;
        return;
      }
      form.CopyNonEmpty(template.value.data.fields, TemplateFields);
      found := true;
    }

    /** duplicateWarning: an unknown identifier changes nothing; otherwise the
        first warning with it fills the form. The form has no identifier or
        timestamp field, so generating afterwards records a new warning. */
    method DuplicateWarning(warningId: string) returns (found: bool)
      requires Valid()
      modifies form`values, form`requireEmployeeSignature
      ensures Valid()
      ensures found <==> exists i :: 0 <= i < |warnings| && warnings[i].id == warningId
      ensures !found ==> form.values == old(form.values)
                         && form.requireEmployeeSignature == old(form.requireEmployeeSignature)
      ensures found ==> var w := FindWarning(warnings, warningId).value;
                        && (forall f: Field :: form.values[f] ==
                              if Truthy(w.fields, f) then w.fields[f] else old(form.values)[f])
                        && form.requireEmployeeSignature == w.requireEmployeeSignature
    {
      var warning := FindWarning(warnings, warningId);
      if warning.None? {
        found := false;
        return;
      }
      FillFormWithData(warning.value);
      found := true;
    }

    /** updateAnalytics' counting loop over the warnings. */
    method UpdateAnalytics() returns (total: nat, byType: map<string, nat>, bySeverity: map<string, nat>)
      ensures total == |warnings|
      ensures byType == Tally(KeysOf(warnings, WarningType))
      ensures bySeverity == Tally(KeysOf(warnings, Severity))
    {
      total := |warnings|;
      byType := map[];
      bySeverity := map[];
      var i := 0;
      while i < |warnings|
        invariant 0 <= i <= |warnings|
        invariant byType == Tally(KeysOf(warnings[..i], WarningType))
        invariant bySeverity == Tally(KeysOf(warnings[..i], Severity))
      {
        var w := warnings[i];
        var t := KeyOf(w, WarningType);
        var s := KeyOf(w, Severity);
        byType := byType[t := (if t in byType then byType[t] else 0) + 1];
        bySeverity := bySeverity[s := (if s in bySeverity then bySeverity[s] else 0) + 1];
        TallyStep(warnings, i, WarningType);
        TallyStep(warnings, i, Severity);
        i := i + 1;
      }
      assert warnings[..i] == warnings;
    }

    /** loadHistory's entries, computed without reordering the stored list. */
    method LoadHistory() returns (items: seq<HistoryItem>)
      requires forall i :: 0 <= i < |warnings| ==> WarningDetails in warnings[i].fields
      ensures items == HistoryView(warnings)
    {
      items := HistoryView(warnings);
    }
  }
}
