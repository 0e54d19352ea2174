/** The records the application keeps: warnings collected from the form and
    templates saved from it, and the list operations that add, remove and
    look them up. */
module Records {
  import opened Wrappers

  /** The named input fields of the warning form (the checkbox and the two
      file inputs are kept separately). */
  datatype Field =
    | Company | Department | WarningType | Severity | WarningDate
    | EmployeeName | EmployeeId | EmployeeEmail | EmployeePosition
    | WarningReason | WarningDetails | Consequences
    | ManagerName | ManagerPosition

  /** The fourteen fields that collectFormData reads and fillFormWithData
      writes, in the order the source lists them. */
  const FormFields: seq<Field> := [
    Company, Department, WarningType, Severity, WarningDate,
    EmployeeName, EmployeeId, EmployeeEmail, EmployeePosition,
    WarningReason, WarningDetails, Consequences,
    ManagerName, ManagerPosition
  ]

  /** The nine fields that useTemplate copies: no employee field and no date. */
  const TemplateFields: seq<Field> := [
    Company, Department, WarningType, Severity,
    WarningReason, WarningDetails, Consequences,
    ManagerName, ManagerPosition
  ]

  /** Every field is one of the form fields. */
  lemma FormFieldsComplete(f: Field)
    ensures f in FormFields
  {
  }

  /** A record's field values. A missing key is a property the stored object
      does not have (undefined in JavaScript). */
  type FieldValues = map<Field, string>

  /** A JavaScript property read used as a condition: present and not the
      empty string. */
  predicate Truthy(m: FieldValues, f: Field) {
    f in m && m[f] != ""
  }

  /** A generated warning: collectFormData's object with its metadata. The
      attached image files are not part of the model. */
  datatype Warning = Warning(
    id: string,
    createdAt: int,
    status: string,
    fields: FieldValues,
    requireEmployeeSignature: bool)

  /** A saved template: the collected form data plus its own name,
      description and identifier. */
  datatype Template = Template(
    data: Warning,
    templateName: string,
    templateDescription: string,
    templateId: string)

  /** collectFormData: every form field, the checkbox, a fresh identifier
      and timestamp supplied by the caller, and the status "active". */
  function CollectFormData(values: FieldValues, requireEmployeeSignature: bool, id: string, now: int): (w: Warning)
    ensures w.fields == values && w.id == id && w.createdAt == now && w.status == "active"
    ensures w.requireEmployeeSignature == requireEmployeeSignature
  {
    Warning(id, now, "active", values, requireEmployeeSignature)
  }

  /** Array.prototype.filter: the elements that keep accepts, in order. */
  function Filter<T>(s: seq<T>, keep: T -> bool): (r: seq<T>)
    ensures |r| <= |s|
    ensures forall i :: 0 <= i < |r| ==> keep(r[i])
  {
    if |s| == 0 then []
    else (if keep(s[0]) then [s[0]] else []) + Filter(s[1..], keep)
  }

  /** Filtering removes exactly the rejected elements: each accepted element
      stays with its multiplicity, each rejected one is gone. */
  lemma {:induction false} FilterMultiset<T>(s: seq<T>, keep: T -> bool)
    ensures forall x :: multiset(Filter(s, keep))[x] == if keep(x) then multiset(s)[x] else 0
  {
    if |s| > 0 {
      FilterMultiset(s[1..], keep);
      assert s == [s[0]] + s[1..];
    }
  }

  /** Filtering a concatenation filters each part: the kept elements remain
      in their original order. */
  lemma {:induction false} FilterConcat<T>(a: seq<T>, b: seq<T>, keep: T -> bool)
    ensures Filter(a + b, keep) == Filter(a, keep) + Filter(b, keep)
  {
    if |a| > 0 {
      FilterConcat(a[1..], b, keep);
      assert (a + b)[1..] == a[1..] + b;
    } else {
      assert a + b == b;
    }
  }

  /** Filtering a sequence with a first element decides that element first. */
  lemma FilterCons<T>(x: T, s: seq<T>, keep: T -> bool)
    ensures Filter([x] + s, keep) == (if keep(x) then [x] else []) + Filter(s, keep)
  {
    assert ([x] + s)[1..] == s;
  }

  /** A filter that rejects nothing changes nothing. */
  lemma {:induction false} FilterKeepsAll<T>(s: seq<T>, keep: T -> bool)
    requires forall i :: 0 <= i < |s| ==> keep(s[i])
    ensures Filter(s, keep) == s
  {
    if |s| > 0 {
      FilterKeepsAll(s[1..], keep);
      assert s == [s[0]] + s[1..];
    }
  }

  /** Filtering twice with the same condition is filtering once. */
  lemma FilterIdempotent<T>(s: seq<T>, keep: T -> bool)
    ensures Filter(Filter(s, keep), keep) == Filter(s, keep)
  {
    FilterKeepsAll(Filter(s, keep), keep);
  }

  /** Array.prototype.find: the first element that p accepts. */
  function Find<T>(s: seq<T>, p: T -> bool): (r: Option<T>)
    ensures r.None? <==> forall i :: 0 <= i < |s| ==> !p(s[i])
    ensures r.Some? ==> exists i :: 0 <= i < |s| && s[i] == r.value && p(s[i])
                          && forall j :: 0 <= j < i ==> !p(s[j])
  {
    if |s| == 0 then None
    else if p(s[0]) then Some(s[0])
    else
      var r := Find(s[1..], p);
      assert r.Some? ==> exists i :: 0 <= i < |s[1..]| && s[1..][i] == r.value && p(s[1..][i])
                                   && (forall j :: 0 <= j < i ==> !p(s[1..][j])) && s[i + 1] == r.value;
      r
  }

  /** deleteWarning's filter: drop every warning with that identifier. */
  function WithoutWarning(ws: seq<Warning>, id: string): seq<Warning> {
    Filter(ws, (w: Warning) => w.id != id)
  }

  /** deleteTemplate's filter: drop every template with that identifier. */
  function WithoutTemplate(ts: seq<Template>, templateId: string): seq<Template> {
    Filter(ts, (t: Template) => t.templateId != templateId)
  }

  /** deleteWarning, on the confirmed path: exactly the warnings with that
      identifier go, the others stay in order, and deleting again or deleting
      an identifier nobody has changes nothing. */
  lemma WithoutWarningLaws(ws: seq<Warning>, id: string)
    ensures forall w :: multiset(WithoutWarning(ws, id))[w] == if w.id != id then multiset(ws)[w] else 0
    ensures forall a, b :: a + b == ws ==> WithoutWarning(ws, id) == WithoutWarning(a, id) + WithoutWarning(b, id)
    ensures WithoutWarning(WithoutWarning(ws, id), id) == WithoutWarning(ws, id)
    ensures (forall i :: 0 <= i < |ws| ==> ws[i].id != id) ==> WithoutWarning(ws, id) == ws
  {
    var keep := (w: Warning) => w.id != id;
    FilterMultiset(ws, keep);
    forall a, b | a + b == ws ensures WithoutWarning(ws, id) == WithoutWarning(a, id) + WithoutWarning(b, id) {
      FilterConcat(a, b, keep);
    }
    FilterIdempotent(ws, keep);
    if forall i :: 0 <= i < |ws| ==> ws[i].id != id {
      FilterKeepsAll(ws, keep);
    }
  }

  /** deleteTemplate, on the confirmed path: the same laws over templateId. */
  lemma WithoutTemplateLaws(ts: seq<Template>, templateId: string)
    ensures forall t :: multiset(WithoutTemplate(ts, templateId))[t] == if t.templateId != templateId then multiset(ts)[t] else 0
    ensures forall a, b :: a + b == ts ==> WithoutTemplate(ts, templateId) == WithoutTemplate(a, templateId) + WithoutTemplate(b, templateId)
    ensures WithoutTemplate(WithoutTemplate(ts, templateId), templateId) == WithoutTemplate(ts, templateId)
    ensures (forall i :: 0 <= i < |ts| ==> ts[i].templateId != templateId) ==> WithoutTemplate(ts, templateId) == ts
  {
    var keep := (t: Template) => t.templateId != templateId;
    FilterMultiset(ts, keep);
    forall a, b | a + b == ts ensures WithoutTemplate(ts, templateId) == WithoutTemplate(a, templateId) + WithoutTemplate(b, templateId) {
      FilterConcat(a, b, keep);
    }
    FilterIdempotent(ts, keep);
    if forall i :: 0 <= i < |ts| ==> ts[i].templateId != templateId {
      FilterKeepsAll(ts, keep);
    }
  }

  /** useTemplate's lookup: the first template with that identifier. */
  function FindTemplate(ts: seq<Template>, templateId: string): Option<Template> {
    Find(ts, (t: Template) => t.templateId == templateId)
  }

  /** The warning lookup of viewWarning and duplicateWarning. */
  function FindWarning(ws: seq<Warning>, id: string): Option<Warning> {
    Find(ws, (w: Warning) => w.id == id)
  }
}
