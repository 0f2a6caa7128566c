/** The custom-field extractor: the first field with the wanted name, with an
    object value reduced to its `presentation` (when truthy) or its `name`. */
module CustomFields {
  import opened Wrappers
  import opened Seqs

  /** The JSON shapes a custom field's `value` takes. An object carries the two
      sub-keys the request asks for; `None` stands for a missing key or JSON null. */
  datatype FieldValue =
    | Null
    | Str(s: string)
    | Int(i: int)
    | Obj(presentation: Option<string>, name: Option<string>)

  datatype CustomField = CustomField(name: string, value: FieldValue)

  /** Python truthiness of an optional string: present and non-empty. */
  predicate Truthy(s: Option<string>)
  {
    s.Some? && s.value != ""
  }

  /** A value the lookup may hand back: a scalar, never an object or null. */
  predicate IsScalar(v: FieldValue)
  {
    v.Str? || v.Int?
  }

  /** What `get_custom_field_value` returns for a matching field whose value is `v`;
      `None` is Python's `None`. */
  function Reduce(v: FieldValue): (r: Option<FieldValue>)
    ensures r.Some? ==> IsScalar(r.value)
    ensures IsScalar(v) ==> r == Some(v)
    ensures v.Null? ==> r.None?
    ensures v.Obj? && Truthy(v.presentation) ==> r == Some(Str(v.presentation.value))
    ensures v.Obj? && !Truthy(v.presentation) && v.name.Some? ==> r == Some(Str(v.name.value))
    ensures v.Obj? && r.None? ==> !Truthy(v.presentation) && v.name.None?
  {
    match v
    case Obj(presentation, name) =>
      if Truthy(presentation) then Some(Str(presentation.value))
      else if name.Some? then Some(Str(name.value))
      else None
    case Null => None
    case _ => Some(v)
  }

  /** Index of the first field named `target`, if any. */
  predicate IsFirstMatch(fields: seq<CustomField>, target: string, k: int)
  {
    && 0 <= k < |fields|
    && fields[k].name == target
    && forall m :: 0 <= m < k ==> fields[m].name != target
  }

  /** `get_custom_field_value`: linear search, first match wins, no match is `None`. */
  function Lookup(fields: seq<CustomField>, target: string): (r: Option<FieldValue>)
    ensures (forall m :: 0 <= m < |fields| ==> fields[m].name != target) ==> r.None?
    ensures forall k :: IsFirstMatch(fields, target, k) ==> r == Reduce(fields[k].value)
    ensures r.Some? ==> IsScalar(r.value)
    decreases |fields|
  {
    if |fields| == 0 then None
    else if fields[0].name == target then Reduce(fields[0].value)
    else Lookup(fields[1..], target)
  }

  /** Once a field with the name is present, anything appended after it is ignored. */
  lemma {:induction false} LookupIgnoresLaterFields(fields: seq<CustomField>, more: seq<CustomField>, target: string)
    requires exists k :: 0 <= k < |fields| && fields[k].name == target
    ensures Lookup(fields + more, target) == Lookup(fields, target)
    decreases |fields|
  {
    UnconsAppend(fields, more);
    if fields[0].name != target {
      var k :| 0 <= k < |fields| && fields[k].name == target;
      assert fields[1..][k - 1] == fields[k];
      LookupIgnoresLaterFields(fields[1..], more, target);
    }
  }

  /** Fields with other names in front of the list do not change the answer. */
  lemma {:induction false} LookupSkipsOtherNames(others: seq<CustomField>, fields: seq<CustomField>, target: string)
    requires forall m :: 0 <= m < |others| ==> others[m].name != target
    ensures Lookup(others + fields, target) == Lookup(fields, target)
    decreases |others|
  {
    if |others| > 0 {
      UnconsAppend(others, fields);
      LookupSkipsOtherNames(others[1..], fields, target);
    } else {
      assert others + fields == fields;
    }
  }

  /** Examples of the extractor: presentation preferred over name, name as
      fallback, and "absent" distinct from "present but empty". */
  lemma ExtractorCases(target: string, p: string, n: string)
    requires p != ""
    ensures Lookup([CustomField(target, Obj(Some(p), Some(n)))], target) == Some(Str(p))
    ensures Lookup([CustomField(target, Obj(None, Some(n)))], target) == Some(Str(n))
    ensures Lookup([CustomField(target, Obj(Some(""), Some(n)))], target) == Some(Str(n))
    ensures Lookup([CustomField(target, Obj(Some(""), None))], target) == None
    ensures Lookup([CustomField(target, Str(""))], target) == Some(Str(""))
    ensures Lookup([], target) == None
  {
  }
}
