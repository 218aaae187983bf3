/**
 * The quote request form (`Quote.tsx`): the eight required fields, the
 * error flags validation sets and editing clears, and the reset of the
 * form after a request the server accepted.
 */
module Quote {
  import opened Wrappers

  /** The text fields of the form; `comment` is the only optional one. */
  datatype Field = FirstName | LastName | Phone | Email | MaterialType | PrintingAccuracy | Infill | MaterialColor | Comment

  /** `requiredFields`, in the order they are checked. */
  const RequiredFields: seq<Field> := [FirstName, LastName, Phone, Email, MaterialType, PrintingAccuracy, Infill, MaterialColor]

  /** `formData[field]`, read as "" where the field has no entry. */
  function Value(data: map<Field, string>, f: Field): string {
    if f in data then data[f] else ""
  }

  /** The errors a submission of `data` reports: one `true` flag per empty required field. */
  function Missing(data: map<Field, string>): (errs: map<Field, bool>)
    ensures forall f :: f in errs <==> f in RequiredFields && Value(data, f) == ""
    ensures forall f :: f in errs ==> errs[f]
  {
    map f | f in RequiredFields && Value(data, f) == "" :: true
  }

  /** The validation loop (`requiredFields.forEach`), building `newErrors` one field at a time. */
  method Validate(data: map<Field, string>) returns (newErrors: map<Field, bool>)
    ensures newErrors == Missing(data)
  {
    newErrors := map[];
    for i := 0 to |RequiredFields|
      invariant forall f :: f in newErrors <==> f in RequiredFields[..i] && Value(data, f) == ""
      invariant forall f :: f in newErrors ==> newErrors[f]
    {
      var field := RequiredFields[i];
      assert RequiredFields[..i + 1] == RequiredFields[..i] + [field];
      if Value(data, field) == "" {
        newErrors := newErrors[field := true];
      }
    }
    assert RequiredFields[..|RequiredFields|] == RequiredFields;
  }

  /** A submission is rejected exactly when some required field is empty. */
  lemma MissingIffEmptyField(data: map<Field, string>)
    ensures |Missing(data)| > 0 <==> exists f :: f in RequiredFields && Value(data, f) == ""
  {
    var errs := Missing(data);
    if exists f :: f in RequiredFields && Value(data, f) == "" {
      var f :| f in RequiredFields && Value(data, f) == "";
      assert f in errs.Keys;
      assert |errs.Keys| > 0;
    } else {
      assert errs.Keys == {};
    }
  }

  /** The form as it starts and as a successful request leaves it. */
  function EmptyForm(): (data: map<Field, string>)
    ensures forall f :: Value(data, f) == ""
  {
    map f: Field | f in RequiredFields + [Comment] :: ""
  }

  /** Submitting an empty form flags every required field. */
  lemma EmptyFormFlagsAll()
    ensures forall f :: f in Missing(EmptyForm()) <==> f in RequiredFields
  {
  }

  /** What a submission sent to the server: the text fields and the attachment's name. */
  datatype Request = Request(fields: map<Field, string>, attachment: Option<string>)

  datatype SubmitOutcome = Incomplete | Submitted | Failed

  /** The quote page's state; `requests` records what was sent, in order. */
  class QuoteForm {
    var formData: map<Field, string>
    var file: Option<string>
    var errors: map<Field, bool>
    var requests: seq<Request>

    /** `errors.<field>`, as the input's red border reads it. */
    function Flagged(f: Field): bool
      reads this
    {
      f in errors && errors[f]
    }

    /** The comment is never shown as an error. */
    ghost predicate Valid()
      reads this
    {
      !Flagged(Comment)
    }

    constructor ()
      ensures Valid()
      ensures formData == EmptyForm() && file == None && errors == map[] && requests == []
      ensures forall f :: !Flagged(f)
    {
      formData := EmptyForm();
      file := None;
      errors := map[];
      requests := [];
    }

    /**
     * `handleSubmit`, with the server's answer as `responseOk` (a network
     * error is a failed answer).
     */
    method HandleSubmit(responseOk: bool) returns (outcome: SubmitOutcome)
      requires Valid()
      modifies this
      ensures Valid()
      ensures |Missing(old(formData))| > 0 ==>
        outcome == Incomplete && errors == Missing(old(formData)) &&
        requests == old(requests) && formData == old(formData) && file == old(file)
      ensures |Missing(old(formData))| == 0 ==>
        errors == map[] && requests == old(requests) + [Request(old(formData), old(file))]
      ensures |Missing(old(formData))| == 0 && responseOk ==>
        outcome == Submitted && formData == EmptyForm() && file == None
      ensures |Missing(old(formData))| == 0 && !responseOk ==>
        outcome == Failed && formData == old(formData) && file == old(file)
      ensures forall f :: Flagged(f) <==> f in Missing(old(formData))
    {
      var newErrors := Validate(formData);
      if |newErrors| > 0 {
        errors := newErrors;
        return Incomplete;
      }
      errors := map[];
      requests := requests + [Request(formData, file)];
      if responseOk {
        formData := EmptyForm();
        file := None;
        outcome := Submitted;
      } else {
        outcome := Failed;
      }
    }

    /**
     * A field's change handler: the value is stored and, for a required
     * field, its error flag is set to false; the comment's handler only
     * stores the value.
     */
    method SetField(f: Field, value: string)
      requires Valid()
      modifies this
      ensures Valid()
      ensures formData == old(formData)[f := value]
      ensures f != Comment ==> errors == old(errors)[f := false]
      ensures f == Comment ==> errors == old(errors)
      ensures !Flagged(f)
      ensures forall g :: g != f ==> Flagged(g) == old(Flagged(g)) && Value(formData, g) == Value(old(formData), g)
      ensures file == old(file) && requests == old(requests)
    {
      formData := formData[f := value];
      if f != Comment {
        errors := errors[f := false];
      }
    }

    /** `handleFileChange`: a chosen file replaces the attachment; an empty choice keeps it. */
    method HandleFileChange(chosen: Option<string>)
      requires Valid()
      modifies this
      ensures Valid()
      ensures chosen.Some? ==> file == chosen
      ensures chosen.None? ==> file == old(file)
      ensures formData == old(formData) && errors == old(errors) && requests == old(requests)
    {
      if chosen.Some? {
        file := chosen;
      }
    }
  }
}
