/**
 * The create-post form's validator (`validate` in src/components/posts_new.js).
 *
 * The form's values are the text the user typed, keyed by field name; a
 * field the user never touched has no key. The result maps a field name to
 * the message shown under that field; an empty result means the form may be
 * submitted.
 */
module PostsNew {

  type FormValues = map<string, string>

  type Errors = map<string, string>

  /** The required fields, each with the message shown when it is left blank. */
  const Messages: map<string, string> :=
    map["title" := "Enter a title",
        "categories" := "Enter some categories",
        "content" := "Enter some content please"]

  /**
   * The field is falsy in JavaScript: it is missing (`undefined`) or the
   * empty string. Every other string is truthy.
   */
  predicate Blank(values: FormValues, field: string)
  {
    field !in values || values[field] == ""
  }

  /** What the validator should report: one message per blank required field. */
  function ExpectedErrors(values: FormValues): Errors
  {
    map f | f in Messages && Blank(values, f) :: Messages[f]
  }

  /** All required fields hold text: the form is ready to submit. */
  predicate ReadyToSubmit(values: FormValues)
  {
    values.Keys >= Messages.Keys &&
    forall f :: f in Messages ==> values[f] != ""
  }

  /** `validate`: starts from an empty error object and adds one key per blank field. */
  method Validate(values: FormValues) returns (errors: Errors)
    ensures errors == ExpectedErrors(values)
    ensures errors == map[] <==> ReadyToSubmit(values)
  {
    errors := map[];
    if Blank(values, "title") {
      errors := errors["title" := "Enter a title"];
    }
    if Blank(values, "categories") {
      errors := errors["categories" := "Enter some categories"];
    }
    if Blank(values, "content") {
      errors := errors["content" := "Enter some content please"];
    }
    NoErrorsIffReady(values);
  }

  /** Only the three required fields ever carry an error. */
  lemma ErrorKeysAreFields(values: FormValues)
    ensures ExpectedErrors(values).Keys <= {"title", "categories", "content"}
  {
  }

  /** A field has an error exactly when it is blank, and the message is that field's. */
  lemma ErrorIffBlank(values: FormValues)
    ensures "title" in ExpectedErrors(values) <==> Blank(values, "title")
    ensures "categories" in ExpectedErrors(values) <==> Blank(values, "categories")
    ensures "content" in ExpectedErrors(values) <==> Blank(values, "content")
    ensures "title" in ExpectedErrors(values) ==>
      ExpectedErrors(values)["title"] == "Enter a title"
    ensures "categories" in ExpectedErrors(values) ==>
      ExpectedErrors(values)["categories"] == "Enter some categories"
    ensures "content" in ExpectedErrors(values) ==>
      ExpectedErrors(values)["content"] == "Enter some content please"
  {
  }

  /** No errors exactly when every required field holds text. */
  lemma NoErrorsIffReady(values: FormValues)
    ensures ExpectedErrors(values) == map[] <==> ReadyToSubmit(values)
  {
    if ExpectedErrors(values) == map[] {
      forall f | f in Messages ensures !Blank(values, f) {
        assert f !in ExpectedErrors(values);
      }
    }
  }

  /**
   * The checks do not interact: typing into one field, or clearing it out of
   * the values altogether, neither adds nor removes the error of any other field.
   */
  lemma FieldsIndependent(values: FormValues, field: string, text: string, other: string)
    requires other != field
    ensures other in ExpectedErrors(values) <==> other in ExpectedErrors(values[field := text])
    ensures other in ExpectedErrors(values) <==> other in ExpectedErrors(values - {field})
    ensures other in ExpectedErrors(values) ==>
      ExpectedErrors(values)[other] == ExpectedErrors(values[field := text])[other] ==
      ExpectedErrors(values - {field})[other]
  {
  }

  /** Keys of the form values other than the three required fields are ignored. */
  lemma ExtraKeysIgnored(values: FormValues)
    ensures ExpectedErrors(values) ==
      ExpectedErrors(map f | f in values && f in Messages :: values[f])
  {
  }

  /** A blank title alone yields only the title's message; a full form yields none. */
  lemma ValidateScenario()
    ensures ExpectedErrors(map["title" := "", "categories" := "x", "content" := "y"]) ==
      map["title" := "Enter a title"]
    ensures ExpectedErrors(map["title" := "x", "categories" := "y", "content" := "z"]) == map[]
  {
  }
}
