/**
 * The part of zod the RFQ schemas use: an object schema with two string
 * fields, `subject` and `body`, each bounded by `.min(n)` and `.max(n)`.
 * zod measures a string's length in UTF-16 code units, runs every check of
 * every field, and reports the issues in field order; parsing succeeds only
 * with no issue and returns just the declared keys.
 */
module ZodSchema {
  import opened Wrappers
  import opened JsText

  /** The kinds of issue a string field can raise. */
  datatype IssueKind = InvalidType | TooSmall(minimum: nat) | TooBig(maximum: nat)

  /** An issue, with the path of the value it is about ([] for the input itself). */
  datatype Issue = Issue(path: seq<string>, kind: IssueKind)

  /**
   * The value handed to `parse`: something that is not an object, or an
   * object whose `subject` and `body` are strings (Some) or are missing or
   * of another type (None).
   */
  datatype Input = NotAnObject | Object(subject: Option<string>, body: Option<string>)

  /** The parsed email: only subject and body survive. */
  datatype Email = Email(subject: string, body: string)

  /** Inclusive bounds on a string's UTF-16 length. */
  datatype Bounds = Bounds(min: nat, max: nat)

  /** A subject/body object schema. */
  datatype Schema = Schema(subject: Bounds, body: Bounds)

  predicate Within(s: string, b: Bounds) {
    b.min <= Utf16Length(s) <= b.max
  }

  /** The issues a string field raises: a type issue, or one per failed bound. */
  function StringIssues(path: seq<string>, value: Option<string>, b: Bounds): (r: seq<Issue>)
    ensures r == [] <==> value.Some? && Within(value.value, b)
    ensures forall k :: 0 <= k < |r| ==> r[k].path == path
    ensures value.None? ==> r == [Issue(path, InvalidType)]
    ensures value.Some? && b.min <= b.max ==> |r| <= 1
    ensures value.Some? ==> (Issue(path, TooSmall(b.min)) in r <==> Utf16Length(value.value) < b.min)
    ensures value.Some? ==> (Issue(path, TooBig(b.max)) in r <==> Utf16Length(value.value) > b.max)
  {
    if value.None? then [Issue(path, InvalidType)]
    else
      var n := Utf16Length(value.value);
      (if n < b.min then [Issue(path, TooSmall(b.min))] else [])
      + (if n > b.max then [Issue(path, TooBig(b.max))] else [])
  }

  /** `schema.parse(input)`: the email on success, every issue found otherwise. */
  function Parse(schema: Schema, input: Input): (r: Result<Email, seq<Issue>>)
    ensures r.Ok? <==>
      && input.Object? && input.subject.Some? && input.body.Some?
      && Within(input.subject.value, schema.subject)
      && Within(input.body.value, schema.body)
    ensures r.Ok? ==> r.value == Email(input.subject.value, input.body.value)
    ensures r.Err? ==> |r.error| > 0
    ensures input.NotAnObject? ==> r == Err([Issue([], InvalidType)])
    ensures r.Err? && input.Object? ==>
      forall k :: 0 <= k < |r.error| ==> r.error[k].path == ["subject"] || r.error[k].path == ["body"]
  {
    match input
    case NotAnObject => Err([Issue([], InvalidType)])
    case Object(subject, body) =>
      var issues := StringIssues(["subject"], subject, schema.subject) + StringIssues(["body"], body, schema.body);
      if issues == [] then Ok(Email(subject.value, body.value)) else Err(issues)
  }

  /**
   * Issues come in field order: every subject issue precedes every body
   * issue, and a bad subject is reported whatever the body is.
   */
  lemma IssuesInFieldOrder(schema: Schema, input: Input)
    requires input.Object?
    requires Parse(schema, input).Err?
    ensures var issues := Parse(schema, input).error;
      forall i, j :: 0 <= i < j < |issues| && issues[j].path == ["subject"] ==> issues[i].path == ["subject"]
    ensures !(input.subject.Some? && Within(input.subject.value, schema.subject)) ==>
      Parse(schema, input).error[0].path == ["subject"]
  {
    var s := StringIssues(["subject"], input.subject, schema.subject);
    var b := StringIssues(["body"], input.body, schema.body);
    var issues := Parse(schema, input).error;
    assert issues == s + b;
    forall j | |s| <= j < |issues|
      ensures issues[j].path == ["body"] != ["subject"]
    {
      assert issues[j] == b[j - |s|];
      assert ["body"][0] != ["subject"][0];
    }
    forall i, j | 0 <= i < j < |issues| && issues[j].path == ["subject"]
      ensures issues[i].path == ["subject"]
    {
      assert issues[i] == s[i];
    }
  }
}
