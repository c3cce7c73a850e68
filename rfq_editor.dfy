/**
 * The RFQ editor: the schema an AI-edited RFQ must satisfy, its validator,
 * and the prompt that asks for the edit.
 */
module RfqEditor {
  import opened Wrappers
  import opened JsText
  import opened ZodSchema
  import RfqGenerator

  // ----------------------------------------------------------------- schema

  /** subject: 10..200 units, body: 50..5000 units. */
  const RfqEditSchema := Schema(Bounds(10, 200), Bounds(50, 5000))

  /** `validateRFQEdit`: parse a model answer against the edit schema. */
  function ValidateRfqEdit(input: Input): (r: Result<Email, seq<Issue>>)
    ensures r.Ok? <==>
      && input.Object? && input.subject.Some? && input.body.Some?
      && 10 <= Utf16Length(input.subject.value) <= 200
      && 50 <= Utf16Length(input.body.value) <= 5000
    ensures r.Ok? ==> r.value == Email(input.subject.value, input.body.value)
    ensures r.Err? ==> |r.error| > 0
  {
    Parse(RfqEditSchema, input)
  }

  /** A subject shorter than 10 or longer than 200 units is rejected, naming the bound. */
  lemma ValidateRfqEditSubjectIssue(subject: string, body: Option<string>)
    ensures Utf16Length(subject) < 10 ==>
      ValidateRfqEdit(Object(Some(subject), body)).Err?
      && Issue(["subject"], TooSmall(10)) in ValidateRfqEdit(Object(Some(subject), body)).error
    ensures Utf16Length(subject) > 200 ==>
      ValidateRfqEdit(Object(Some(subject), body)).Err?
      && Issue(["subject"], TooBig(200)) in ValidateRfqEdit(Object(Some(subject), body)).error
  {
    var issues := StringIssues(["subject"], Some(subject), RfqEditSchema.subject);
    var rest := StringIssues(["body"], body, RfqEditSchema.body);
    if Utf16Length(subject) < 10 || Utf16Length(subject) > 200 {
      assert ValidateRfqEdit(Object(Some(subject), body)).error == issues + rest;
    }
  }

  /** A body shorter than 50 or longer than 5000 units is rejected, naming the bound. */
  lemma ValidateRfqEditBodyIssue(subject: Option<string>, body: string)
    ensures Utf16Length(body) < 50 ==>
      ValidateRfqEdit(Object(subject, Some(body))).Err?
      && Issue(["body"], TooSmall(50)) in ValidateRfqEdit(Object(subject, Some(body))).error
    ensures Utf16Length(body) > 5000 ==>
      ValidateRfqEdit(Object(subject, Some(body))).Err?
      && Issue(["body"], TooBig(5000)) in ValidateRfqEdit(Object(subject, Some(body))).error
  {
    var first := StringIssues(["subject"], subject, RfqEditSchema.subject);
    var issues := StringIssues(["body"], Some(body), RfqEditSchema.body);
    if Utf16Length(body) < 50 || Utf16Length(body) > 5000 {
      assert ValidateRfqEdit(Object(subject, Some(body))).error == first + issues;
    }
  }

  /** An edited RFQ is held to exactly the rules of a generated one, issues included. */
  lemma ValidateRfqEditAgreesWithValidateRfq(input: Input)
    ensures ValidateRfqEdit(input) == RfqGenerator.ValidateRfq(input)
  {
    assert RfqEditSchema == RfqGenerator.RfqSchema;
  }

  // ----------------------------------------------------------------- prompt

  /** The opening request up to the current subject, line by line. */
  const EditIntroLines := [
    "You are a professional maritime purchasing assistant. Edit the existing RFQ based on the user's instruction while maintaining professional tone and structure.",
    "",
    "## CURRENT RFQ",
    "",
    "**Subject:** "]

  const EditIntro := Join(EditIntroLines, "\n")

  const BodyHeading := "\n\n**Body:**\n"

  const InstructionHeading := "\n\n## USER EDIT INSTRUCTION\n"

  /** The fixed text after the edit instruction, line by line. */
  const EditTailLines := [
    "",
    "",
    "## INSTRUCTIONS",
    "1. Apply the user's edit instruction to the RFQ",
    "2. Maintain the professional maritime business tone",
    "3. Preserve the RFQ structure unless the edit specifically requests structural changes",
    "4. Keep the formatting clean and professional",
    "5. DO NOT add pricing, discounts, or totals unless explicitly requested",
    "6. DO NOT remove important details unless explicitly requested",
    "",
    "Return response as valid JSON with exactly these keys:",
    "{",
    "  \"subject\": \"Updated email subject line\",",
    "  \"body\": \"Updated email body with edits applied\"",
    "}",
    "",
    "Apply the edit now:"]

  const EditTail := Join(EditTailLines, "\n")

  /** `createRFQEditPrompt`: one fixed template, no conditional parts. */
  function CreateRfqEditPrompt(subject: string, body: string, instruction: string): string {
    EditIntro + (subject + (BodyHeading + (body + (InstructionHeading + (instruction + EditTail)))))
  }

  /** Seven pieces laid end to end: where each piece sits. */
  lemma Layout(a: string, x: string, b: string, y: string, c: string, z: string, d: string)
    ensures var p := a + (x + (b + (y + (c + (z + d)))));
      && |p| == |a| + |x| + |b| + |y| + |c| + |z| + |d|
      && p[..|a|] == a
      && OccursAt(p, x, |a|)
      && OccursAt(p, b, |a| + |x|)
      && OccursAt(p, y, |a| + |x| + |b|)
      && OccursAt(p, c, |a| + |x| + |b| + |y|)
      && OccursAt(p, z, |a| + |x| + |b| + |y| + |c|)
      && p[|p| - |d|..] == d
  {
    var p := a + (x + (b + (y + (c + (z + d)))));
    var t1 := x + (b + (y + (c + (z + d))));
    var t2 := b + (y + (c + (z + d)));
    var t3 := y + (c + (z + d));
    var t4 := c + (z + d);
    var t5 := z + d;
    assert p[|a|..] == t1;
    assert t1[|x|..] == t2;
    assert t2[|b|..] == t3;
    assert t3[|y|..] == t4;
    assert t4[|c|..] == t5;
    assert p[|a| + |x|..] == t2;
    assert p[|a| + |x| + |b|..] == t3;
    assert p[|a| + |x| + |b| + |y|..] == t4;
    assert p[|a| + |x| + |b| + |y| + |c|..] == t5;
    assert p[|p| - |d|..] == t5[|z|..];
  }

  /** The three slots of a seven-piece layout. */
  lemma LayoutSlots(a: string, x: string, b: string, y: string, c: string, z: string, d: string)
    ensures var p := a + (x + (b + (y + (c + (z + d)))));
      && OccursAt(p, x, |a|)
      && OccursAt(p, y, |a| + |x| + |b|)
      && OccursAt(p, z, |a| + |x| + |b| + |y| + |c|)
  {
    Layout(a, x, b, y, c, z, d);
  }

  /** The fixed pieces of a seven-piece layout. */
  lemma LayoutFixed(a: string, x: string, b: string, y: string, c: string, z: string, d: string)
    ensures var p := a + (x + (b + (y + (c + (z + d)))));
      && |a| <= |p| && p[..|a|] == a
      && OccursAt(p, b, |a| + |x|)
      && OccursAt(p, c, |a| + |x| + |b| + |y|)
      && OccursAt(p, d, |a| + |x| + |b| + |y| + |c| + |z|)
      && |a| + |x| + |b| + |y| + |c| + |z| + |d| == |p|
  {
    Layout(a, x, b, y, c, z, d);
  }

  /** Two seven-piece layouts with the same fixed pieces and slot lengths agree only if their slots do. */
  lemma LayoutInjective(a: string, b: string, c: string, d: string,
                        x1: string, y1: string, z1: string, x2: string, y2: string, z2: string)
    requires |x1| == |x2| && |y1| == |y2|
    requires a + (x1 + (b + (y1 + (c + (z1 + d))))) == a + (x2 + (b + (y2 + (c + (z2 + d)))))
    ensures x1 == x2 && y1 == y2 && z1 == z2
  {
    Layout(a, x1, b, y1, c, z1, d);
    Layout(a, x2, b, y2, c, z2, d);
  }

  /**
   * Nothing varies but the inputs: the prompt's length is the fixed
   * text's plus the inputs'.
   */
  lemma EditPromptLength(subject: string, body: string, instruction: string)
    ensures |CreateRfqEditPrompt(subject, body, instruction)|
      == |EditIntro| + |subject| + |BodyHeading| + |body| + |InstructionHeading| + |instruction| + |EditTail|
  {
    Layout(EditIntro, subject, BodyHeading, body, InstructionHeading, instruction, EditTail);
  }

  /**
   * The edit prompt carries the current subject, the current body and the
   * edit instruction verbatim, in that order, each right after the fixed
   * text that precedes it.
   */
  lemma EditPromptEmbedsInputs(subject: string, body: string, instruction: string)
    ensures var p := CreateRfqEditPrompt(subject, body, instruction);
      && OccursAt(p, subject, |EditIntro|)
      && OccursAt(p, body, |EditIntro| + |subject| + |BodyHeading|)
      && OccursAt(p, instruction, |EditIntro| + |subject| + |BodyHeading| + |body| + |InstructionHeading|)
  {
    LayoutSlots(EditIntro, subject, BodyHeading, body, InstructionHeading, instruction, EditTail);
  }

  /**
   * Around the inputs the text is fixed: the prompt opens with the
   * introduction ending in "**Subject:** ", the "**Body:**" and
   * "## USER EDIT INSTRUCTION" headings follow the subject and the body,
   * and the prompt closes with the fixed instructions and answer format.
   */
  lemma EditPromptFixedText(subject: string, body: string, instruction: string)
    ensures var p := CreateRfqEditPrompt(subject, body, instruction);
      && |EditIntro| <= |p| && p[..|EditIntro|] == EditIntro
      && OccursAt(p, BodyHeading, |EditIntro| + |subject|)
      && OccursAt(p, InstructionHeading, |EditIntro| + |subject| + |BodyHeading| + |body|)
      && OccursAt(p, EditTail, |EditIntro| + |subject| + |BodyHeading| + |body| + |InstructionHeading| + |instruction|)
      && |EditIntro| + |subject| + |BodyHeading| + |body| + |InstructionHeading| + |instruction| + |EditTail| == |p|
  {
    LayoutFixed(EditIntro, subject, BodyHeading, body, InstructionHeading, instruction, EditTail);
  }

  /**
   * Nothing is lost: two edit prompts that agree, for inputs whose subject
   * and body lengths agree, came from the same subject, body and
   * instruction.
   */
  lemma EditPromptInjective(s1: string, b1: string, i1: string, s2: string, b2: string, i2: string)
    requires |s1| == |s2| && |b1| == |b2|
    requires CreateRfqEditPrompt(s1, b1, i1) == CreateRfqEditPrompt(s2, b2, i2)
    ensures s1 == s2 && b1 == b2 && i1 == i2
  {
    LayoutInjective(EditIntro, BodyHeading, InstructionHeading, EditTail, s1, b1, i1, s2, b2, i2);
  }
}
