/**
 * The create-program form (app/admin/programs/create/create-program-client.tsx):
 * its zod schema, its default values and the payload `onSubmit` sends.
 */
module ProgramForm {
  import opened Wrappers
  import opened Text
  import opened ProgramsSchema

  /** The form's fields as the browser holds them. */
  datatype FormValues = FormValues(
    title: string, slug: string, description: string, status: string,
    startDate: Option<string>, endDate: Option<string>)

  const DefaultValues: FormValues := FormValues("", "", "", "draft", Some(""), Some(""))

  /** `z.enum([...])` over the form's five labels, read as a program status. */
  function StatusFromLabel(l: string): (r: Option<ProgramStatus>)
    ensures r.Some? <==> l in ProgramStatusLabels
    ensures r.Some? ==> ProgramStatusName(r.value) == l
  {
    if l == "active" then Some(Active)
    else if l == "completed" then Some(Completed)
    else if l == "on_hold" then Some(OnHold)
    else if l == "cancelled" then Some(Cancelled)
    else if l == "draft" then Some(Draft)
    else None
  }

  /** `formSchema.safeParse(values).success`; lengths are UTF-16 lengths. */
  predicate Accepts(v: FormValues) {
    && JsLength(v.title) >= 2
    && JsLength(v.slug) >= 2
    && JsLength(v.description) >= 10
    && StatusFromLabel(v.status).Some?
  }

  /** `value ? new Date(value) : undefined`; `parse` stands for the date constructor. */
  function DateField(s: Option<string>, parse: string -> nat): (r: Option<nat>)
    ensures r.None? <==> s.None? || s.value == ""
    ensures r.Some? ==> r.value == parse(s.value)
  {
    if s.Some? && s.value != "" then Some(parse(s.value)) else None
  }

  /** What `onSubmit` passes to `createProgram` for accepted values. */
  function Submission(v: FormValues, parse: string -> nat): (r: NewProgram)
    requires Accepts(v)
    ensures r.title == v.title && r.slug == v.slug && r.description == v.description
    ensures r.status.Some? && ProgramStatusName(r.status.value) == v.status
    ensures r.startDate == DateField(v.startDate, parse) && r.endDate == DateField(v.endDate, parse)
  {
    NewProgram(v.title, v.slug, v.description, StatusFromLabel(v.status),
               DateField(v.startDate, parse), DateField(v.endDate, parse))
  }

  /** The form offers exactly the statuses of the schema's enum, each under its own label. */
  lemma FormStatusesAreSchemaStatuses(l: string)
    ensures StatusFromLabel(l).Some? <==> exists s :: ProgramStatusName(s) == l
    ensures forall s :: StatusFromLabel(ProgramStatusName(s)) == Some(s)
  {
    ProgramStatusLabelsExact();
  }

  /** The default values select draft, and cannot be submitted as they are. */
  lemma DefaultValuesShape()
    ensures StatusFromLabel(DefaultValues.status) == Some(Draft)
    ensures !Accepts(DefaultValues)
  {
  }

  /** Every submitted program names its status, so the insert never falls back on the column default. */
  lemma SubmittedStatusKept(v: FormValues, parse: string -> nat, id: int, now: nat)
    requires Accepts(v)
    ensures ProgramStatusName(ProgramRow(id, Submission(v, parse), now).status) == v.status
  {
  }

  /** The form checks no order between the dates: an end before the start is accepted and sent. */
  lemma EndBeforeStartAccepted()
    ensures var v := FormValues("ab", "ab", "abcdefghij", "draft", Some("2"), Some("1"));
            var parse := (s: string) => if s == "2" then 2 else 1;
            && Accepts(v)
            && Submission(v, parse).startDate == Some(2)
            && Submission(v, parse).endDate == Some(1)
  {
  }

  /** Minimum lengths count UTF-16 units: one astral character already meets `min(2)`. */
  lemma AstralCharCountsTwice()
    ensures JsLength("\U{1F600}") == 2 && |"\U{1F600}"| == 1
  {
  }

  /** For text within the Basic Multilingual Plane the limit is a character count. */
  lemma BmpTitleLength(title: string)
    requires forall i :: 0 <= i < |title| ==> title[i] as int < 0x1_0000
    ensures JsLength(title) >= 2 <==> |title| >= 2
  {
    JsLengthBmp(title);
  }
}
