/** The helpers of the admin event-type form: the slug derived from a
    title, and the editors of the booking-question list. They are state
    updaters, so each is a function from the old form state to the new. */
module EventTypeForm {

  // ---------------------------------------------------------------------
  // Slugs

  /** A character the slug keeps as it is. */
  predicate IsSlugChar(c: char)
  {
    ('a' <= c <= 'z') || ('0' <= c <= '9')
  }

  /** Lower-casing, restricted to the ASCII letters. */
  function LowerChar(c: char): (r: char)
    ensures 'A' <= c <= 'Z' ==> 'a' <= r <= 'z'
    ensures !('A' <= c <= 'Z') ==> r == c
  {
    if 'A' <= c <= 'Z' then (c as int + 32) as char else c
  }

  function Lower(s: string): (r: string)
    ensures |r| == |s| && forall i :: 0 <= i < |s| ==> r[i] == LowerChar(s[i])
  {
    seq(|s|, i requires 0 <= i < |s| => LowerChar(s[i]))
  }

  /** Made only of slug characters and dashes. */
  predicate SlugAlphabet(s: string)
  {
    forall i :: 0 <= i < |s| ==> IsSlugChar(s[i]) || s[i] == '-'
  }

  predicate NoDoubleDash(s: string)
  {
    forall i :: 0 <= i < |s| - 1 ==> !(s[i] == '-' && s[i + 1] == '-')
  }

  /** What the slug generator promises of its output. */
  predicate IsCanonicalSlug(s: string)
  {
    SlugAlphabet(s) && NoDoubleDash(s) && (|s| > 0 ==> s[0] != '-' && s[|s| - 1] != '-')
  }

  /** The rest of `s` after its leading run of non-slug characters. */
  function DropRun(s: string): (r: string)
    ensures |r| <= |s| && r == s[|s| - |r|..]
    ensures r == [] || IsSlugChar(r[0])
    ensures |s| > 0 && IsSlugChar(s[0]) ==> r == s
  {
    if s == [] || IsSlugChar(s[0]) then s else DropRun(s[1..])
  }

  /** `replace(/[^a-z0-9]+/g, '-')`: every maximal run of other characters
      becomes one dash. */
  function CollapseRuns(s: string): (r: string)
    ensures SlugAlphabet(r) && NoDoubleDash(r)
    ensures |s| > 0 && IsSlugChar(s[0]) ==> |r| > 0 && r[0] == s[0]
    ensures s == [] <==> r == []
    decreases |s|
  {
    if s == [] then []
    else if IsSlugChar(s[0]) then [s[0]] + CollapseRuns(s[1..])
    else ['-'] + CollapseRuns(DropRun(s[1..]))
  }

  /** `replace(/(^-|-$)/g, '')`: one leading and one trailing dash go. */
  function TrimDashes(s: string): (r: string)
    requires SlugAlphabet(s) && NoDoubleDash(s)
    ensures IsCanonicalSlug(r)
  {
    var t := if |s| > 0 && s[0] == '-' then s[1..] else s;
    assert SlugAlphabet(t) && NoDoubleDash(t);
    assert |t| > 0 ==> t[0] != '-';
    if |t| > 0 && t[|t| - 1] == '-' then
      var u := t[..|t| - 1];
      assert |u| > 0 ==> u[|u| - 1] == t[|t| - 2];
      u
    else t
  }

  /** `generateSlug`: lower-case, collapse, trim. Its output never has a
      character outside a-z, 0-9 and '-', never two dashes in a row and
      never a dash at either end. */
  function GenerateSlug(title: string): (slug: string)
    ensures IsCanonicalSlug(slug)
  {
    TrimDashes(CollapseRuns(Lower(title)))
  }

  lemma {:induction false} CollapseKeepsSlugText(s: string)
    requires SlugAlphabet(s) && NoDoubleDash(s)
    ensures CollapseRuns(s) == s
    decreases |s|
  {
    if s != [] {
      CollapseKeepsSlugText(s[1..]);
      if !IsSlugChar(s[0]) && |s| > 1 {
        assert s[1] != '-';
        assert DropRun(s[1..]) == s[1..];
      }
    }
  }

  /** A canonical slug is its own slug. */
  lemma CanonicalSlugIsFixed(s: string)
    requires IsCanonicalSlug(s)
    ensures GenerateSlug(s) == s
  {
    assert Lower(s) == s;
    CollapseKeepsSlugText(s);
  }

  /** Generating a slug from a slug changes nothing. */
  lemma GenerateSlugIdempotent(title: string)
    ensures GenerateSlug(GenerateSlug(title)) == GenerateSlug(title)
  {
    CanonicalSlugIsFixed(GenerateSlug(title));
  }

  // ---------------------------------------------------------------------
  // Title and slug together

  datatype QuestionDraft = QuestionDraft(question: string, questionType: string, isRequired: bool,
                                         options: seq<string>)

  /** The parts of the form state these helpers touch. */
  datatype Form = Form(title: string, slug: string, questions: seq<QuestionDraft>)

  /** `handleTitleChange`: a new event type follows its title with a fresh
      slug; an existing one keeps its slug. */
  function HandleTitleChange(f: Form, title: string, isEditing: bool): (r: Form)
    ensures r.title == title && r.questions == f.questions
    ensures isEditing ==> r.slug == f.slug
    ensures !isEditing ==> r.slug == GenerateSlug(title) && IsCanonicalSlug(r.slug)
  {
    f.(title := title, slug := if isEditing then f.slug else GenerateSlug(title))
  }

  // ---------------------------------------------------------------------
  // The booking-question list

  const NEW_QUESTION: QuestionDraft := QuestionDraft("", "TEXT", false, [])

  /** `addQuestion`: one blank text question, optional, without options, at the end. */
  function AddQuestion(qs: seq<QuestionDraft>): (r: seq<QuestionDraft>)
    ensures |r| == |qs| + 1 && r[..|qs|] == qs
    ensures r[|qs|] == QuestionDraft("", "TEXT", false, [])
  {
    qs + [NEW_QUESTION]
  }

  /** The field an edit targets, with its new value. */
  datatype QuestionEdit =
    | SetQuestion(text: string)
    | SetType(questionType: string)
    | SetRequired(required: bool)
    | SetOptions(options: seq<string>)

  function ApplyEdit(q: QuestionDraft, edit: QuestionEdit): (r: QuestionDraft)
    ensures edit.SetQuestion? ==> r == q.(question := edit.text)
    ensures edit.SetType? ==> r == q.(questionType := edit.questionType)
    ensures edit.SetRequired? ==> r == q.(isRequired := edit.required)
    ensures edit.SetOptions? ==> r == q.(options := edit.options)
  {
    match edit
    case SetQuestion(t) => q.(question := t)
    case SetType(t) => q.(questionType := t)
    case SetRequired(b) => q.(isRequired := b)
    case SetOptions(o) => q.(options := o)
  }

  /** `updateQuestion(index, field, value)`: only that question's field
      changes; an index outside the list changes nothing. */
  function UpdateQuestion(qs: seq<QuestionDraft>, index: int, edit: QuestionEdit): (r: seq<QuestionDraft>)
    ensures |r| == |qs|
    ensures forall i :: 0 <= i < |qs| && i != index ==> r[i] == qs[i]
    ensures 0 <= index < |qs| ==> r[index] == ApplyEdit(qs[index], edit)
  {
    seq(|qs|, i requires 0 <= i < |qs| => if i == index then ApplyEdit(qs[i], edit) else qs[i])
  }

  /** `removeQuestion(index)`: exactly that question goes and the rest keep
      their order; an index outside the list changes nothing. */
  function RemoveQuestion(qs: seq<QuestionDraft>, index: int): (r: seq<QuestionDraft>)
    ensures 0 <= index < |qs| ==> |r| == |qs| - 1
    ensures !(0 <= index < |qs|) ==> r == qs
    ensures 0 <= index < |qs| ==> forall i :: 0 <= i < |r| ==> r[i] == if i < index then qs[i] else qs[i + 1]
  {
    if 0 <= index < |qs| then qs[..index] + qs[index + 1..] else qs
  }

  /** Removing the question just added gives back the list. */
  lemma RemoveUndoesAdd(qs: seq<QuestionDraft>)
    ensures RemoveQuestion(AddQuestion(qs), |qs|) == qs
  {
    assert AddQuestion(qs)[..|qs|] == qs;
  }

  /** Editing a question twice in the same field keeps only the second value. */
  lemma LaterEditWins(qs: seq<QuestionDraft>, index: int, text1: string, text2: string)
    ensures UpdateQuestion(UpdateQuestion(qs, index, SetQuestion(text1)), index, SetQuestion(text2))
         == UpdateQuestion(qs, index, SetQuestion(text2))
  {
  }
}
