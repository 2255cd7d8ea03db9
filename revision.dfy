/**
 * The revision section: the list of saved practice exams, the error line and the
 * "generate" modal, changed by `handleCreateExam` and `savePracticeExam`; plus the
 * pure pieces around them, the module lookup, the notes sent to the generator and
 * the label shown for each saved exam. The generator's reply, `JSON.parse`, the
 * store's new document id and `Date.now()` are parameters.
 */
module RevisionSectionComponent {
  import opened Wrappers
  import opened JsBuiltins
  import opened JsonFences
  import opened Grading

  datatype Topic = Topic(id: string, title: string, notes: string)

  /** `ModuleType` of this section; `label` is `moduleLabel`, `label` being a Dafny
      keyword. */
  datatype Module = Module(id: string, moduleLabel: string, topics: seq<Topic>)

  datatype ExamType = MCQ | Written

  /** The `examDetails` record built from the modal's settings. */
  datatype ExamDetails = ExamDetails(moduleId: string, examType: ExamType, numberOfQuestions: int,
                                     timeAllowed: int, totalMarks: int)

  /** A saved practice exam: `{ id, ...examDetails, examData, createdAt }`. */
  datatype RevisionQuiz = RevisionQuiz(id: string, details: ExamDetails, createdAt: int, examData: Json)

  const ModuleNotFound := "Selected module not found"
  const SaveFallback := "Error adding practice exam"
  const GenerateFallback := "Error generating practice exam"
  const UnknownModule := "Unknown Module"

  /** The index `modules.find((m) => m.id === id)` stops at. */
  function FindIndex(modules: seq<Module>, id: string): (r: Option<nat>)
    ensures r.None? <==> forall i :: 0 <= i < |modules| ==> modules[i].id != id
    ensures r.Some? ==> r.value < |modules| && modules[r.value].id == id &&
                        forall i :: 0 <= i < r.value ==> modules[i].id != id
    decreases |modules|
  {
    if modules == [] then None
    else if modules[0].id == id then Some(0)
    else
      match FindIndex(modules[1..], id)
      case None => None
      case Some(k) => Some(k + 1)
  }

  /** `modules.find((m) => m.id === id)`: the first module with that id. */
  function FindModule(modules: seq<Module>, id: string): (r: Option<Module>)
    ensures r.None? <==> forall i :: 0 <= i < |modules| ==> modules[i].id != id
    ensures r.Some? ==> r.value.id == id && r.value in modules
    ensures r.Some? ==> FindIndex(modules, id).Some? && r.value == modules[FindIndex(modules, id).value]
  {
    match FindIndex(modules, id)
    case None => None
    case Some(k) => Some(modules[k])
  }

  /** `topics.map((t) => t.notes)`. */
  function TopicNotes(topics: seq<Topic>): (r: seq<string>)
    ensures |r| == |topics| && forall i :: 0 <= i < |topics| ==> r[i] == topics[i].notes
  {
    seq(|topics|, i requires 0 <= i < |topics| => topics[i].notes)
  }

  /** `notesContent`: the notes of the module's topics joined with "\n"; it opens
      with the first topic's notes and closes with the last one's. */
  function NotesContent(m: Module): (r: string)
    ensures m.topics != [] ==> m.topics[0].notes <= r
    ensures m.topics != [] ==>
      |m.topics[|m.topics| - 1].notes| <= |r| &&
      r[|r| - |m.topics[|m.topics| - 1].notes|..] == m.topics[|m.topics| - 1].notes
  {
    Join(TopicNotes(m.topics), '\n')
  }

  /** A module without topics sends empty notes. */
  lemma NoTopicsNoNotes(m: Module)
    requires m.topics == []
    ensures NotesContent(m) == []
  {
  }

  /** Splitting the notes content on "\n" gives back each topic's notes in order,
      when there is a topic and no note holds a line break itself. */
  lemma NotesContentInOrder(m: Module)
    requires |m.topics| >= 1
    requires forall i :: 0 <= i < |m.topics| ==> '\n' !in m.topics[i].notes
    ensures Split(NotesContent(m), '\n') == TopicNotes(m.topics)
  {
    SplitJoin(TopicNotes(m.topics), '\n');
  }

  /** `find(...)?.label || "Unknown Module"`: an empty label counts as missing. */
  function ModuleLabel(modules: seq<Module>, moduleId: string): (r: string)
    ensures FindModule(modules, moduleId).None? ==> r == UnknownModule
    ensures FindModule(modules, moduleId).Some? ==>
      r == ErrorText(FindModule(modules, moduleId).value.moduleLabel, UnknownModule)
  {
    match FindModule(modules, moduleId)
    case None => UnknownModule
    case Some(m) => if m.moduleLabel != [] then m.moduleLabel else UnknownModule
  }

  /** The label shown is a real module's label or "Unknown Module", never empty. */
  lemma ModuleLabelNeverEmpty(modules: seq<Module>, moduleId: string)
    ensures ModuleLabel(modules, moduleId) != []
    ensures ModuleLabel(modules, moduleId) != UnknownModule ==>
      exists i :: 0 <= i < |modules| && modules[i].id == moduleId &&
                  modules[i].moduleLabel == ModuleLabel(modules, moduleId)
  {
    var k := FindIndex(modules, moduleId);
    if k.Some? {
      assert modules[k.value].id == moduleId;
    }
  }

  /** The part of the `try` before the save: the generator's reply, cleaned and
      parsed; a throw from either ends up in `catch` with its message. */
  function ExamFromResponse(response: Outcome<string>, parse: string -> ParseResult): (r: Outcome<Json>)
    ensures response.Threw? ==> r == Threw(response.message)
    ensures r.Ok? <==> response.Ok? && parse(CleanJson(response.value)).Parsed?
    ensures r.Ok? ==> parse(CleanJson(response.value)) == Parsed(r.value)
    ensures response.Ok? && parse(CleanJson(response.value)).ParseFailed? ==>
      r == Threw(parse(CleanJson(response.value)).message)
  {
    match response
    case Threw(message) => Threw(message)
    case Ok(text) =>
      match parse(CleanJson(text))
      case ParseFailed(message) => Threw(message)
      case Parsed(value) => Ok(value)
  }

  /** A reply in a "```json" fence is parsed from exactly its body. */
  lemma FencedReplyParsed(parse: string -> ParseResult, lead: string, gap1: string, body: string,
                          gap2: string, trail: string)
    requires AllWhitespace(lead) && AllWhitespace(gap1) && AllWhitespace(gap2) && AllWhitespace(trail)
    requires body == [] || (!IsWhitespace(body[0]) && !IsWhitespace(body[|body| - 1]))
    ensures ExamFromResponse(Ok(lead + OpeningFence + gap1 + body + gap2 + ClosingFence + trail), parse) ==
      match parse(body) case ParseFailed(message) => Threw(message) case Parsed(value) => Ok(value)
  {
    CleanJsonFencedRoundTrip(lead, gap1, body, gap2, trail);
  }

  /** The part of the section's state the handlers change. */
  datatype SectionState = SectionState(revisionQuizzes: seq<RevisionQuiz>, error: string, showModal: bool)

  /** `savePracticeExam`: `saved` is the new document's id, or what `addDoc` (or the
      missing user) threw. A saved exam goes in front of the list, every earlier one
      kept in order; a failure only sets the error. */
  function SaveExam(st: SectionState, exam: Json, details: ExamDetails, createdAt: int,
                    saved: Outcome<string>): (r: SectionState)
    ensures r.showModal == st.showModal
    ensures saved.Ok? ==>
      |r.revisionQuizzes| == |st.revisionQuizzes| + 1 && r.revisionQuizzes[1..] == st.revisionQuizzes &&
      r.revisionQuizzes[0] == RevisionQuiz(saved.value, details, createdAt, exam) && r.error == st.error
    ensures saved.Threw? ==>
      r.revisionQuizzes == st.revisionQuizzes && r.error == ErrorText(saved.message, SaveFallback)
  {
    match saved
    case Ok(id) => st.(revisionQuizzes := [RevisionQuiz(id, details, createdAt, exam)] + st.revisionQuizzes)
    case Threw(message) => st.(error := ErrorText(message, SaveFallback))
  }

  /** The `try` of `handleCreateExam` from the parsed reply on, and the
      `setShowModal(false)` after it: a parse failure sets the error, a parsed exam
      is saved. */
  function AfterGenerate(st: SectionState, details: ExamDetails, exam: Outcome<Json>, createdAt: int,
                         saved: Outcome<string>): (r: SectionState)
    ensures !r.showModal
    ensures exam.Threw? ==>
      r.revisionQuizzes == st.revisionQuizzes && r.error == ErrorText(exam.message, GenerateFallback)
    ensures exam.Ok? ==> r == SaveExam(st, exam.value, details, createdAt, saved).(showModal := false)
    ensures exam.Ok? && saved.Ok? ==> r.revisionQuizzes[0].examData == exam.value
  {
    var after := match exam
      case Threw(message) => st.(error := ErrorText(message, GenerateFallback))
      case Ok(examData) => SaveExam(st, examData, details, createdAt, saved);
    after.(showModal := false)
  }

  /** `handleCreateExam` once the generator's reply has been cleaned and parsed into
      `exam`. The first component is the notes content passed to the generator,
      `None` when it is not called. An unknown module only sets the error; any other
      outcome closes the modal. */
  function CreateExam(modules: seq<Module>, st: SectionState, selectedModuleId: string,
                      examType: ExamType, numQuestions: int, timeAllowed: int, totalMarks: int,
                      exam: Outcome<Json>, createdAt: int, saved: Outcome<string>): (r: (Option<string>, SectionState))
    ensures FindModule(modules, selectedModuleId).None? ==>
      r == (None, st.(error := ModuleNotFound))
    ensures FindModule(modules, selectedModuleId).Some? ==>
      r.0 == Some(NotesContent(FindModule(modules, selectedModuleId).value)) && !r.1.showModal
    ensures FindModule(modules, selectedModuleId).Some? && exam.Threw? ==>
      r.1.revisionQuizzes == st.revisionQuizzes && r.1.error == ErrorText(exam.message, GenerateFallback)
    ensures FindModule(modules, selectedModuleId).Some? && exam.Ok? ==>
      r.1 == SaveExam(st, exam.value,
                      ExamDetails(selectedModuleId, examType, numQuestions, timeAllowed, totalMarks),
                      createdAt, saved).(showModal := false)
  {
    match FindModule(modules, selectedModuleId)
    case None => (None, st.(error := ModuleNotFound))
    case Some(m) =>
      (Some(NotesContent(m)),
       AfterGenerate(st, ExamDetails(selectedModuleId, examType, numQuestions, timeAllowed, totalMarks),
                     exam, createdAt, saved))
  }

  class RevisionSection {
    var modules: seq<Module>
    var revisionQuizzes: seq<RevisionQuiz>
    var error: string
    var showModal: bool

    function State(): SectionState
      reads this
    {
      SectionState(revisionQuizzes, error, showModal)
    }

    /** `useState(passedModules || [])`, an empty list, no error, modal closed. */
    constructor(passedModules: Option<seq<Module>>)
      ensures modules == (if passedModules.Some? then passedModules.value else [])
      ensures State() == SectionState([], [], false)
    {
      modules := if passedModules.Some? then passedModules.value else [];
      revisionQuizzes := [];
      error := [];
      showModal := false;
    }

    /** The "Generate Practice Exam" button. */
    method OpenModal()
      modifies this`showModal
      ensures showModal
    {
      showModal := true;
    }

    /** `savePracticeExam`. */
    method SavePracticeExam(exam: Json, details: ExamDetails, createdAt: int, saved: Outcome<string>)
      modifies this`revisionQuizzes, this`error
      ensures State() == SaveExam(old(State()), exam, details, createdAt, saved)
    {
      match saved
      case Ok(id) =>
        revisionQuizzes := [RevisionQuiz(id, details, createdAt, exam)] + revisionQuizzes;
      case Threw(message) =>
        error := ErrorText(message, SaveFallback);
    }

    /** The `try` of `handleCreateExam` once the reply is cleaned and parsed into
        `exam`, and the `setShowModal(false)` after it. */
    method FinishCreateExam(details: ExamDetails, exam: Outcome<Json>, createdAt: int, saved: Outcome<string>)
      modifies this`revisionQuizzes, this`error, this`showModal
      ensures State() == AfterGenerate(old(State()), details, exam, createdAt, saved)
    {
      match exam {
        case Threw(message) =>
          error := ErrorText(message, GenerateFallback);
        case Ok(examData) =>
          SavePracticeExam(examData, details, createdAt, saved);
      }
      showModal := false;
    }

    /** `handleCreateExam`: the generator's `response` is cleaned and parsed with
        `parse`, then saved with outcome `saved`. */
    method HandleCreateExam(selectedModuleId: string, examType: ExamType, numQuestions: int,
                            timeAllowed: int, totalMarks: int, response: Outcome<string>,
                            parse: string -> ParseResult, createdAt: int, saved: Outcome<string>)
      returns (request: Option<string>)
      modifies this`revisionQuizzes, this`error, this`showModal
      ensures (request, State()) ==
        CreateExam(modules, old(State()), selectedModuleId, examType, numQuestions, timeAllowed,
                   totalMarks, ExamFromResponse(response, parse), createdAt, saved)
    {
      var selected := FindModule(modules, selectedModuleId);
      if selected.None? {
        error := ModuleNotFound;
        return None;
      }
      request := Some(NotesContent(selected.value));
      var exam := ExamFromResponse(response, parse);
      var details := ExamDetails(selectedModuleId, examType, numQuestions, timeAllowed, totalMarks);
      FinishCreateExam(details, exam, createdAt, saved);
    }
  }
}
