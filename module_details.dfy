/**
 * The editing state of `ModuleDetails`: the module record being edited and the
 * text of the "new topic" box, changed by the input handlers, the add-topic
 * button and the notes area.
 */
module ModuleDetailsEditor {
  import opened Wrappers
  import opened JsBuiltins

  /** `ModuleType`; `year` and `semester` are optional. The `label` field is
      `moduleLabel` here, `label` being a Dafny keyword. */
  datatype ModuleInfo = ModuleInfo(
    id: string,
    moduleLabel: string,
    lecturer: string,
    year: Option<string>,
    semester: Option<string>,
    topics: seq<string>,
    notes: string,
    grades: string,
    assignments: seq<string>,
    value: int)

  /** The `name` attributes of the inputs wired to `handleInputChange`. */
  datatype InputName = LabelInput | LecturerInput | YearInput | SemesterInput

  /** What the input named `name` shows. */
  function FieldOf(m: ModuleInfo, name: InputName): Option<string> {
    match name
    case LabelInput => Some(m.moduleLabel)
    case LecturerInput => Some(m.lecturer)
    case YearInput => m.year
    case SemesterInput => m.semester
  }

  /** `{ ...prev, [name]: value }`. */
  function WithField(m: ModuleInfo, name: InputName, value: string): (r: ModuleInfo)
    ensures FieldOf(r, name) == Some(value)
    ensures forall other :: other != name ==> FieldOf(r, other) == FieldOf(m, other)
    ensures r.id == m.id && r.topics == m.topics && r.notes == m.notes && r.grades == m.grades
    ensures r.assignments == m.assignments && r.value == m.value
  {
    match name
    case LabelInput => m.(moduleLabel := value)
    case LecturerInput => m.(lecturer := value)
    case YearInput => m.(year := Some(value))
    case SemesterInput => m.(semester := Some(value))
  }

  /** `handleAddTopic` on the record and the input text: a text that trims to
      nothing changes neither; otherwise the trimmed text is appended to the topics
      and the input is cleared. */
  function AddTopic(m: ModuleInfo, newTopic: string): (r: (ModuleInfo, string))
    ensures AllWhitespace(newTopic) ==> r == (m, newTopic)
    ensures !AllWhitespace(newTopic) ==>
      r.1 == [] && r.0.(topics := m.topics) == m &&
      |r.0.topics| == |m.topics| + 1 && r.0.topics[..|m.topics|] == m.topics &&
      r.0.topics[|m.topics|] == Trim(newTopic)
  {
    TrimEmptyIff(newTopic);
    var topic := Trim(newTopic);
    if topic != [] then (m.(topics := m.topics + [topic]), []) else (m, newTopic)
  }

  /** A topic that is added is never blank and has no white space at its ends. */
  lemma AddedTopicIsTrimmed(m: ModuleInfo, newTopic: string)
    requires !AllWhitespace(newTopic)
    ensures var t := AddTopic(m, newTopic).0.topics[|m.topics|];
      t != [] && !IsWhitespace(t[0]) && !IsWhitespace(t[|t| - 1]) && Trim(newTopic) == t
  {
    TrimEmptyIff(newTopic);
  }

  /** Adding the same text again right after an add does nothing: the box is
      empty by then. */
  lemma AddTopicTwice(m: ModuleInfo, newTopic: string)
    ensures var r := AddTopic(m, newTopic); AddTopic(r.0, r.1) == r
  {
    var r := AddTopic(m, newTopic);
    if !AllWhitespace(newTopic) {
      assert AllWhitespace(r.1);
    }
  }

  class ModuleEditor {
    var moduleInfo: ModuleInfo
    var newTopic: string

    /** `useState(module)` and `useState("")`. */
    constructor(initial: ModuleInfo)
      ensures moduleInfo == initial && newTopic == []
    {
      moduleInfo := initial;
      newTopic := [];
    }

    /** `handleInputChange`: only the field the input names changes. */
    method HandleInputChange(name: InputName, value: string)
      modifies this`moduleInfo
      ensures moduleInfo == WithField(old(moduleInfo), name, value)
    {
      moduleInfo := WithField(moduleInfo, name, value);
    }

    /** The new-topic box's `onChange`. */
    method HandleNewTopicChange(value: string)
      modifies this`newTopic
      ensures newTopic == value
    {
      newTopic := value;
    }

    /** `handleAddTopic`. */
    method HandleAddTopic()
      modifies this
      ensures (moduleInfo, newTopic) == AddTopic(old(moduleInfo), old(newTopic))
    {
      var topic := Trim(newTopic);
      if topic != [] {
        moduleInfo := moduleInfo.(topics := moduleInfo.topics + [topic]);
        newTopic := [];
      }
    }

    /** The notes area's `onChange`: only `notes` changes. */
    method HandleNotesChange(value: string)
      modifies this`moduleInfo
      ensures moduleInfo == old(moduleInfo).(notes := value)
    {
      moduleInfo := moduleInfo.(notes := value);
    }
  }
}
