/** The task schema (backend/src/models/Task.js): the fields a task holds,
    how each path is cast and validated when a task is created or updated,
    the defaults of the optional paths, and the JSON form a task takes in
    responses. */
module TaskModel {
  import opened Base
  import opened Text

  datatype Status = Todo | InProgress | Done
  datatype Priority = Low | Medium | High

  const TitleMinLength: nat := 3
  const TitleMaxLength: nat := 100
  const DescriptionMaxLength: nat := 500

  const TitleRequiredMessage := "Task title is required"
  const TitleTooShortMessage := "Title must be at least 3 characters"
  const TitleTooLongMessage := "Title cannot exceed 100 characters"
  const DescriptionTooLongMessage := "Description cannot exceed 500 characters"
  const StatusEnumMessage := "Status must be todo, in-progress, or done"
  const PriorityEnumMessage := "Priority must be low, medium, or high"

  function StatusName(s: Status): string
  {
    match s
    case Todo => "todo"
    case InProgress => "in-progress"
    case Done => "done"
  }

  function PriorityName(p: Priority): string
  {
    match p
    case Low => "low"
    case Medium => "medium"
    case High => "high"
  }

  /** The enum validator of `status`: exactly the three names are members. */
  function ParseStatus(v: string): (r: Option<Status>)
    ensures r.Some? <==> v in {"todo", "in-progress", "done"}
    ensures r.Some? ==> StatusName(r.value) == v
  {
    if v == "todo" then Some(Todo)
    else if v == "in-progress" then Some(InProgress)
    else if v == "done" then Some(Done)
    else None
  }

  /** The enum validator of `priority`. */
  function ParsePriority(v: string): (r: Option<Priority>)
    ensures r.Some? <==> v in {"low", "medium", "high"}
    ensures r.Some? ==> PriorityName(r.value) == v
  {
    if v == "low" then Some(Low)
    else if v == "medium" then Some(Medium)
    else if v == "high" then Some(High)
    else None
  }

  /** Enum names and parsing are inverse, so a stored status or priority
      survives serialisation and re-reading. */
  lemma EnumNamesRoundTrip(s: Status, p: Priority)
    ensures ParseStatus(StatusName(s)) == Some(s)
    ensures ParsePriority(PriorityName(p)) == Some(p)
  {
  }

  /** A stored task. `dueDate` is an instant (milliseconds) or null;
      `createdAt` is the creation timestamp, used only for ordering. */
  datatype Task = Task(
    id: TaskId,
    title: string,
    description: string,
    status: Status,
    priority: Priority,
    dueDate: Option<int>,
    createdBy: UserId,
    createdAt: nat)

  /** What the schema guarantees of every stored task. */
  predicate WellFormed(t: Task)
  {
    && IsTrimmed(t.title) && TitleMinLength <= Utf16Length(t.title) <= TitleMaxLength
    && IsTrimmed(t.description) && Utf16Length(t.description) <= DescriptionMaxLength
  }

  /** `title`: trimmed, then required (non-empty), then 3 to 100 characters;
      only the first failing validator is reported. */
  function CheckTitle(v: string): (r: Checked<string>)
    ensures r.Accepted? <==> TitleMinLength <= Utf16Length(Trim(v)) <= TitleMaxLength
    ensures r.Accepted? ==> r.value == Trim(v)
    ensures r.Rejected? ==> r.error.field == "title"
    ensures r.Rejected? && Trim(v) == "" ==> r.error.message == TitleRequiredMessage
  {
    var t := Trim(v);
    if t == "" then Rejected(FieldError("title", TitleRequiredMessage))
    else if Utf16Length(t) < TitleMinLength then Rejected(FieldError("title", TitleTooShortMessage))
    else if Utf16Length(t) > TitleMaxLength then Rejected(FieldError("title", TitleTooLongMessage))
    else Accepted(t)
  }

  /** `description`: trimmed, then at most 500 characters. */
  function CheckDescription(v: string): (r: Checked<string>)
    ensures r.Accepted? <==> Utf16Length(Trim(v)) <= DescriptionMaxLength
    ensures r.Accepted? ==> r.value == Trim(v)
    ensures r.Rejected? ==> r.error == FieldError("description", DescriptionTooLongMessage)
  {
    var t := Trim(v);
    if Utf16Length(t) > DescriptionMaxLength then Rejected(FieldError("description", DescriptionTooLongMessage))
    else Accepted(t)
  }

  function CheckStatus(v: string): (r: Checked<Status>)
    ensures r.Accepted? <==> v in {"todo", "in-progress", "done"}
    ensures r.Accepted? ==> StatusName(r.value) == v
    ensures r.Rejected? ==> r.error == FieldError("status", StatusEnumMessage)
  {
    match ParseStatus(v)
    case Some(s) => Accepted(s)
    case None => Rejected(FieldError("status", StatusEnumMessage))
  }

  function CheckPriority(v: string): (r: Checked<Priority>)
    ensures r.Accepted? <==> v in {"low", "medium", "high"}
    ensures r.Accepted? ==> PriorityName(r.value) == v
    ensures r.Rejected? ==> r.error == FieldError("priority", PriorityEnumMessage)
  {
    match ParsePriority(v)
    case Some(p) => Accepted(p)
    case None => Rejected(FieldError("priority", PriorityEnumMessage))
  }

  /** Mongoose's report of a value the Date cast cannot read. */
  function DateCastMessage(v: string): string
  {
    "Cast to date failed for value \"" + v + "\" (type string) at path \"dueDate\""
  }

  /** `dueDate` is cast to a Date: the empty string becomes null, any other
      text is read by `parseDate` (None when it is not a date). */
  function CheckDueDate(v: string, parseDate: string -> Option<int>): (r: Checked<Option<int>>)
    ensures v == "" ==> r == Accepted(None)
    ensures v != "" ==> (r.Accepted? <==> parseDate(v).Some?)
    ensures v != "" && r.Accepted? ==> r.value == parseDate(v)
    ensures r.Rejected? ==> r.error.field == "dueDate"
  {
    if v == "" then Accepted(None)
    else match parseDate(v)
      case Some(d) => Accepted(Some(d))
      case None => Rejected(FieldError("dueDate", DateCastMessage(v)))
  }

  /** The values passed to `Task.create`; a missing key is `undefined`. */
  datatype NewTaskFields = NewTaskFields(
    title: Option<string>,
    description: Option<string>,
    status: Option<string>,
    priority: Option<string>,
    dueDate: Option<string>)

  /** Each path of a new task: a missing `title` fails `required`; a
      missing optional path takes its default. */
  function NewTitle(v: Option<string>): Checked<string>
  {
    if v.Some? then CheckTitle(v.value) else Rejected(FieldError("title", TitleRequiredMessage))
  }

  function NewDescription(v: Option<string>): Checked<string>
  {
    if v.Some? then CheckDescription(v.value) else Accepted("")
  }

  function NewStatus(v: Option<string>): Checked<Status>
  {
    if v.Some? then CheckStatus(v.value) else Accepted(Todo)
  }

  function NewPriority(v: Option<string>): Checked<Priority>
  {
    if v.Some? then CheckPriority(v.value) else Accepted(Medium)
  }

  function NewDueDate(v: Option<string>, parseDate: string -> Option<int>): Checked<Option<int>>
  {
    if v.Some? then CheckDueDate(v.value, parseDate) else Accepted(None)
  }

  /** `Task.create(fields)`: cast and validate every path, apply the
      defaults of the missing optional paths (description '', status todo,
      priority medium, dueDate null), stamp the owner and the creation time.
      Every failing path is reported; a cast failure is recorded when the
      document is built, so it comes before the validators' reports, which
      follow in schema order. */
  function NewTask(fields: NewTaskFields, id: TaskId, owner: UserId, now: nat,
                   parseDate: string -> Option<int>): (r: Validated<Task>)
    ensures r.Valid? <==>
      && fields.title.Some? && CheckTitle(fields.title.value).Accepted?
      && (fields.description.Some? ==> CheckDescription(fields.description.value).Accepted?)
      && (fields.status.Some? ==> CheckStatus(fields.status.value).Accepted?)
      && (fields.priority.Some? ==> CheckPriority(fields.priority.value).Accepted?)
      && (fields.dueDate.Some? ==> CheckDueDate(fields.dueDate.value, parseDate).Accepted?)
    ensures r.Valid? ==> WellFormed(r.value)
    ensures r.Valid? ==> r.value.id == id && r.value.createdBy == owner && r.value.createdAt == now
    ensures r.Valid? ==> r.value.title == Trim(fields.title.value)
    ensures r.Valid? ==>
      r.value.description == (if fields.description.Some? then Trim(fields.description.value) else "")
    ensures r.Valid? && fields.status.Some? ==> StatusName(r.value.status) == fields.status.value
    ensures r.Valid? && fields.status.None? ==> r.value.status == Todo
    ensures r.Valid? && fields.priority.Some? ==> PriorityName(r.value.priority) == fields.priority.value
    ensures r.Valid? && fields.priority.None? ==> r.value.priority == Medium
    ensures r.Valid? ==>
      r.value.dueDate == (if fields.dueDate.Some? then CheckDueDate(fields.dueDate.value, parseDate).value else None)
    ensures r.Invalid? ==> r.errors != []
    ensures fields.dueDate.Some? && CheckDueDate(fields.dueDate.value, parseDate).Rejected? ==>
      r.Invalid? && r.errors[0] == CheckDueDate(fields.dueDate.value, parseDate).error
    ensures fields.title.None? ==> r.Invalid?
    ensures fields.title.None? && (fields.dueDate.Some? ==> CheckDueDate(fields.dueDate.value, parseDate).Accepted?) ==>
      r.errors[0] == FieldError("title", TitleRequiredMessage)
  {
    var title := NewTitle(fields.title);
    var description := NewDescription(fields.description);
    var status := NewStatus(fields.status);
    var priority := NewPriority(fields.priority);
    var dueDate := NewDueDate(fields.dueDate, parseDate);
    if title.Accepted? && description.Accepted? && status.Accepted? && priority.Accepted? && dueDate.Accepted? then
      Valid(Task(id, title.value, description.value, status.value, priority.value, dueDate.value, owner, now))
    else
      Invalid(Report(dueDate) + Report(title) + Report(description) + Report(status) + Report(priority))
  }

  /** A path an update may leave out: absent keeps the stored value,
      present is cast and validated (Mongoose's update validators). */
  function UpdatedPath<T>(current: T, v: Option<string>, check: string -> Checked<T>): Checked<T>
  {
    if v.Some? then check(v.value) else Accepted(current)
  }

  /** An update whose `dueDate` the Date cast cannot read: the update's
      cast runs before its validators and throws a CastError. */
  predicate DueDateCastFails(updates: map<string, string>, parseDate: string -> Option<int>)
  {
    "dueDate" in updates && CheckDueDate(updates["dueDate"], parseDate).Rejected?
  }

  /** `findByIdAndUpdate(id, updates, {runValidators: true})` on the five
      task paths: each path named in `updates` is cast and validated, the
      others keep their stored values, and the identifier, the owner and
      the creation time never change. */
  function UpdatedTask(t: Task, updates: map<string, string>, parseDate: string -> Option<int>): (r: Validated<Task>)
    ensures r.Valid? ==> r.value.id == t.id && r.value.createdBy == t.createdBy && r.value.createdAt == t.createdAt
    ensures r.Valid? ==> r.value.title == (if "title" in updates then Trim(updates["title"]) else t.title)
    ensures r.Valid? ==> r.value.description == (if "description" in updates then Trim(updates["description"]) else t.description)
    ensures r.Valid? ==> "status" !in updates ==> r.value.status == t.status
    ensures r.Valid? ==> "status" in updates ==> StatusName(r.value.status) == updates["status"]
    ensures r.Valid? ==> "priority" !in updates ==> r.value.priority == t.priority
    ensures r.Valid? ==> "priority" in updates ==> PriorityName(r.value.priority) == updates["priority"]
    ensures r.Valid? ==> "dueDate" !in updates ==> r.value.dueDate == t.dueDate
    ensures r.Valid? && "dueDate" in updates ==>
      r.value.dueDate == (if updates["dueDate"] == "" then None else parseDate(updates["dueDate"]))
    ensures r.Valid? && WellFormed(t) ==> WellFormed(r.value)
    ensures r.Valid? <==>
      && ("title" in updates ==> CheckTitle(updates["title"]).Accepted?)
      && ("description" in updates ==> CheckDescription(updates["description"]).Accepted?)
      && ("status" in updates ==> CheckStatus(updates["status"]).Accepted?)
      && ("priority" in updates ==> CheckPriority(updates["priority"]).Accepted?)
      && ("dueDate" in updates ==> CheckDueDate(updates["dueDate"], parseDate).Accepted?)
    ensures r.Invalid? ==> r.errors != []
  {
    var title := UpdatedPath(t.title, Lookup(updates, "title"), CheckTitle);
    var description := UpdatedPath(t.description, Lookup(updates, "description"), CheckDescription);
    var status := UpdatedPath(t.status, Lookup(updates, "status"), CheckStatus);
    var priority := UpdatedPath(t.priority, Lookup(updates, "priority"), CheckPriority);
    var dueDate := if "dueDate" in updates then CheckDueDate(updates["dueDate"], parseDate) else Accepted(t.dueDate);
    if title.Accepted? && description.Accepted? && status.Accepted? && priority.Accepted? && dueDate.Accepted? then
      Valid(t.(title := title.value, description := description.value, status := status.value,
               priority := priority.value, dueDate := dueDate.value))
    else
      Invalid(Report(title) + Report(description) + Report(status) + Report(priority) + Report(dueDate))
  }

  /** A task's JSON form before the schema's `toJSON` transform runs: every
      path, the identifier and the version key `__v`. */
  function TaskDocument(t: Task, version: nat): map<string, Json>
  {
    map[
      "_id" := JNum(t.id),
      "title" := JStr(t.title),
      "description" := JStr(t.description),
      "status" := JStr(StatusName(t.status)),
      "priority" := JStr(PriorityName(t.priority)),
      "dueDate" := (if t.dueDate.Some? then JNum(t.dueDate.value) else JNull),
      "createdBy" := JNum(t.createdBy),
      "createdAt" := JNum(t.createdAt),
      "__v" := JNum(version)]
  }

  /** The schema's `toJSON` transform: deletes `__v` from the output copy. */
  function TaskToJSON(doc: map<string, Json>): (r: map<string, Json>)
    ensures "__v" !in r
    ensures r.Keys == doc.Keys - {"__v"}
    ensures forall k :: k in r ==> r[k] == doc[k]
  {
    doc - {"__v"}
  }

  /** Reads a task back from its JSON form. */
  function ParseTask(j: map<string, Json>): Option<Task>
  {
    if && "_id" in j && j["_id"].JNum? && j["_id"].num >= 0
       && "title" in j && j["title"].JStr?
       && "description" in j && j["description"].JStr?
       && "status" in j && j["status"].JStr? && ParseStatus(j["status"].str).Some?
       && "priority" in j && j["priority"].JStr? && ParsePriority(j["priority"].str).Some?
       && "dueDate" in j && (j["dueDate"].JNull? || j["dueDate"].JNum?)
       && "createdBy" in j && j["createdBy"].JNum? && j["createdBy"].num >= 0
       && "createdAt" in j && j["createdAt"].JNum? && j["createdAt"].num >= 0
    then
      Some(Task(j["_id"].num, j["title"].str, j["description"].str,
                ParseStatus(j["status"].str).value, ParsePriority(j["priority"].str).value,
                if j["dueDate"].JNull? then None else Some(j["dueDate"].num),
                j["createdBy"].num, j["createdAt"].num))
    else None
  }

  /** Serialisation removes only `__v`: the JSON a response carries still
      determines the whole task. */
  lemma SerialisedTaskRoundTrip(t: Task, version: nat)
    ensures TaskToJSON(TaskDocument(t, version)).Keys
         == {"_id", "title", "description", "status", "priority", "dueDate", "createdBy", "createdAt"}
    ensures ParseTask(TaskToJSON(TaskDocument(t, version))) == Some(t)
  {
    var j := TaskToJSON(TaskDocument(t, version));
    EnumNamesRoundTrip(t.status, t.priority);
    assert j["status"] == JStr(StatusName(t.status));
    assert j["priority"] == JStr(PriorityName(t.priority));
  }
}
