/** The task router (backend/src/routes/v1/taskRoutes.js), mounted at
    `/api/v1/tasks`: every request first passes `protect`; then the first
    registration whose verb and path match answers it. The create and the
    update routes run a chain of body validators per field before the
    `validate` middleware (backend/src/middleware/validate.js), which
    answers 400 with every report when any validator failed. */
module TaskRoutes {
  import opened Base
  import opened Text
  import opened TaskModel
  import opened UserModel
  import opened TaskController
  import ErrorHandler
  import AuthGate

  // ----- body validation chains -----

  /** The validators the routes use. Each reports its own message when it
      fails; `LengthWithin` is `isLength({min, max})`, with `min` 0 when
      only `max` is given, and counts as the validator library does
      (`ValidatorLength`: code points, presentation selectors left out). */
  datatype Rule =
    | NotEmpty(message: string)
    | LengthWithin(min: nat, max: nat, message: string)
    | OneOf(options: seq<string>, message: string)
    | Iso8601(message: string)

  /** `body(field)` followed by `optional()` when `optional`, `trim()` when
      `trim`, and the validators `rules`, in order. */
  datatype Chain = Chain(field: string, optional: bool, trim: bool, rules: seq<Rule>)

  const TitleRequired := "Title is required"
  const TitleLength := "Title must be 3-100 characters"
  const DescriptionLength := "Description cannot exceed 500 characters"
  const StatusChoice := "Status must be todo, in-progress, or done"
  const PriorityChoice := "Priority must be low, medium, or high"
  const DueDateFormat := "Due date must be a valid date"
  const ValidationFailedMessage := "Validation failed"

  const StatusNames: seq<string> := ["todo", "in-progress", "done"]
  const PriorityNames: seq<string> := ["low", "medium", "high"]

  const DescriptionChain := Chain("description", true, true, [LengthWithin(0, 500, DescriptionLength)])
  const StatusChain := Chain("status", true, false, [OneOf(StatusNames, StatusChoice)])
  const PriorityChain := Chain("priority", true, false, [OneOf(PriorityNames, PriorityChoice)])
  const DueDateChain := Chain("dueDate", true, false, [Iso8601(DueDateFormat)])

  /** The title is required on create and optional on update. */
  const CreateTitleChain := Chain("title", false, true, [NotEmpty(TitleRequired), LengthWithin(3, 100, TitleLength)])
  const UpdateTitleChain := Chain("title", true, true, [LengthWithin(3, 100, TitleLength)])

  /** Whether `rule` rejects the (sanitised) value `v`; `isIso` is the
      ISO 8601 date recogniser of the validator library. */
  predicate Fails(rule: Rule, v: string, isIso: string -> bool)
  {
    match rule
    case NotEmpty(_) => v == ""
    case LengthWithin(min, max, _) => !(min <= ValidatorLength(v) <= max)
    case OneOf(options, _) => v !in options
    case Iso8601(_) => !isIso(v)
  }

  /** The reports of the failing rules, in order: a chain does not stop at
      its first failure. */
  function RuleErrors(field: string, rules: seq<Rule>, v: string, isIso: string -> bool): (errors: seq<FieldError>)
    ensures |errors| <= |rules|
    ensures forall k :: 0 <= k < |errors| ==> errors[k].field == field
    ensures errors == [] <==> forall k :: 0 <= k < |rules| ==> !Fails(rules[k], v, isIso)
  {
    if rules == [] then []
    else
      (if Fails(rules[0], v, isIso) then [FieldError(field, rules[0].message)] else [])
      + RuleErrors(field, rules[1..], v, isIso)
  }

  /** One chain on the body: an optional field that is missing is skipped;
      otherwise the value (a missing one reads as '') is trimmed when the
      chain trims, written back, and checked. Other fields are untouched. */
  function RunChain(c: Chain, body: Body, isIso: string -> bool): (Body, seq<FieldError>)
  {
    if c.optional && c.field !in body then (body, [])
    else
      var raw := if c.field in body then body[c.field] else "";
      var v := if c.trim then Trim(raw) else raw;
      (if c.trim then body[c.field := v] else body, RuleErrors(c.field, c.rules, v, isIso))
  }

  /** The four chains both routes run after their title chain, in the
      order listed: description, status, priority, due date. Each sees the
      body as the chain before it left it; the reports accumulate. */
  function RunShared(body: Body, isIso: string -> bool): (Body, seq<FieldError>)
  {
    var d := RunChain(DescriptionChain, body, isIso);
    var s := RunChain(StatusChain, d.0, isIso);
    var p := RunChain(PriorityChain, s.0, isIso);
    var u := RunChain(DueDateChain, p.0, isIso);
    (u.0, d.1 + s.1 + p.1 + u.1)
  }

  /** What `validate` decides: on to the handler with the sanitised body,
      or a 400 listing every report. */
  datatype Screening = Passed(body: Body) | Refused(errors: seq<FieldError>)

  /** A route's chains, its title chain first, followed by `validate`. */
  function Validate(title: Chain, body: Body, isIso: string -> bool): (s: Screening)
    ensures s.Refused? ==> s.errors != []
  {
    var t := RunChain(title, body, isIso);
    var rest := RunShared(t.0, isIso);
    if t.1 + rest.1 == [] then Passed(rest.0) else Refused(t.1 + rest.1)
  }

  /** The screening of `POST /` and of `PUT /:id`. */
  function ValidateCreate(body: Body, isIso: string -> bool): Screening
  {
    Validate(CreateTitleChain, body, isIso)
  }

  function ValidateUpdate(body: Body, isIso: string -> bool): Screening
  {
    Validate(UpdateTitleChain, body, isIso)
  }

  /** `body` with `field` trimmed, when it is present. */
  function Trimmed(body: Body, field: string): Body
  {
    if field in body then body[field := Trim(body[field])] else body
  }

  /** The body a screening lets through: title and description trimmed,
      everything else as sent. */
  function Sanitised(body: Body): Body
  {
    Trimmed(Trimmed(body, "title"), "description")
  }

  /** The conditions both routes put on the optional fields. */
  predicate OptionalFieldsAcceptable(body: Body, isIso: string -> bool)
  {
    && ("description" in body ==> ValidatorLength(Trim(body["description"])) <= 500)
    && ("status" in body ==> body["status"] in StatusNames)
    && ("priority" in body ==> body["priority"] in PriorityNames)
    && ("dueDate" in body ==> isIso(body["dueDate"]))
  }

  predicate TitleAcceptable(title: string)
  {
    3 <= ValidatorLength(Trim(title)) <= 100
  }

  /** An optional chain with a single rule: skipped when the field is
      missing, otherwise one report exactly when the rule fails. */
  lemma OneRuleChain(c: Chain, body: Body, isIso: string -> bool)
    requires c.optional && |c.rules| == 1
    ensures RunChain(c, body, isIso).0 == (if c.trim then Trimmed(body, c.field) else body)
    ensures RunChain(c, body, isIso).1 == [] <==>
      (c.field in body ==> !Fails(c.rules[0], if c.trim then Trim(body[c.field]) else body[c.field], isIso))
  {
    if c.field in body {
      var v := if c.trim then Trim(body[c.field]) else body[c.field];
      assert RunChain(c, body, isIso).1 == RuleErrors(c.field, c.rules, v, isIso);
    }
  }

  /** What the shared chains leave and report: the description trimmed,
      and no report exactly when the optional fields are acceptable. */
  lemma SharedChains(b1: Body, isIso: string -> bool)
    ensures var r := RunShared(b1, isIso);
      && r.0 == Trimmed(b1, "description")
      && (r.1 == [] <==> OptionalFieldsAcceptable(b1, isIso))
  {
    var r2 := RunChain(DescriptionChain, b1, isIso);
    OneRuleChain(DescriptionChain, b1, isIso);
    var r3 := RunChain(StatusChain, r2.0, isIso);
    OneRuleChain(StatusChain, r2.0, isIso);
    var r4 := RunChain(PriorityChain, r3.0, isIso);
    OneRuleChain(PriorityChain, r3.0, isIso);
    var r5 := RunChain(DueDateChain, r4.0, isIso);
    OneRuleChain(DueDateChain, r4.0, isIso);
    assert r5.0 == r2.0 == Trimmed(b1, "description");
    assert r2.1 + r3.1 + r4.1 + r5.1 == [] <==> r2.1 == [] && r3.1 == [] && r4.1 == [] && r5.1 == [];
  }

  /** The title does not take part in the conditions on the other fields. */
  lemma TitleIsNotOptional(body: Body, v: string, isIso: string -> bool)
    ensures OptionalFieldsAcceptable(body["title" := v], isIso) == OptionalFieldsAcceptable(body, isIso)
  {
    var b := body["title" := v];
    assert Lookup(b, "description") == Lookup(body, "description");
    assert Lookup(b, "status") == Lookup(body, "status");
    assert Lookup(b, "priority") == Lookup(body, "priority");
    assert Lookup(b, "dueDate") == Lookup(body, "dueDate");
  }

  /** The title chain of `POST /`: a missing title reads as '' and fails
      both validators. */
  lemma CreateTitleRun(body: Body, isIso: string -> bool)
    ensures var r1 := RunChain(CreateTitleChain, body, isIso);
      && r1.0 == body["title" := Trim(if "title" in body then body["title"] else "")]
      && (r1.1 == [] <==> "title" in body && TitleAcceptable(body["title"]))
      && ("title" !in body ==> r1.1 == [FieldError("title", TitleRequired), FieldError("title", TitleLength)])
  {
    var raw := if "title" in body then body["title"] else "";
    var rules := CreateTitleChain.rules;
    assert RunChain(CreateTitleChain, body, isIso).1 == RuleErrors("title", rules, Trim(raw), isIso);
    assert rules[1..][1..] == [];
    if "title" !in body {
      assert Trim(raw) == "";
    } else if TitleAcceptable(raw) {
      assert Trim(raw) != "";
    }
  }

  /** `POST /` lets a body through exactly when its trimmed title has 3 to
      100 characters and the optional fields are acceptable; what goes on
      is the sanitised body. A missing title is reported twice, as
      required and as too short, before anything else. */
  lemma CreateScreening(body: Body, isIso: string -> bool)
    ensures ValidateCreate(body, isIso).Passed? <==>
      "title" in body && TitleAcceptable(body["title"]) && OptionalFieldsAcceptable(body, isIso)
    ensures ValidateCreate(body, isIso).Passed? ==>
      ValidateCreate(body, isIso).body == Sanitised(body)
    ensures "title" !in body ==>
      && ValidateCreate(body, isIso).Refused?
      && |ValidateCreate(body, isIso).errors| >= 2
      && ValidateCreate(body, isIso).errors[..2] ==
         [FieldError("title", TitleRequired), FieldError("title", TitleLength)]
  {
    var r1 := RunChain(CreateTitleChain, body, isIso);
    CreateTitleRun(body, isIso);
    SharedChains(r1.0, isIso);
    TitleIsNotOptional(body, Trim(if "title" in body then body["title"] else ""), isIso);
    var rest := RunShared(r1.0, isIso);
    if "title" !in body {
      assert (r1.1 + rest.1)[..2] == r1.1;
    }
  }

  /** `PUT /:id` lets a body through exactly when a title, if sent, trims
      to 3 to 100 characters and the optional fields are acceptable. */
  lemma UpdateScreening(body: Body, isIso: string -> bool)
    ensures ValidateUpdate(body, isIso).Passed? <==>
      ("title" in body ==> TitleAcceptable(body["title"])) && OptionalFieldsAcceptable(body, isIso)
    ensures ValidateUpdate(body, isIso).Passed? ==>
      ValidateUpdate(body, isIso).body == Sanitised(body)
  {
    var r1 := RunChain(UpdateTitleChain, body, isIso);
    SharedChains(r1.0, isIso);
    if "title" in body {
      assert r1.0 == body["title" := Trim(body["title"])];
      TitleIsNotOptional(body, Trim(body["title"]), isIso);
      assert r1.1 == [] <==> TitleAcceptable(body["title"]);
      assert Trimmed(r1.0, "description") == Sanitised(body);
    }
  }

  /** The title and the description hold only characters on which the
      two length counts agree: none outside the Basic Multilingual Plane
      and no presentation selector. */
  predicate PlainFields(body: Body)
  {
    && ("title" in body ==> PlainText(body["title"]))
    && ("description" in body ==> PlainText(body["description"]))
  }

  /** The date cast reads the due date this request sends, if any. The
      route's ISO 8601 recogniser does not ensure it: it also accepts week
      and ordinal dates. */
  predicate DueDateReadable(body: Body, parseDate: string -> Option<int>)
  {
    "dueDate" in body && body["dueDate"] != "" ==> parseDate(body["dueDate"]).Some?
  }

  /** Sanitising trims the title and the description; every other field
      is as sent. */
  lemma SanitisedFields(body: Body)
    ensures forall k :: k !in {"title", "description"} ==> Lookup(Sanitised(body), k) == Lookup(body, k)
    ensures forall k :: k in {"title", "description"} ==>
      Lookup(Sanitised(body), k) == (if k in body then Some(Trim(body[k])) else None)
  {
  }

  /** On plain text the route's count and the schema's agree, so a trimmed
      title or description the route accepts is accepted by the schema,
      whose validators see the same, already trimmed, value. */
  lemma ScreenedTextIsAccepted(v: string)
    requires PlainText(v)
    ensures TitleAcceptable(v) ==> CheckTitle(Trim(v)).Accepted?
    ensures ValidatorLength(Trim(v)) <= 500 ==> CheckDescription(Trim(v)).Accepted?
  {
    TrimIdempotent(v);
    TrimKeepsPlain(v);
    PlainLengths(Trim(v));
  }

  /** The fields `createTask` passes to the schema from a screened body
      pass every path validator. */
  lemma ScreenedFieldsPass(body: Body, isIso: string -> bool, parseDate: string -> Option<int>)
    requires PlainFields(body) && DueDateReadable(body, parseDate)
    requires "title" in body && TitleAcceptable(body["title"]) && OptionalFieldsAcceptable(body, isIso)
    ensures var fields := CreateFields(Sanitised(body));
      && fields.title.Some? && CheckTitle(fields.title.value).Accepted?
      && (fields.description.Some? ==> CheckDescription(fields.description.value).Accepted?)
      && (fields.status.Some? ==> CheckStatus(fields.status.value).Accepted?)
      && (fields.priority.Some? ==> CheckPriority(fields.priority.value).Accepted?)
      && (fields.dueDate.Some? ==> CheckDueDate(fields.dueDate.value, parseDate).Accepted?)
  {
    SanitisedFields(body);
    var fields := CreateFields(Sanitised(body));
    ScreenedTextIsAccepted(body["title"]);
    assert fields.title == Some(Trim(body["title"]));
    if "description" in body {
      ScreenedTextIsAccepted(body["description"]);
      assert fields.description == Some(Trim(body["description"]));
    }
    if fields.status.Some? {
      assert fields.status.value == body["status"] && body["status"] in StatusNames;
    }
    if fields.priority.Some? {
      assert fields.priority.value == body["priority"] && body["priority"] in PriorityNames;
    }
    if fields.dueDate.Some? {
      assert fields.dueDate.value == body["dueDate"] != "";
    }
  }

  /** A body `POST /` lets through, whose text is plain and whose due date
      the cast reads, never fails the schema. */
  lemma ScreenedCreateIsStored(body: Body, isIso: string -> bool, parseDate: string -> Option<int>,
                               id: TaskId, owner: UserId, now: nat)
    requires PlainFields(body) && DueDateReadable(body, parseDate)
    requires ValidateCreate(body, isIso).Passed?
    ensures NewTask(CreateFields(ValidateCreate(body, isIso).body), id, owner, now, parseDate).Valid?
  {
    CreateScreening(body, isIso);
    ScreenedFieldsPass(body, isIso, parseDate);
  }

  /** The updates of a screened body pass every path validator they name. */
  lemma ScreenedUpdatesPass(body: Body, isIso: string -> bool, parseDate: string -> Option<int>)
    requires PlainFields(body) && DueDateReadable(body, parseDate)
    requires ("title" in body ==> TitleAcceptable(body["title"])) && OptionalFieldsAcceptable(body, isIso)
    ensures var updates := Whitelisted(Sanitised(body));
      && ("title" in updates ==> CheckTitle(updates["title"]).Accepted?)
      && ("description" in updates ==> CheckDescription(updates["description"]).Accepted?)
      && ("status" in updates ==> CheckStatus(updates["status"]).Accepted?)
      && ("priority" in updates ==> CheckPriority(updates["priority"]).Accepted?)
      && ("dueDate" in updates ==> CheckDueDate(updates["dueDate"], parseDate).Accepted?)
  {
    var s := Sanitised(body);
    SanitisedFields(body);
    var updates := Whitelisted(s);
    if "title" in body {
      ScreenedTextIsAccepted(body["title"]);
      assert Lookup(s, "title") == Some(Trim(body["title"]));
    }
    if "description" in body {
      ScreenedTextIsAccepted(body["description"]);
      assert Lookup(s, "description") == Some(Trim(body["description"]));
    }
    if "status" in updates {
      assert Lookup(s, "status") == Lookup(body, "status");
      assert updates["status"] == body["status"] && body["status"] in StatusNames;
    }
    if "priority" in updates {
      assert Lookup(s, "priority") == Lookup(body, "priority");
      assert updates["priority"] == body["priority"] && body["priority"] in PriorityNames;
    }
    if "dueDate" in updates {
      assert Lookup(s, "dueDate") == Lookup(body, "dueDate");
    }
  }

  /** A body `PUT /:id` lets through, whose text is plain and whose due
      date the cast reads, neither fails the date's cast nor the update
      validators. */
  lemma ScreenedUpdateIsApplied(t: Task, body: Body, isIso: string -> bool, parseDate: string -> Option<int>)
    requires PlainFields(body) && DueDateReadable(body, parseDate)
    requires ValidateUpdate(body, isIso).Passed?
    ensures !DueDateCastFails(Whitelisted(ValidateUpdate(body, isIso).body), parseDate)
    ensures UpdatedTask(t, Whitelisted(ValidateUpdate(body, isIso).body), parseDate).Valid?
  {
    UpdateScreening(body, isIso);
    ScreenedUpdatesPass(body, isIso, parseDate);
  }

  /** A run of 60 emoji: nothing to trim, 60 code points, 120 UTF-16 units. */
  lemma AstralTitleLengths(title: string)
    requires title == seq(60, _ => '\U{1F600}')
    ensures Trim(title) == title
    ensures ValidatorLength(title) == 60 && Utf16Length(title) == 120
  {
    RepeatedLengths('\U{1F600}', 60);
    assert !IsWhite(title[0]) && !IsWhite(title[59]);
    TrimOfTrimmed(title);
  }

  /** The two length counts disagree on text outside the Basic Multilingual
      Plane: a title of 60 emoji is 60 long for the route and 120 for the
      schema, so `POST /` lets it through and `Task.create` refuses it as
      too long. */
  lemma AstralTitleFailsSchema(isIso: string -> bool, parseDate: string -> Option<int>,
                               id: TaskId, owner: UserId, now: nat)
    ensures var body := map["title" := seq(60, _ => '\U{1F600}')];
      && ValidateCreate(body, isIso).Passed?
      && NewTask(CreateFields(ValidateCreate(body, isIso).body), id, owner, now, parseDate).Invalid?
  {
    var title := seq(60, _ => '\U{1F600}');
    var body := map["title" := title];
    AstralTitleLengths(title);
    assert OptionalFieldsAcceptable(body, isIso) by {
      assert "description" !in body && "status" !in body && "priority" !in body && "dueDate" !in body;
    }
    CreateScreening(body, isIso);
    assert Sanitised(body) == body;
    assert CheckTitle(title).Rejected?;
  }

  /** "ab" and U+FE0F: nothing to trim, 2 for the validator, 3 UTF-16 units. */
  lemma SelectorTitleLengths(title: string)
    requires title == "ab\U{FE0F}"
    ensures Trim(title) == title
    ensures ValidatorLength(title) == 2 && Utf16Length(title) == 3
  {
    var tail := title[1..];
    assert tail == "b\U{FE0F}" && tail[1..] == "\U{FE0F}" && tail[1..][1..] == [];
    assert ValidatorLength(tail[1..]) == 0 && Utf16Length(tail[1..]) == 1;
    assert ValidatorLength(tail) == 1 && Utf16Length(tail) == 2;
    assert !IsWhite(title[0]) && !IsWhite(title[2]);
    TrimOfTrimmed(title);
  }

  /** In the other direction, a presentation selector counts for the
      schema and not for the route: "ab" followed by U+FE0F is 3 long for
      `Task.create` and 2 for `POST /`, which refuses it as too short. */
  lemma SelectorTitleFailsRoute(isIso: string -> bool)
    ensures CheckTitle("ab\U{FE0F}").Accepted?
    ensures ValidateCreate(map["title" := "ab\U{FE0F}"], isIso).Refused?
  {
    SelectorTitleLengths("ab\U{FE0F}");
    CreateScreening(map["title" := "ab\U{FE0F}"], isIso);
  }

  // ----- dispatch -----

  datatype Verb = Get | Post | Put | Delete | OtherVerb(name: string)

  /** A registered path below the mount point: `/`, a literal segment such
      as `/stats`, or `/:id`, which takes any one non-empty segment. */
  datatype Pattern = Root | Literal(name: string) | IdParam

  datatype Endpoint = StatsEndpoint | ListEndpoint | ReadEndpoint | CreateEndpoint | UpdateEndpoint | DeleteEndpoint

  datatype Registration = Registration(verb: Verb, pattern: Pattern, endpoint: Endpoint)

  /** The registrations, in the order the router file makes them. */
  const Registrations: seq<Registration> := [
    Registration(Get, Literal("stats"), StatsEndpoint),
    Registration(Get, Root, ListEndpoint),
    Registration(Get, IdParam, ReadEndpoint),
    Registration(Post, Root, CreateEndpoint),
    Registration(Put, IdParam, UpdateEndpoint),
    Registration(Delete, IdParam, DeleteEndpoint)]

  /** Whether a pattern matches the path, given as its segments. */
  predicate PatternMatches(p: Pattern, segments: seq<string>)
  {
    match p
    case Root => segments == []
    case Literal(name) => segments == [name]
    case IdParam => |segments| == 1 && segments[0] != ""
  }

  predicate Answers(reg: Registration, verb: Verb, segments: seq<string>)
  {
    reg.verb == verb && PatternMatches(reg.pattern, segments)
  }

  /** The position of the first registration that answers the request, or
      `|regs|` when none does. */
  function FirstMatch(regs: seq<Registration>, verb: Verb, segments: seq<string>): (i: nat)
    ensures i <= |regs|
    ensures i < |regs| ==> Answers(regs[i], verb, segments)
    ensures forall j :: 0 <= j < i ==> !Answers(regs[j], verb, segments)
  {
    if regs == [] then 0
    else if Answers(regs[0], verb, segments) then 0
    else 1 + FirstMatch(regs[1..], verb, segments)
  }

  /** The endpoint a request reaches, with its `:id` when the path has one. */
  datatype Routed = Routed(endpoint: Endpoint, id: Option<string>)

  function Route(verb: Verb, segments: seq<string>): Option<Routed>
  {
    var i := FirstMatch(Registrations, verb, segments);
    if i == |Registrations| then None
    else Some(Routed(Registrations[i].endpoint,
                     if Registrations[i].pattern.IdParam? then Some(segments[0]) else None))
  }

  /** The first match is the one whose predecessors all fail to answer. */
  lemma FirstMatchAt(regs: seq<Registration>, verb: Verb, segments: seq<string>, i: nat)
    requires i < |regs| && Answers(regs[i], verb, segments)
    requires forall j :: 0 <= j < i ==> !Answers(regs[j], verb, segments)
    ensures FirstMatch(regs, verb, segments) == i
  {
  }

  /** The routes without an `:id`. */
  lemma FixedRoutes()
    ensures Route(Get, ["stats"]) == Some(Routed(StatsEndpoint, None))
    ensures Route(Get, []) == Some(Routed(ListEndpoint, None))
    ensures Route(Post, []) == Some(Routed(CreateEndpoint, None))
  {
    FirstMatchAt(Registrations, Get, ["stats"], 0);
    FirstMatchAt(Registrations, Get, [], 1);
    FirstMatchAt(Registrations, Post, [], 3);
  }

  /** The routes with an `:id`: any one non-empty segment is an id, except
      that `GET /stats` is taken by the statistics. */
  lemma IdRoutes(id: string)
    requires id != ""
    ensures id != "stats" ==> Route(Get, [id]) == Some(Routed(ReadEndpoint, Some(id)))
    ensures Route(Put, [id]) == Some(Routed(UpdateEndpoint, Some(id)))
    ensures Route(Delete, [id]) == Some(Routed(DeleteEndpoint, Some(id)))
  {
    if id != "stats" {
      FirstMatchAt(Registrations, Get, [id], 2);
    }
    FirstMatchAt(Registrations, Put, [id], 4);
    FirstMatchAt(Registrations, Delete, [id], 5);
  }

  /** The requests no registration answers, which leave the router. */
  lemma UnroutedRequests(verb: Verb, segments: seq<string>)
    ensures Route(verb, segments).None? <==>
      || verb.OtherVerb?
      || |segments| >= 2
      || (segments == [] && verb in {Put, Delete})
      || (|segments| == 1 && (segments[0] == "" || verb == Post))
  {
    var i := FirstMatch(Registrations, verb, segments);
    if i == |Registrations| {
      assert !Answers(Registrations[0], verb, segments);
      assert !Answers(Registrations[1], verb, segments);
      assert !Answers(Registrations[2], verb, segments);
      assert !Answers(Registrations[3], verb, segments);
      assert !Answers(Registrations[4], verb, segments);
      assert !Answers(Registrations[5], verb, segments);
    } else {
      assert Answers(Registrations[i], verb, segments);
    }
  }

  /** Because `/stats` is registered before `/:id`, reading a task with the
      id "stats" is impossible: that request gets the statistics. */
  lemma StatsIsNeverAnId(verb: Verb, segments: seq<string>)
    ensures Route(verb, segments) != Some(Routed(ReadEndpoint, Some("stats")))
  {
    if Route(verb, segments) == Some(Routed(ReadEndpoint, Some("stats"))) {
      var i := FirstMatch(Registrations, verb, segments);
      assert Registrations[i].endpoint == ReadEndpoint;
      assert i == 2;
      assert segments == ["stats"];
      assert Answers(Registrations[0], verb, segments);
    }
  }

  // ----- the request pipeline -----

  /** How the request ends: `protect`'s 401, `validate`'s 400, a response
      the handler sends itself, the error handler's response to `error`
      (`origin` is `None` when `protect` passed the error on), or no match,
      which leaves the router for the application's 404. */
  datatype Response =
    | Unauthenticated(message: string)
    | ValidationFailed(errors: seq<FieldError>)
    | Answered(endpoint: Endpoint, reply: Reply)
    | ErrorPage(origin: Option<Endpoint>, error: ErrorHandler.AppError, page: ErrorHandler.ErrorResponse)
    | Unrouted

  function ResponseStatus(r: Response): (status: int)
    requires !r.Unrouted?
    requires r.Answered? ==> !r.reply.Failed?
    ensures r.Unauthenticated? ==> status == 401
    ensures r.ValidationFailed? ==> status == 400
    ensures r.Answered? ==> status == ReplyStatus(r.reply)
    ensures r.ErrorPage? ==> status == r.page.status
  {
    match r
    case Unauthenticated(_) => AuthGate.RejectStatus
    case ValidationFailed(_) => 400
    case Answered(_, reply) => ReplyStatus(reply)
    case ErrorPage(_, _, page) => page.status
  }

  /** What the handler decided, whether it answered itself or passed an
      error to the error handler. */
  function ReplyOf(r: Response): Reply
    requires r.Answered? || r.ErrorPage?
  {
    if r.Answered? then r.reply else Failed(r.error)
  }

  /** The validation a route runs before its handler: the create and the
      update routes screen the body, the others let it through as sent. */
  function Screen(e: Endpoint, body: Body, isIso: string -> bool): Screening
  {
    match e
    case CreateEndpoint => ValidateCreate(body, isIso)
    case UpdateEndpoint => ValidateUpdate(body, isIso)
    case _ => Passed(body)
  }

  /** The `:id` a routed request carries, '' for the routes without one. */
  function RoutedId(r: Routed): string
  {
    if r.id.Some? then r.id.value else ""
  }

  /** What the handler of `endpoint` answers and how it leaves the store
      (`tasks`, `nextId` before, `tasks'`, `nextId'` after); the read-only
      handlers leave it as it was. */
  ghost predicate Handled(endpoint: Endpoint, user: User, id: string, body: Body, query: ListQuery, now: nat,
                          castId: string -> Option<TaskId>, parseDate: string -> Option<int>,
                          tasks: map<TaskId, Task>, nextId: TaskId,
                          tasks': map<TaskId, Task>, nextId': TaskId, reply: Reply)
  {
    match endpoint
    case StatsEndpoint => tasks' == tasks && nextId' == nextId && StatsAnswer(user, tasks, nextId, reply)
    case ListEndpoint => tasks' == tasks && nextId' == nextId && ListAnswer(user, query, tasks, nextId, reply)
    case ReadEndpoint => tasks' == tasks && nextId' == nextId && ReadAnswer(user, id, castId, tasks, reply)
    case CreateEndpoint => CreateAnswer(user, body, now, parseDate, tasks, nextId, tasks', nextId', reply)
    case UpdateEndpoint => UpdateAnswer(user, id, body, castId, parseDate, tasks, nextId, tasks', nextId', reply)
    case DeleteEndpoint => DeleteAnswer(user, id, castId, tasks, nextId, tasks', nextId', reply)
  }

  /** The create handler's answer is what `Handled` asks of `POST /`. */
  lemma CreateIsHandled(user: User, body: Body, query: ListQuery, now: nat,
                        castId: string -> Option<TaskId>, parseDate: string -> Option<int>,
                        tasks: map<TaskId, Task>, nextId: TaskId,
                        tasks': map<TaskId, Task>, nextId': TaskId, reply: Reply)
    requires CreateAnswer(user, body, now, parseDate, tasks, nextId, tasks', nextId', reply)
    ensures Handled(CreateEndpoint, user, "", body, query, now, castId, parseDate, tasks, nextId, tasks', nextId', reply)
  {
  }

  /** Another user's `DELETE /:id` of a stored task is a 403, and the task
      stays. */
  lemma ForeignDeleteIsRefused(user: User, id: string, body: Body, query: ListQuery, now: nat,
                               castId: string -> Option<TaskId>, parseDate: string -> Option<int>,
                               tasks: map<TaskId, Task>, nextId: TaskId,
                               tasks': map<TaskId, Task>, nextId': TaskId, reply: Reply)
    requires Handled(DeleteEndpoint, user, id, body, query, now, castId, parseDate, tasks, nextId, tasks', nextId', reply)
    requires castId(id).Some? && castId(id).value in tasks
    requires user.role != AdminRole && tasks[castId(id).value].createdBy != user.id
    ensures reply == Forbidden(DeleteForbiddenMessage) && tasks' == tasks
  {
  }

  /** An owner's `PUT /:id` whose updates pass leaves every other task as
      it was and keeps the task's owner, identifier and creation time. */
  lemma OwnUpdateTouchesOnlyTarget(user: User, id: string, body: Body, query: ListQuery, now: nat,
                                   castId: string -> Option<TaskId>, parseDate: string -> Option<int>,
                                   tasks: map<TaskId, Task>, nextId: TaskId,
                                   tasks': map<TaskId, Task>, nextId': TaskId, reply: Reply, other: TaskId)
    requires Handled(UpdateEndpoint, user, id, body, query, now, castId, parseDate, tasks, nextId, tasks', nextId', reply)
    requires forall j :: j in tasks ==> tasks[j].id == j
    requires reply.Updated?
    requires other in tasks && Some(other) != castId(id)
    ensures castId(id).Some? && castId(id).value in tasks'
    ensures other in tasks' && tasks'[other] == tasks[other]
    ensures reply.task.createdBy == tasks[castId(id).value].createdBy
    ensures reply.task.id == castId(id).value && reply.task.createdAt == tasks[castId(id).value].createdAt
  {
    var k := castId(id).value;
    assert CheckAccess(user, tasks, k).Granted?;
    var updates := Whitelisted(body);
    assert !DueDateCastFails(updates, parseDate);
    assert UpdatedTask(tasks[k], updates, parseDate).Valid?;
  }

  /** The handler an endpoint names, called with the authenticated user. */
  method Invoke(store: TaskStore, endpoint: Endpoint, user: User, id: string, body: Body, query: ListQuery,
                now: nat, castId: string -> Option<TaskId>, parseDate: string -> Option<int>)
    returns (reply: Reply)
    requires store.Valid()
    modifies store
    ensures store.Valid()
    ensures Handled(endpoint, user, id, body, query, now, castId, parseDate,
                    old(store.tasks), old(store.nextId), store.tasks, store.nextId, reply)
    ensures endpoint in {StatsEndpoint, ListEndpoint, ReadEndpoint} ==>
      store.tasks == old(store.tasks) && store.nextId == old(store.nextId)
    ensures endpoint == CreateEndpoint && NewTask(CreateFields(body), old(store.nextId), user.id, now, parseDate).Valid? ==>
      reply.Created? && reply.task.createdBy == user.id
  {
    match endpoint {
      case StatsEndpoint => reply := store.GetTaskStats(user);
      case ListEndpoint => reply := store.GetTasks(user, query);
      case ReadEndpoint => reply := store.GetTask(user, id, castId);
      case CreateEndpoint => reply := store.CreateTask(user, body, now, parseDate);
      case UpdateEndpoint => reply := store.UpdateTask(user, id, body, castId, parseDate);
      case DeleteEndpoint => reply := store.DeleteTask(user, id, castId);
    }
  }

  /** The handler of a matched and screened request, with the error
      handler behind it for a failure the handler passes on. */
  method Handle(user: User, endpoint: Endpoint, id: string, body: Body, query: ListQuery,
                store: TaskStore, now: nat, castId: string -> Option<TaskId>,
                parseDate: string -> Option<int>, development: bool)
    returns (response: Response)
    requires store.Valid()
    modifies store
    ensures store.Valid()
    ensures response.Answered? || response.ErrorPage?
    ensures Handled(endpoint, user, id, body, query, now, castId, parseDate,
                    old(store.tasks), old(store.nextId), store.tasks, store.nextId, ReplyOf(response))
    ensures response.Answered? ==> response.endpoint == endpoint && !response.reply.Failed?
    ensures response.ErrorPage? ==>
      response.origin == Some(endpoint) && response.page == ErrorHandler.ResponseFor(response.error, development)
    ensures endpoint == CreateEndpoint && NewTask(CreateFields(body), old(store.nextId), user.id, now, parseDate).Valid? ==>
      response.Answered? && response.reply.Created? && response.reply.task.createdBy == user.id
  {
    var reply := Invoke(store, endpoint, user, id, body, query, now, castId, parseDate);
    if reply.Failed? {
      var page := ErrorHandler.HandleError(reply.error, development);
      return ErrorPage(Some(endpoint), reply.error, page);
    }
    response := Answered(endpoint, reply);
  }

  /** `createTask` on a screened body, with the error handler behind it
      for a failure it passes on. */
  method Create(user: User, body: Body, store: TaskStore, now: nat,
                parseDate: string -> Option<int>, development: bool)
    returns (response: Response)
    requires store.Valid()
    modifies store
    ensures store.Valid()
    ensures || (response.Answered? && response.endpoint == CreateEndpoint && !response.reply.Failed?)
            || (response.ErrorPage? && response.origin == Some(CreateEndpoint))
    ensures CreateAnswer(user, body, now, parseDate, old(store.tasks), old(store.nextId),
                         store.tasks, store.nextId, ReplyOf(response))
    ensures response.ErrorPage? ==> response.page == ErrorHandler.ResponseFor(response.error, development)
  {
    var reply := store.CreateTask(user, body, now, parseDate);
    if reply.Failed? {
      var page := ErrorHandler.HandleError(reply.error, development);
      return ErrorPage(Some(CreateEndpoint), reply.error, page);
    }
    response := Answered(CreateEndpoint, reply);
  }

  /** `POST /` after `protect`: the chains and `validate`, then
      `createTask`; a body the route lets through, whose text is plain and
      whose due date the cast reads, is always stored. */
  method CreateRoute(user: User, body: Body, store: TaskStore, now: nat,
                     parseDate: string -> Option<int>, isIso: string -> bool, development: bool)
    returns (response: Response)
    requires store.Valid()
    modifies store
    ensures store.Valid()
    ensures ValidateCreate(body, isIso).Refused? ==>
      && response == ValidationFailed(ValidateCreate(body, isIso).errors)
      && store.tasks == old(store.tasks) && store.nextId == old(store.nextId)
    ensures ValidateCreate(body, isIso).Passed? ==>
      && ((response.Answered? && response.endpoint == CreateEndpoint) || response.ErrorPage?)
      && CreateAnswer(user, ValidateCreate(body, isIso).body, now, parseDate,
                      old(store.tasks), old(store.nextId), store.tasks, store.nextId, ReplyOf(response))
    ensures response.ErrorPage? ==> response.page == ErrorHandler.ResponseFor(response.error, development)
    ensures PlainFields(body) && DueDateReadable(body, parseDate) && ValidateCreate(body, isIso).Passed? ==>
      response.Answered? && response.reply.Created? && response.reply.task.createdBy == user.id
  {
    var screening := ValidateCreate(body, isIso);
    if screening.Refused? {
      return ValidationFailed(screening.errors);
    }
    if PlainFields(body) && DueDateReadable(body, parseDate) {
      ScreenedCreateIsStored(body, isIso, parseDate, store.nextId, user.id, now);
    }
    response := Create(user, screening.body, store, now, parseDate, development);
  }

  /** The chain behind `protect` for an authenticated user: the first
      matching route, its validation chains and the handler. */
  method Dispatch(user: User, verb: Verb, segments: seq<string>, body: Body, query: ListQuery,
                  store: TaskStore, now: nat, castId: string -> Option<TaskId>,
                  parseDate: string -> Option<int>, isIso: string -> bool, development: bool)
    returns (response: Response)
    requires store.Valid()
    modifies store
    ensures store.Valid()
    ensures !response.Unauthenticated?
    ensures response.Unrouted? <==> Route(verb, segments).None?
    ensures response.Answered? ==>
      Route(verb, segments).Some? && response.endpoint == Route(verb, segments).value.endpoint
    ensures response.ValidationFailed? <==>
      Route(verb, segments).Some? && Screen(Route(verb, segments).value.endpoint, body, isIso).Refused?
    ensures response.ValidationFailed? ==>
      response.errors == Screen(Route(verb, segments).value.endpoint, body, isIso).errors
    ensures !(response.Answered? || response.ErrorPage?) ==>
      store.tasks == old(store.tasks) && store.nextId == old(store.nextId)
    ensures response.Answered? || response.ErrorPage? ==>
      var routed := Route(verb, segments).value;
      Handled(routed.endpoint, user, RoutedId(routed), Screen(routed.endpoint, body, isIso).body, query, now,
              castId, parseDate, old(store.tasks), old(store.nextId), store.tasks, store.nextId, ReplyOf(response))
    ensures response.ErrorPage? ==> response.page == ErrorHandler.ResponseFor(response.error, development)
    ensures && PlainFields(body) && DueDateReadable(body, parseDate)
      && Route(verb, segments) == Some(Routed(CreateEndpoint, None))
      && ValidateCreate(body, isIso).Passed?
      ==> response.Answered? && response.reply.Created? && response.reply.task.createdBy == user.id
  {
    var routed := Route(verb, segments);
    if routed.None? {
      return Unrouted;
    }
    var endpoint := routed.value.endpoint;
    if endpoint == CreateEndpoint {
      assert routed.value.id.None?;
      response := CreateRoute(user, body, store, now, parseDate, isIso, development);
      if ValidateCreate(body, isIso).Passed? {
        CreateIsHandled(user, ValidateCreate(body, isIso).body, query, now, castId, parseDate, old(store.tasks), old(store.nextId),
                        store.tasks, store.nextId, ReplyOf(response));
      }
      return;
    }
    var screening := Screen(endpoint, body, isIso);
    if screening.Refused? {
      return ValidationFailed(screening.errors);
    }
    response := Handle(user, endpoint, RoutedId(routed.value), screening.body, query, store, now, castId,
                       parseDate, development);
  }

  /** A request to the task router: `protect` first, for every path, then
      the rest of the chain with the user it attached. The clock, the id
      cast, the date cast, the date recogniser and token verification are
      parameters. */
  method Serve(req: AuthGate.Request, verb: Verb, segments: seq<string>, body: Body, query: ListQuery,
               verify: string -> AuthGate.VerifyResult, users: map<UserId, User>, store: TaskStore,
               now: nat, castId: string -> Option<TaskId>, parseDate: string -> Option<int>,
               isIso: string -> bool, development: bool)
    returns (response: Response)
    requires store.Valid()
    modifies req, store
    ensures store.Valid()
    ensures var gate := AuthGate.Authenticate(req.authorization, verify, users);
      && (gate.Reject? <==> response.Unauthenticated?)
      && (gate.Reject? ==> response == Unauthenticated(gate.message))
      && (gate.PassOn? ==> response.ErrorPage? && response.origin.None? && response.error == gate.error)
      && (gate.Next? ==> req.user == Some(gate.user))
      && (!gate.Next? ==> req.user == old(req.user))
      && (response.Unrouted? <==> gate.Next? && Route(verb, segments).None?)
      && (response.Answered? ==> gate.Next? && Route(verb, segments).Some?
                                 && response.endpoint == Route(verb, segments).value.endpoint)
    ensures var gate := AuthGate.Authenticate(req.authorization, verify, users);
      response.ValidationFailed? <==>
        && gate.Next? && Route(verb, segments).Some?
        && Screen(Route(verb, segments).value.endpoint, body, isIso).Refused?
    ensures response.ValidationFailed? ==>
      response.errors == Screen(Route(verb, segments).value.endpoint, body, isIso).errors
    ensures !(response.Answered? || response.ErrorPage?) ==>
      store.tasks == old(store.tasks) && store.nextId == old(store.nextId)
    ensures !AuthGate.Authenticate(req.authorization, verify, users).Next? ==>
      store.tasks == old(store.tasks) && store.nextId == old(store.nextId)
    ensures response.ErrorPage? ==> response.page == ErrorHandler.ResponseFor(response.error, development)
    ensures var gate := AuthGate.Authenticate(req.authorization, verify, users);
      (response.Answered? || response.ErrorPage?) && gate.Next? ==>
        var routed := Route(verb, segments).value;
        Handled(routed.endpoint, gate.user, RoutedId(routed), Screen(routed.endpoint, body, isIso).body, query, now,
                castId, parseDate, old(store.tasks), old(store.nextId), store.tasks, store.nextId, ReplyOf(response))
    ensures var gate := AuthGate.Authenticate(req.authorization, verify, users);
      && PlainFields(body) && DueDateReadable(body, parseDate) && gate.Next?
      && Route(verb, segments) == Some(Routed(CreateEndpoint, None))
      && ValidateCreate(body, isIso).Passed?
      ==> response.Answered? && response.reply.Created? && response.reply.task.createdBy == gate.user.id
  {
    var gate := AuthGate.Protect(req, verify, users);
    if gate.Reject? {
      return Unauthenticated(gate.message);
    }
    if gate.PassOn? {
      var page := ErrorHandler.HandleError(gate.error, development);
      return ErrorPage(None, gate.error, page);
    }
    response := Dispatch(gate.user, verb, segments, body, query, store, now, castId, parseDate,
                         isIso, development);
  }
}
