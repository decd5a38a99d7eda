/** The test delivery route: look up a question set, gate it on its expiry time, and hand out
    its questions without their answers. */
module TestRoutes {
  import opened Wrappers
  import opened Http
  import opened Table

  /** A column of a fetched row: key missing, present as JSON null, or carrying a value. */
  datatype Field<+T> = Absent | Null | Present(value: T)

  /** A `question_sets` row. `expiresAt` is `test_info.get("expires_at")`, which is `None`
      both when the key is missing and when it is null. */
  datatype QuestionSet = QuestionSet(id: string, expiresAt: Option<string>, duration: Field<int>)

  /** A `questions` row. */
  datatype Question = Question(questionSetId: string, question: string, options: Option<seq<string>>, answer: Option<string>)

  /** A question as `select("question, options")` returns it: no answer. */
  datatype QuestionView = QuestionView(question: string, options: Option<seq<string>>)

  /** The success body `{questions, duration, test_id}`; `duration` is `None` when the row
      holds a null duration. */
  datatype TestPayload = TestPayload(questions: seq<QuestionView>, duration: Option<int>, testId: string)

  /** Minutes allowed when a set carries no `duration` key. */
  const DefaultDuration: int := 20

  function SetKey(s: QuestionSet): string {
    s.id
  }

  function QuestionSetKey(q: Question): string {
    q.questionSetId
  }

  /** `test_info.get("duration", 20)`: the default applies only when the key is missing. */
  function DurationOf(s: QuestionSet): (d: Option<int>)
    ensures s.duration.Absent? ==> d == Some(DefaultDuration)
    ensures s.duration.Null? ==> d == None
    ensures s.duration.Present? ==> d == Some(s.duration.value)
  {
    match s.duration
    case Absent => Some(DefaultDuration)
    case Null => None
    case Present(v) => Some(v)
  }

  function View(q: Question): QuestionView {
    QuestionView(q.question, q.options)
  }

  /** The `questions` rows of one set, as the route's select returns them. */
  function QuestionsOf(questions: seq<Question>, id: string): (vs: seq<QuestionView>)
    ensures |vs| == |Where(questions, QuestionSetKey, id)|
    ensures forall i :: 0 <= i < |vs| ==> vs[i] == View(Where(questions, QuestionSetKey, id)[i])
  {
    var rows := Where(questions, QuestionSetKey, id);
    seq(|rows|, i requires 0 <= i < |rows| => View(rows[i]))
  }

  /** `if expires_at:` — only a present, non-empty `expires_at` is parsed and compared. */
  predicate HasExpiry(s: QuestionSet) {
    s.expiresAt.Some? && s.expiresAt.value != []
  }

  /** The expiry gate of one set: `None` when it may be served, else the error it raises.
      `parse` stands for the ISO-8601 parsing, `now` for the current UTC time. */
  function ExpiryError(s: QuestionSet, parse: string -> Option<int>, now: int): (e: Option<HttpError>)
    ensures !HasExpiry(s) ==> e == None
    ensures HasExpiry(s) && parse(s.expiresAt.value).None? ==> e == Some(HttpError(500, InvalidExpiry))
    ensures HasExpiry(s) && parse(s.expiresAt.value).Some? ==>
              (e == Some(HttpError(410, TestExpired)) <==> now > parse(s.expiresAt.value).value)
    ensures HasExpiry(s) && parse(s.expiresAt.value).Some? ==>
              (e == None <==> now <= parse(s.expiresAt.value).value)
  {
    if !HasExpiry(s) then None
    else match parse(s.expiresAt.value)
      case None => Some(HttpError(500, InvalidExpiry))
      case Some(t) => if now > t then Some(HttpError(410, TestExpired)) else None
  }

  /** `fetch_test`: 404 for an unknown set, then the expiry gate (500 or 410), then 404 when the
      set has no questions, else the questions, the duration and the requested id. */
  function FetchTest(id: string, sets: seq<QuestionSet>, questions: seq<Question>,
                     parse: string -> Option<int>, now: int): (r: Outcome<TestPayload>)
    ensures r.Ok? ==> r.value.testId == id
    ensures r.Ok? ==> Where(sets, SetKey, id) != [] && ExpiryError(Where(sets, SetKey, id)[0], parse, now).None?
    ensures r.Ok? ==> r.value.duration == DurationOf(Where(sets, SetKey, id)[0])
    ensures r.Ok? ==> r.value.questions == QuestionsOf(questions, id) && r.value.questions != []
    ensures Where(sets, SetKey, id) != [] && ExpiryError(Where(sets, SetKey, id)[0], parse, now).None?
            && QuestionsOf(questions, id) != []
            ==> r == Ok(TestPayload(QuestionsOf(questions, id), DurationOf(Where(sets, SetKey, id)[0]), id))
    ensures r.Err? ==> r.error.reason in {TestNotFound, InvalidExpiry, TestExpired, NoQuestions}
    ensures r.Err? ==> r.error.status == StatusOf(r.error.reason)
  {
    var found := Where(sets, SetKey, id);
    if found == [] then
      Fail(TestNotFound)
    else
      var info := found[0];
      match ExpiryError(info, parse, now)
      case Some(e) => Err(e)
      case None =>
        var served := QuestionsOf(questions, id);
        if served == [] then Fail(NoQuestions)
        else Ok(TestPayload(served, DurationOf(info), id))
  }
}
