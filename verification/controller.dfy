/** The candidate controller: login against the HR directory with look-before-insert
    provisioning into the `test_results` table, and the two read-side lookups of that table. */
module Controller {
  import opened Wrappers
  import opened Http
  import opened Text
  import opened Table

  // ---------------------------------------------------------------------------
  // The `test_results` table
  // ---------------------------------------------------------------------------

  /** The `status` column. Login only ever writes "Logged In"; the other two values are
      written by the provisioning and submission code outside this model, and the lookups
      and the existing-row path of login return such rows unchanged. */
  datatype Status = NotStarted | LoggedIn | Completed

  /** The columns of a `test_results` row that login writes; `createdAt` is the
      insertion time as an integer timestamp. */
  datatype Record = Record(candidateId: string, email: string, name: string, status: Status, createdAt: int)

  /** The `test_results` table, rows in storage order. */
  type Store = seq<Record>

  function CandidateKey(row: Record): string {
    row.candidateId
  }

  /** `select("*").eq("candidate_id", id)` on `test_results`. */
  function RowsFor(store: Store, id: string): (rows: seq<Record>)
    ensures forall row :: row in rows <==> row in store && row.candidateId == id
  {
    Where(store, CandidateKey, id)
  }

  // ---------------------------------------------------------------------------
  // The HR directory's answer
  // ---------------------------------------------------------------------------

  /** One element of `filteredResumes`: a JSON object with string values. */
  datatype Resume = Resume(fields: map<string, string>) {
    /** `candidate_info.get(key)` */
    function Get(key: string): (v: Option<string>)
      ensures v.Some? <==> key in fields
      ensures v.Some? ==> v.value == fields[key]
    {
      if key in fields then Some(fields[key]) else None
    }
  }

  /** The JSON body of a 200 answer; `filteredResumes` is `None` when the key is absent. */
  datatype Body = Body(filteredResumes: Option<seq<Resume>>)

  /** What the POST to the HR directory produced: a transport failure, or a status and a body
      (the body is only read when the status is 200). */
  datatype Reply = Unreachable | Replied(status: int, body: Body)

  /** `mapped_candidate_data`: the directory's field names mapped to ours. */
  datatype Mapped = Mapped(email: Option<string>, candidateId: Option<string>, name: string)

  /** The mapping rule: `email := email`, `candidate_id := _id`, and `name := name`,
      with "Unknown" only when the `name` key is absent. */
  function MapResume(c: Resume): (m: Mapped)
    ensures m.candidateId.Some? <==> "_id" in c.fields
    ensures m.email.Some? <==> "email" in c.fields
    ensures "_id" in c.fields ==> m.candidateId.value == c.fields["_id"]
    ensures "email" in c.fields ==> m.email.value == c.fields["email"]
    ensures "name" in c.fields ==> m.name == c.fields["name"]
    ensures "name" !in c.fields ==> m.name == "Unknown"
  {
    Mapped(c.Get("email"), c.Get("_id"), c.Get("name").GetOr("Unknown"))
  }

  /** Python truthiness of an optional string: present and non-empty. */
  predicate Truthy(v: Option<string>) {
    v.Some? && v.value != []
  }

  // ---------------------------------------------------------------------------
  // Login
  // ---------------------------------------------------------------------------

  /** `CandidateLoginResponse`: the mapped upstream data, not the stored row. */
  datatype LoginResponse = LoginResponse(email: string, candidateId: string, name: string, message: string)

  /** The externally visible steps login takes, in order. */
  datatype Effect =
    | PostLookup(email: string)       // POST {"email": ...} to the HR directory
    | SelectRows(candidateId: string) // select from test_results by candidate_id
    | InsertRow(row: Record)          // insert into test_results

  datatype LoginResult = LoginResult(outcome: Outcome<LoginResponse>, store: Store, effects: seq<Effect>)

  const InitialStatus: Status := LoggedIn
  const LoginMessage: string := "Login successful"

  /** The request's email is rejected as empty: `not email or email.strip() == ""`. */
  predicate EmailRejected(email: string)
    ensures EmailRejected(email) <==> IsBlank(email)
  {
    email == [] || Strip(email) == []
  }

  /** The candidate identity a usable directory answer yields: `email` and `candidate_id`
      are non-empty; `name` is whatever the mapping gave. */
  datatype Identity = Identity(email: string, candidateId: string, name: string)

  /** The upstream half of login, in the source's order: transport failure, non-200 status,
      missing `filteredResumes`, empty `filteredResumes`, missing essential fields. */
  function Identify(reply: Reply): (r: Outcome<Identity>)
    ensures r.Ok? ==> r.value.email != [] && r.value.candidateId != []
    ensures r.Ok? <==> reply.Replied? && reply.status == 200 && reply.body.filteredResumes.Some?
                       && reply.body.filteredResumes.value != []
                       && Truthy(MapResume(reply.body.filteredResumes.value[0]).email)
                       && Truthy(MapResume(reply.body.filteredResumes.value[0]).candidateId)
    ensures reply.Replied? && reply.status != 200 ==> r == Err(HttpError(reply.status, UpstreamRejected))
    ensures r.Err? ==> r.error.reason in {UpstreamUnreachable, UpstreamRejected, MissingFilteredResumes,
                                          NoCandidateFound, MissingEssentialFields}
  {
    match reply
    case Unreachable => Fail(UpstreamUnreachable)
    case Replied(status, body) =>
      if status != 200 then
        Err(HttpError(status, UpstreamRejected))
      else if body.filteredResumes.None? then
        Fail(MissingFilteredResumes)
      else if body.filteredResumes.value == [] then
        Fail(NoCandidateFound)
      else
        var m := MapResume(body.filteredResumes.value[0]);
        if !Truthy(m.email) || !Truthy(m.candidateId) then
          Fail(MissingEssentialFields)
        else
          Ok(Identity(m.email.value, m.candidateId.value, m.name))
  }

  /** The row login inserts for a candidate it has not seen. */
  function NewRow(who: Identity, now: int): (row: Record)
    ensures row.status == InitialStatus && row.createdAt == now
    ensures row.candidateId == who.candidateId && row.email == who.email && row.name == who.name
  {
    Record(who.candidateId, who.email, who.name, InitialStatus, now)
  }

  /** The store half of login: look the candidate up, insert a fresh row only when none exists.
      `insertOk` is whether the insert returned a row; a failed insert leaves the table as it was. */
  function Provision(who: Identity, store: Store, insertOk: bool, now: int): (r: LoginResult)
    ensures |r.effects| > 0 && r.effects[0] == SelectRows(who.candidateId)
    ensures r.outcome.Err? ==> r.store == store && r.outcome.error == HttpError(500, StoreFailed)
    ensures r.outcome.Ok? ==> r.outcome.value == LoginResponse(who.email, who.candidateId, who.name, LoginMessage)
    ensures RowsFor(store, who.candidateId) != [] ==> r.store == store && r.outcome.Ok?
    ensures RowsFor(store, who.candidateId) == [] && r.outcome.Ok? ==> r.store == store + [NewRow(who, now)]
    ensures r.outcome.Ok? ==> RowsFor(r.store, who.candidateId) != []
    ensures KeysUnique(store, CandidateKey) ==> KeysUnique(r.store, CandidateKey)
  {
    var id := who.candidateId;
    var looked := [SelectRows(id)];
    var response := LoginResponse(who.email, id, who.name, LoginMessage);
    if RowsFor(store, id) == [] then
      var row := NewRow(who, now);
      if insertOk then
        AppendFreshKeepsUnique(store, row, CandidateKey);
        assert row in RowsFor(store + [row], id);
        LoginResult(Ok(response), store + [row], looked + [InsertRow(row)])
      else
        LoginResult(Fail(StoreFailed), store, looked + [InsertRow(row)])
    else
      LoginResult(Ok(response), store, looked)
  }

  /** `candidate_login`. The upstream answer, whether the insert returned a row, and the
      clock are parameters. */
  function Login(email: string, reply: Reply, store: Store, insertOk: bool, now: int): (r: LoginResult)
    // only a first login changes the table, and then by appending one "Logged In" row
    ensures r.outcome.Err? ==> r.store == store
    ensures r.store == store || (|r.store| == |store| + 1 && r.store[..|store|] == store)
    ensures r.store != store ==> r.store[|store|].status == InitialStatus && r.store[|store|].createdAt == now
    // never a duplicate row
    ensures KeysUnique(store, CandidateKey) ==> KeysUnique(r.store, CandidateKey)
    // after a successful login the candidate has a row
    ensures r.outcome.Ok? ==> RowsFor(r.store, r.outcome.value.candidateId) != []
  {
    if EmailRejected(email) then
      LoginResult(Fail(EmptyEmail), store, [])
    else
      var call := [PostLookup(email)];
      match Identify(reply)
      case Err(e) => LoginResult(Err(e), store, call)
      case Ok(who) =>
        var p := Provision(who, store, insertOk, now);
        LoginResult(p.outcome, p.store, call + p.effects)
  }

  // ---------------------------------------------------------------------------
  // Read-side lookups
  // ---------------------------------------------------------------------------

  /** Row `i` is the first row of the table that belongs to candidate `id`. */
  predicate IsFirstRowFor(store: Store, id: string, i: int) {
    && 0 <= i < |store|
    && store[i].candidateId == id
    && forall j :: 0 <= j < i ==> store[j].candidateId != id
  }

  /** The shared body of the two lookups: `result.data[0]`, or the 404 named by `missing`. */
  function FirstRow(store: Store, id: string, missing: Reason): (r: Outcome<Record>)
    requires missing == CandidateNotFound || missing == NoTestResults
    ensures r.Ok? <==> exists i :: 0 <= i < |store| && store[i].candidateId == id
    ensures r.Ok? ==> exists i :: IsFirstRowFor(store, id, i) && r.value == store[i]
    ensures r.Err? ==> r.error == HttpError(404, missing)
  {
    var rows := RowsFor(store, id);
    WhereHeadIsFirstMatch(store, CandidateKey, id);
    if rows == [] then
      Fail(missing)
    else
      assert IsFirstRowFor(store, id, FirstMatch(store, CandidateKey, id));
      Ok(rows[0])
  }

  /** `get_candidate_details`: the first `test_results` row for the candidate, or 404. */
  function CandidateDetails(store: Store, id: string): (r: Outcome<Record>)
    ensures r.Ok? <==> exists i :: 0 <= i < |store| && store[i].candidateId == id
    ensures r.Ok? ==> exists i :: IsFirstRowFor(store, id, i) && r.value == store[i]
    ensures r.Err? ==> r.error == HttpError(404, CandidateNotFound)
  {
    FirstRow(store, id, CandidateNotFound)
  }

  /** `get_candidate_test_results`: the same lookup, with its own 404. */
  function CandidateTestResults(store: Store, id: string): (r: Outcome<Record>)
    ensures r.Ok? <==> exists i :: 0 <= i < |store| && store[i].candidateId == id
    ensures r.Ok? ==> exists i :: IsFirstRowFor(store, id, i) && r.value == store[i]
    ensures r.Err? ==> r.error == HttpError(404, NoTestResults)
  {
    FirstRow(store, id, NoTestResults)
  }

  // ---------------------------------------------------------------------------
  // The debug endpoint's mapping
  // ---------------------------------------------------------------------------

  /** `mapped_candidate_data` of `debug_external_api`: present only for a 200 answer whose
      `filteredResumes` is present and non-empty. */
  function DebugMappedData(reply: Reply): (m: Option<Mapped>)
    ensures m.Some? <==> reply.Replied? && reply.status == 200
                         && reply.body.filteredResumes.Some? && reply.body.filteredResumes.value != []
    ensures m.Some? ==> m.value == MapResume(reply.body.filteredResumes.value[0])
  {
    match reply
    case Unreachable => None
    case Replied(status, body) =>
      if status == 200 && body.filteredResumes.Some? && body.filteredResumes.value != [] then
        Some(MapResume(body.filteredResumes.value[0]))
      else
        None
  }
}
