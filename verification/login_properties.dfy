/** Properties of candidate login and the read-side lookups, each relating a call to its inputs
    or several calls to each other. */
module LoginProperties {
  import opened Wrappers
  import opened Http
  import opened Text
  import opened Table
  import opened Controller

  /** The name the mapping gives a resume: its `name`, or "Unknown" when the key is absent. */
  function NameOf(c: Resume): string {
    if "name" in c.fields then c.fields["name"] else "Unknown"
  }

  /** The directory's answer for a 200 status whose `filteredResumes` lists `resumes`. */
  function Found(resumes: seq<Resume>): Reply {
    Replied(200, Body(Some(resumes)))
  }

  /** The identity login takes from a non-empty resume list: the first resume's, when its
      `email` and `_id` are present and non-empty. */
  lemma IdentifyFirstResume(c: Resume, rest: seq<Resume>)
    ensures Identify(Found([c] + rest))
            == if "email" !in c.fields || c.fields["email"] == [] || "_id" !in c.fields || c.fields["_id"] == []
               then Err(HttpError(422, MissingEssentialFields))
               else Ok(Identity(c.fields["email"], c.fields["_id"], NameOf(c)))
  {
    assert ([c] + rest)[0] == c;
  }

  /** An empty or whitespace-only email is refused with 400 before the directory or the table
      is touched, whatever they would have answered; any other email is posted verbatim. */
  lemma BlankEmailRejectedFirst(email: string, reply: Reply, store: Store, insertOk: bool, now: int)
    ensures var r := Login(email, reply, store, insertOk, now);
            r.outcome == Err(HttpError(400, EmptyEmail)) <==> IsBlank(email)
    ensures IsBlank(email) ==> Login(email, reply, store, insertOk, now).store == store
    ensures IsBlank(email) <==> Login(email, reply, store, insertOk, now).effects == []
    ensures !IsBlank(email) ==> Login(email, reply, store, insertOk, now).effects[0] == PostLookup(email)
  {
    if IsBlank(email) {
      assert EmailRejected(email);
    } else if Identify(reply).Ok? {
      LoginInStages(email, reply, store, insertOk, now);
    } else {
      assert Login(email, reply, store, insertOk, now)
             == LoginResult(Err(Identify(reply).error), store, [PostLookup(email)]);
    }
  }

  /** A transport failure is a 503 and leaves the table untouched and unread. */
  lemma UnreachableIs503(email: string, store: Store, insertOk: bool, now: int)
    requires !IsBlank(email)
    ensures Login(email, Unreachable, store, insertOk, now)
            == LoginResult(Err(HttpError(503, UpstreamUnreachable)), store, [PostLookup(email)])
  {
  }

  /** Any upstream status other than 200 is re-raised with that same status, whatever the body,
      and the table is neither read nor written. */
  lemma UpstreamStatusSurfaced(email: string, status: int, body: Body, store: Store, insertOk: bool, now: int)
    requires !IsBlank(email) && status != 200
    ensures Login(email, Replied(status, body), store, insertOk, now)
            == LoginResult(Err(HttpError(status, UpstreamRejected)), store, [PostLookup(email)])
  {
  }

  /** A 200 body without `filteredResumes` is a 422; an empty list is a 404. Neither reads or
      writes the table. */
  lemma ResumeListChecked(email: string, store: Store, insertOk: bool, now: int)
    requires !IsBlank(email)
    ensures Login(email, Replied(200, Body(None)), store, insertOk, now)
            == LoginResult(Err(HttpError(422, MissingFilteredResumes)), store, [PostLookup(email)])
    ensures Login(email, Found([]), store, insertOk, now)
            == LoginResult(Err(HttpError(404, NoCandidateFound)), store, [PostLookup(email)])
  {
    assert !EmailRejected(email);
    assert Identify(Replied(200, Body(None))) == Err(HttpError(422, MissingFilteredResumes));
    assert Identify(Found([])) == Err(HttpError(404, NoCandidateFound));
  }

  /** With a non-empty list, login fails with 422 exactly when the first resume's `email` or
      `_id` is missing or empty; the later resumes play no part. */
  lemma EssentialFieldsChecked(email: string, c: Resume, rest: seq<Resume>, store: Store, insertOk: bool, now: int)
    requires !IsBlank(email)
    ensures var r := Login(email, Found([c] + rest), store, insertOk, now);
            r.outcome == Err(HttpError(422, MissingEssentialFields))
            <==> ("email" !in c.fields || c.fields["email"] == [] || "_id" !in c.fields || c.fields["_id"] == [])
    ensures var r := Login(email, Found([c] + rest), store, insertOk, now);
            r.outcome.Err? && r.outcome.error.reason == MissingEssentialFields ==> r.store == store && r.effects == [PostLookup(email)]
  {
    IdentifyFirstResume(c, rest);
  }

  /** `name` is never validated: whatever the first resume says about `name` (any string, or
      no key at all), the directory step fails the same way or yields the same identity with
      only the name changed. */
  lemma NameNeverValidated(c: Resume, n: string, rest: seq<Resume>)
    ensures var named := Resume(c.fields["name" := n]);
            Identify(Found([named] + rest))
            == match Identify(Found([c] + rest))
               case Ok(who) => Ok(who.(name := n))
               case Err(e) => Err(e)
    ensures var unnamed := Resume(c.fields - {"name"});
            Identify(Found([unnamed] + rest))
            == match Identify(Found([c] + rest))
               case Ok(who) => Ok(who.(name := "Unknown"))
               case Err(e) => Err(e)
  {
    var named := Resume(c.fields["name" := n]);
    var unnamed := Resume(c.fields - {"name"});
    IdentifyFirstResume(c, rest);
    IdentifyFirstResume(named, rest);
    IdentifyFirstResume(unnamed, rest);
    assert "email" in named.fields <==> "email" in c.fields;
    assert "email" in unnamed.fields <==> "email" in c.fields;
    assert "_id" in named.fields <==> "_id" in c.fields;
    assert "_id" in unnamed.fields <==> "_id" in c.fields;
  }

  /** A successful login answers with the first resume's data as mapped — `_id` as the
      candidate id, `name` defaulting to "Unknown" only when absent — and never with what the
      table holds. */
  lemma SuccessEchoesFirstResume(email: string, reply: Reply, store: Store, insertOk: bool, now: int)
    ensures var r := Login(email, reply, store, insertOk, now);
            r.outcome.Ok? ==>
              && reply.Replied? && reply.status == 200 && reply.body.filteredResumes.Some?
              && reply.body.filteredResumes.value != []
              && var c := reply.body.filteredResumes.value[0];
                 && "email" in c.fields && "_id" in c.fields
                 && r.outcome.value == LoginResponse(c.fields["email"], c.fields["_id"], NameOf(c), "Login successful")
  {
    if !Login(email, reply, store, insertOk, now).outcome.Ok? {
      return;
    }
    assert !IsBlank(email) && Identify(reply).Ok?;
    var resumes := reply.body.filteredResumes.value;
    assert resumes == [resumes[0]] + resumes[1..];
    IdentifyFirstResume(resumes[0], resumes[1..]);
    LoginInStages(email, reply, store, insertOk, now);
  }

  /** Past the email check, login is the directory step followed by the store step. */
  lemma LoginInStages(email: string, reply: Reply, store: Store, insertOk: bool, now: int)
    requires !IsBlank(email) && Identify(reply).Ok?
    ensures var p := Provision(Identify(reply).value, store, insertOk, now);
            Login(email, reply, store, insertOk, now) == LoginResult(p.outcome, p.store, [PostLookup(email)] + p.effects)
  {
  }

  /** The store step for a candidate without a row: one select, one insert, and the row
      appended exactly when the insert returns it. */
  lemma ProvisionFresh(who: Identity, store: Store, insertOk: bool, now: int)
    requires RowsFor(store, who.candidateId) == []
    ensures var p := Provision(who, store, insertOk, now);
            && p.effects == [SelectRows(who.candidateId), InsertRow(NewRow(who, now))]
            && (insertOk ==> p.outcome.Ok? && p.store == store + [NewRow(who, now)])
            && (!insertOk ==> p.outcome == Err(HttpError(500, StoreFailed)) && p.store == store)
  {
  }

  /** A candidate with no row gets exactly one, with status "Logged In", the mapped email and
      name, and the clock's time; a failed insert is a 500 and changes nothing. */
  lemma NewCandidateProvisioned(email: string, c: Resume, rest: seq<Resume>, store: Store, insertOk: bool, now: int)
    requires !IsBlank(email)
    requires "email" in c.fields && c.fields["email"] != []
    requires "_id" in c.fields && c.fields["_id"] != []
    requires RowsFor(store, c.fields["_id"]) == []
    ensures var r := Login(email, Found([c] + rest), store, insertOk, now);
            var row := Record(c.fields["_id"], c.fields["email"], NameOf(c), LoggedIn, now);
            r.effects == [PostLookup(email), SelectRows(c.fields["_id"]), InsertRow(row)]
    ensures var r := Login(email, Found([c] + rest), store, insertOk, now);
            var row := Record(c.fields["_id"], c.fields["email"], NameOf(c), LoggedIn, now);
            insertOk ==> r.outcome.Ok? && r.store == store + [row] && |RowsFor(r.store, c.fields["_id"])| == 1
    ensures var r := Login(email, Found([c] + rest), store, insertOk, now);
            !insertOk ==> r.outcome == Err(HttpError(500, StoreFailed)) && r.store == store
  {
    IdentifyFirstResume(c, rest);
    var id := c.fields["_id"];
    var who := Identity(c.fields["email"], id, NameOf(c));
    var row := NewRow(who, now);
    LoginInStages(email, Found([c] + rest), store, insertOk, now);
    ProvisionFresh(who, store, insertOk, now);
    WhereAppend(store, row, CandidateKey, id);
  }

  /** A candidate who already has a row is logged in without any insert or update: the
      table, including that row's status, stays exactly as it was. */
  lemma ExistingCandidateUntouched(email: string, reply: Reply, store: Store, insertOk: bool, now: int)
    requires !IsBlank(email)
    requires Identify(reply).Ok? && RowsFor(store, Identify(reply).value.candidateId) != []
    ensures var r := Login(email, reply, store, insertOk, now);
            && r.outcome.Ok?
            && r.store == store
            && r.effects == [PostLookup(email), SelectRows(Identify(reply).value.candidateId)]
  {
  }

  /** Logging in again with the same directory answer changes nothing and answers the same,
      whatever the insert or the clock would do; so the candidate keeps one row. */
  lemma {:induction false} RepeatLoginIdempotent(email: string, reply: Reply, store: Store,
                                                 insertOk: bool, now: int, insertOk': bool, now': int)
    ensures var first := Login(email, reply, store, insertOk, now);
            var second := Login(email, reply, first.store, insertOk', now');
            first.outcome.Ok? ==> second.store == first.store && second.outcome == first.outcome
    ensures var first := Login(email, reply, store, insertOk, now);
            first.outcome.Ok? && RowsFor(store, first.outcome.value.candidateId) == [] ==>
              |RowsFor(first.store, first.outcome.value.candidateId)| == 1
  {
    if !Login(email, reply, store, insertOk, now).outcome.Ok? {
      return;
    }
    var first := Login(email, reply, store, insertOk, now);
    var who := Identify(reply).value;
    ExistingCandidateUntouched(email, reply, first.store, insertOk', now');
    if RowsFor(store, who.candidateId) == [] {
      WhereAppend(store, NewRow(who, now), CandidateKey, who.candidateId);
    }
  }

  /** After a successful login the details lookup finds the candidate; for a first login the
      row it returns is the fresh "Logged In" row. */
  lemma LoginThenDetails(email: string, reply: Reply, store: Store, insertOk: bool, now: int)
    ensures var r := Login(email, reply, store, insertOk, now);
            r.outcome.Ok? ==>
              var d := CandidateDetails(r.store, r.outcome.value.candidateId);
              && d.Ok? && d.value.candidateId == r.outcome.value.candidateId
              && (RowsFor(store, r.outcome.value.candidateId) == [] ==>
                    d.value == Record(r.outcome.value.candidateId, r.outcome.value.email, r.outcome.value.name, LoggedIn, now))
  {
    if !Login(email, reply, store, insertOk, now).outcome.Ok? {
      return;
    }
    var r := Login(email, reply, store, insertOk, now);
    var who := Identify(reply).value;
    LoginInStages(email, reply, store, insertOk, now);
    var id := who.candidateId;
    assert r.outcome.value.candidateId == id;
    var d := CandidateDetails(r.store, id);
    var i :| IsFirstRowFor(r.store, id, i) && d.value == r.store[i];
    if RowsFor(store, id) == [] {
      assert i == |store|;
    }
  }

  /** The two lookups agree: same row, same presence; only their 404 differs. */
  lemma LookupsAgree(store: Store, id: string)
    ensures CandidateDetails(store, id).Ok? == CandidateTestResults(store, id).Ok?
    ensures CandidateDetails(store, id).Ok? ==> CandidateDetails(store, id).value == CandidateTestResults(store, id).value
  {
  }

  /** In a table without duplicate candidate ids the lookups return the candidate's only row. */
  lemma {:induction false} LookupOfUniqueTable(store: Store, id: string)
    requires KeysUnique(store, CandidateKey)
    requires CandidateDetails(store, id).Ok?
    ensures RowsFor(store, id) == [CandidateDetails(store, id).value]
  {
    UniqueKeysAtMostOne(store, CandidateKey, id);
    var d := CandidateDetails(store, id).value;
    var i :| IsFirstRowFor(store, id, i) && d == store[i];
    assert store[i] in RowsFor(store, id);
  }

  /** The debug endpoint maps the directory's answer the way login does: whenever login
      succeeds, its response is the debug endpoint's `mapped_candidate_data`, and when the
      debug endpoint maps nothing, no login can succeed. */
  lemma DebugMappingAgreesWithLogin(email: string, reply: Reply, store: Store, insertOk: bool, now: int)
    ensures var r := Login(email, reply, store, insertOk, now);
            r.outcome.Ok? ==> DebugMappedData(reply)
                              == Some(Mapped(Some(r.outcome.value.email), Some(r.outcome.value.candidateId), r.outcome.value.name))
    ensures DebugMappedData(reply).None? ==> Login(email, reply, store, insertOk, now).outcome.Err?
  {
  }
}
