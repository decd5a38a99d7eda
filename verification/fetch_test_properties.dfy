/** Properties of test delivery: the order of its checks, the expiry boundary, monotonicity
    in time, and that answers never leave the route. */
module FetchTestProperties {
  import opened Wrappers
  import opened Http
  import opened Table
  import opened TestRoutes

  /** An unknown set id is a 404 before any expiry or question check: the questions, the
      parser and the clock make no difference. */
  lemma UnknownSetIs404(id: string, sets: seq<QuestionSet>, questions: seq<Question>,
                        parse: string -> Option<int>, now: int)
    requires forall i :: 0 <= i < |sets| ==> sets[i].id != id
    ensures FetchTest(id, sets, questions, parse, now) == Err(HttpError(404, TestNotFound))
  {
    NoMatchIsEmpty(sets, SetKey, id);
  }

  /** A missing, null or empty `expires_at` skips the expiry check: the parser and the clock
      make no difference. */
  lemma BlankExpirySkipsCheck(id: string, sets: seq<QuestionSet>, questions: seq<Question>,
                              parse: string -> Option<int>, now: int, parse': string -> Option<int>, now': int)
    requires Where(sets, SetKey, id) != []
    requires Where(sets, SetKey, id)[0].expiresAt in {None, Some("")}
    ensures FetchTest(id, sets, questions, parse, now) == FetchTest(id, sets, questions, parse', now')
    ensures FetchTest(id, sets, questions, parse, now).Err? ==> FetchTest(id, sets, questions, parse, now).error == HttpError(404, NoQuestions)
  {
  }

  /** An `expires_at` that does not parse is a 500, whatever the time and the questions. */
  lemma UnparseableExpiryIs500(id: string, sets: seq<QuestionSet>, questions: seq<Question>,
                               parse: string -> Option<int>, now: int)
    requires Where(sets, SetKey, id) != [] && HasExpiry(Where(sets, SetKey, id)[0])
    requires parse(Where(sets, SetKey, id)[0].expiresAt.value).None?
    ensures FetchTest(id, sets, questions, parse, now) == Err(HttpError(500, InvalidExpiry))
  {
  }

  /** With a parsed expiry time `t` the route answers 410 exactly when `now > t`, ahead of
      the question check: a set with no questions is still "expired" rather than "not found". */
  lemma ExpiredIffPastExpiry(id: string, sets: seq<QuestionSet>, questions: seq<Question>,
                             parse: string -> Option<int>, now: int)
    requires Where(sets, SetKey, id) != [] && HasExpiry(Where(sets, SetKey, id)[0])
    requires parse(Where(sets, SetKey, id)[0].expiresAt.value).Some?
    ensures var t := parse(Where(sets, SetKey, id)[0].expiresAt.value).value;
            FetchTest(id, sets, questions, parse, now) == Err(HttpError(410, TestExpired)) <==> now > t
  {
  }

  /** The boundary is strict: at the expiry instant the test is still served (or fails only
      for lack of questions); one tick later it is gone. */
  lemma ExpiryBoundary(id: string, sets: seq<QuestionSet>, questions: seq<Question>,
                       parse: string -> Option<int>, t: int)
    requires Where(sets, SetKey, id) != [] && HasExpiry(Where(sets, SetKey, id)[0])
    requires parse(Where(sets, SetKey, id)[0].expiresAt.value) == Some(t)
    ensures FetchTest(id, sets, questions, parse, t).Ok? <==> QuestionsOf(questions, id) != []
    ensures FetchTest(id, sets, questions, parse, t + 1) == Err(HttpError(410, TestExpired))
  {
  }

  /** A set that exists and passes the expiry gate but has no questions is a 404. */
  lemma NoQuestionsIs404(id: string, sets: seq<QuestionSet>, questions: seq<Question>,
                         parse: string -> Option<int>, now: int)
    requires Where(sets, SetKey, id) != [] && ExpiryError(Where(sets, SetKey, id)[0], parse, now).None?
    requires forall i :: 0 <= i < |questions| ==> questions[i].questionSetId != id
    ensures FetchTest(id, sets, questions, parse, now) == Err(HttpError(404, NoQuestions))
  {
    NoMatchIsEmpty(questions, QuestionSetKey, id);
  }

  /** Serving is monotone in time: a test served now is served, identically, at any earlier time. */
  lemma ServedEarlierToo(id: string, sets: seq<QuestionSet>, questions: seq<Question>,
                         parse: string -> Option<int>, now: int, earlier: int)
    requires FetchTest(id, sets, questions, parse, now).Ok? && earlier <= now
    ensures FetchTest(id, sets, questions, parse, earlier) == FetchTest(id, sets, questions, parse, now)
  {
  }

  /** A successful fetch reports the requested id, and 20 minutes when the set has no `duration`. */
  lemma DurationDefaultsTo20(id: string, sets: seq<QuestionSet>, questions: seq<Question>,
                             parse: string -> Option<int>, now: int)
    requires FetchTest(id, sets, questions, parse, now).Ok?
    requires Where(sets, SetKey, id)[0].duration.Absent?
    ensures FetchTest(id, sets, questions, parse, now).value == TestPayload(QuestionsOf(questions, id), Some(20), id)
  {
  }

  /** The served questions are exactly the set's questions, projected: every served entry is
      some question of the set without its answer, and every question of the set is served. */
  lemma ServedQuestionsAreTheSets(id: string, questions: seq<Question>, v: QuestionView)
    ensures v in QuestionsOf(questions, id)
            <==> exists i :: 0 <= i < |questions| && questions[i].questionSetId == id && View(questions[i]) == v
  {
    var rows := Where(questions, QuestionSetKey, id);
    var vs := QuestionsOf(questions, id);
    if v in vs {
      var k :| 0 <= k < |vs| && vs[k] == v;
      assert rows[k] in rows;
    }
    if exists i :: 0 <= i < |questions| && questions[i].questionSetId == id && View(questions[i]) == v {
      var i :| 0 <= i < |questions| && questions[i].questionSetId == id && View(questions[i]) == v;
      assert questions[i] in rows;
      var k :| 0 <= k < |rows| && rows[k] == questions[i];
      assert vs[k] == v;
    }
  }

  /** Two `questions` tables that differ at most in their `answer` columns. */
  predicate SameButAnswers(a: seq<Question>, b: seq<Question>) {
    |a| == |b| && forall i :: 0 <= i < |a| ==> a[i].(answer := None) == b[i].(answer := None)
  }

  lemma SameButAnswersConcat(a: seq<Question>, b: seq<Question>, c: seq<Question>, d: seq<Question>)
    requires SameButAnswers(a, b) && SameButAnswers(c, d)
    ensures SameButAnswers(a + c, b + d)
  {
    forall i | 0 <= i < |a + c| ensures (a + c)[i].(answer := None) == (b + d)[i].(answer := None) {
      if i < |a| {
        assert (a + c)[i] == a[i] && (b + d)[i] == b[i];
      } else {
        assert (a + c)[i] == c[i - |a|] && (b + d)[i] == d[i - |a|];
      }
    }
  }

  /** Filtering by set id keeps two tables that differ only in answers aligned. */
  lemma {:induction false} WhereIgnoresAnswers(a: seq<Question>, b: seq<Question>, id: string)
    requires SameButAnswers(a, b)
    ensures SameButAnswers(Where(a, QuestionSetKey, id), Where(b, QuestionSetKey, id))
  {
    if a != [] {
      assert a[0].(answer := None) == b[0].(answer := None);
      assert SameButAnswers(a[1..], b[1..]) by {
        forall i | 0 <= i < |a[1..]| ensures a[1..][i].(answer := None) == b[1..][i].(answer := None) {
          assert a[1..][i] == a[i + 1] && b[1..][i] == b[i + 1];
        }
      }
      WhereIgnoresAnswers(a[1..], b[1..], id);
      var ha := if a[0].questionSetId == id then [a[0]] else [];
      var hb := if b[0].questionSetId == id then [b[0]] else [];
      assert SameButAnswers(ha, hb);
      SameButAnswersConcat(ha, hb, Where(a[1..], QuestionSetKey, id), Where(b[1..], QuestionSetKey, id));
    }
  }

  lemma QuestionsOfIgnoresAnswers(a: seq<Question>, b: seq<Question>, id: string)
    requires SameButAnswers(a, b)
    ensures QuestionsOf(a, id) == QuestionsOf(b, id)
  {
    WhereIgnoresAnswers(a, b, id);
    var ra, rb := Where(a, QuestionSetKey, id), Where(b, QuestionSetKey, id);
    forall i | 0 <= i < |ra| ensures View(ra[i]) == View(rb[i]) {
      assert ra[i].(answer := None) == rb[i].(answer := None);
    }
  }

  /** The `answer` field never reaches the response: changing every answer in the `questions`
      table changes nothing the route returns. */
  lemma AnswersNeverExposed(id: string, sets: seq<QuestionSet>, a: seq<Question>, b: seq<Question>,
                            parse: string -> Option<int>, now: int)
    requires SameButAnswers(a, b)
    ensures FetchTest(id, sets, a, parse, now) == FetchTest(id, sets, b, parse, now)
  {
    QuestionsOfIgnoresAnswers(a, b, id);
  }
}
