/**
 * The Flask backend's in-memory registry: the list of courses with its create, read,
 * update and delete endpoints, the list of quiz submissions, and the input checks of the
 * stateless endpoints. A request's JSON object is a map from keys to values; the value of
 * `crew.kickoff()` and the clock are parameters.
 */
module Registry {
  import opened Wrappers

  /** A JSON value as the backend passes it through without looking inside. */
  type Value = string

  /** The JSON object of a request. */
  type Body = map<string, Value>

  /** What `crew.kickoff()` did: returned its output, or raised. */
  datatype Kickoff = Finished(output: Value) | Failed

  /** An HTTP reply: a JSON value with its status code, a JSON error message with its
      code, or the 500 page Flask serves when the handler raises. */
  datatype Reply<T> = Success(code: nat, value: T) | Failure(code: nat, error: string) | Crash {
    function Code(): nat {
      match this
      case Success(c, _) => c
      case Failure(c, _) => c
      case Crash => 500
    }
  }

  datatype Course = Course(
    id: nat,
    title: Value,
    code: Value,
    description: Value,
    professor: Value,
    createdAt: string,
    aiEnhancedDescription: Value,
    updatedAt: Option<string>)

  datatype Submission = Submission(
    id: nat,
    lectureId: Value,
    questions: seq<Value>,
    answers: Value,
    feedback: Value,
    timestamp: string)

  /** The body of a successful quiz submission's reply. */
  datatype QuizReceipt = QuizReceipt(message: string, feedback: Value, questions: seq<Value>)

  /** `data.get(key, default)`. */
  function Get(body: Body, key: string, default: Value): (v: Value)
    ensures key in body ==> v == body[key]
    ensures key !in body ==> v == default
  {
    Lookup(body, key).GetOr(default)
  }

  /** The position of the first course with the given id: what `next(c for c in courses
      if c['id'] == course_id)` finds. */
  function FirstWithId(cs: seq<Course>, id: nat): (r: Option<nat>)
    ensures r.Some? ==> r.value < |cs| && cs[r.value].id == id
                        && forall j :: 0 <= j < r.value ==> cs[j].id != id
    ensures r.None? ==> forall j :: 0 <= j < |cs| ==> cs[j].id != id
  {
    if cs == [] then None
    else if cs[0].id == id then Some(0)
    else match FirstWithId(cs[1..], id)
      case None => None
      case Some(i) => Some(i + 1)
  }

  /** The course a creation request stores, before the AI description is attached. */
  function NewCourse(id: nat, body: Body, now: string, enhanced: Value): (c: Course)
    requires "title" in body
    ensures c.id == id && c.title == body["title"] && c.createdAt == now
    ensures c.aiEnhancedDescription == enhanced && c.updatedAt.None?
    ensures c.code == Get(body, "code", "") && c.description == Get(body, "description", "")
    ensures c.professor == Get(body, "professor", "")
  {
    Course(id, body["title"], Get(body, "code", ""), Get(body, "description", ""),
           Get(body, "professor", ""), now, enhanced, None)
  }

  /** `course.update({...})`: each editable field takes the request's value when the
      request has one and keeps its own otherwise, and the update time is set. */
  function Updated(c: Course, body: Body, now: string): (u: Course)
    ensures u.id == c.id && u.createdAt == c.createdAt
    ensures u.aiEnhancedDescription == c.aiEnhancedDescription
    ensures u.updatedAt == Some(now)
    ensures u.title == (if "title" in body then body["title"] else c.title)
    ensures u.code == (if "code" in body then body["code"] else c.code)
    ensures u.description == (if "description" in body then body["description"] else c.description)
    ensures u.professor == (if "professor" in body then body["professor"] else c.professor)
  {
    c.(title := Get(body, "title", c.title),
       code := Get(body, "code", c.code),
       description := Get(body, "description", c.description),
       professor := Get(body, "professor", c.professor),
       updatedAt := Some(now))
  }

  /** An update with an empty object only stamps the update time. */
  lemma UpdateWithEmptyBody(c: Course, now: string)
    ensures Updated(c, map[], now) == c.(updatedAt := Some(now))
  {
  }

  /** Sending the same update twice leaves the course as sending it once does. */
  lemma UpdateIdempotent(c: Course, body: Body, now: string)
    ensures Updated(Updated(c, body, now), body, now) == Updated(c, body, now)
  {
  }

  /** The ids a list of courses has when it was built by creations and updates alone:
      the course at position `k` has id `k + 1`. */
  ghost predicate SequentialIds(cs: seq<Course>) {
    forall k :: 0 <= k < |cs| ==> cs[k].id == k + 1
  }

  /** While the ids are sequential, looking a course up by id finds position `id - 1`
      exactly when the id is in range. */
  lemma {:induction false} SequentialIdsFind(cs: seq<Course>, id: nat)
    requires SequentialIds(cs)
    ensures FirstWithId(cs, id) == if 1 <= id <= |cs| then Some(id - 1) else None
  {
    if 1 <= id <= |cs| {
      assert cs[id - 1].id == id;
      forall j | 0 <= j < |cs| && cs[j].id == id ensures j == id - 1 {
      }
    } else {
      forall j | 0 <= j < |cs| ensures cs[j].id != id {
      }
    }
  }

  /** Creation keeps the ids sequential, so a course created into a list that was never
      deleted from is the one its id finds. */
  lemma CreateKeepsSequentialIds(cs: seq<Course>, c: Course)
    requires SequentialIds(cs) && c.id == |cs| + 1
    ensures SequentialIds(cs + [c])
    ensures FirstWithId(cs + [c], c.id) == Some(|cs|)
  {
    SequentialIdsFind(cs + [c], c.id);
  }

  /** Deleting any course but the last breaks sequential ids, and the next creation
      then reuses the id of the last course: the id it returns finds the older course. */
  lemma {:induction false} DeleteThenCreateReusesId(cs: seq<Course>, i: nat, c: Course)
    requires SequentialIds(cs) && i < |cs| - 1
    requires c.id == |cs[..i] + cs[i + 1..]| + 1
    ensures var after := cs[..i] + cs[i + 1..] + [c];
      && after[|after| - 2].id == c.id
      && FirstWithId(after, c.id) == Some(|after| - 2)
      && FirstWithId(after, c.id) != Some(|after| - 1)
  {
    var after := cs[..i] + cs[i + 1..] + [c];
    assert after[|after| - 2] == cs[|cs| - 1];
    forall j | 0 <= j < |after| - 2 ensures after[j].id != c.id {
      if j < i {
        assert after[j] == cs[j];
      } else {
        assert after[j] == cs[j + 1];
      }
    }
  }

  /** `login`: both credentials must be present; the password is not checked. */
  datatype User = User(id: nat, email: Value, role: string)
  datatype Session = Session(token: string, user: User)

  function Login(body: Option<Body>): (r: Reply<Session>)
    ensures r.Success? <==> body.Some? && "email" in body.value && "password" in body.value
    ensures r.Success? ==> r == Success(200, Session("mock_token", User(1, body.value["email"], "teacher")))
    ensures !r.Success? ==> r == Failure(400, "Missing credentials")
  {
    if body.None? || "email" !in body.value || "password" !in body.value then
      Failure(400, "Missing credentials")
    else
      Success(200, Session("mock_token", User(1, body.value["email"], "teacher")))
  }

  /** Any password is accepted: only its presence matters. */
  lemma LoginIgnoresPassword(body: Body, p: Value, q: Value)
    ensures Login(Some(body["password" := p])) == Login(Some(body["password" := q]))
  {
  }

  /** `analyze_student_performance`: the AI's analysis and the student id echoed back. */
  datatype PerformanceReport = PerformanceReport(analysis: Value, studentId: Value)

  function AnalyzeStudentPerformance(body: Option<Body>, kickoff: Kickoff): (r: Reply<PerformanceReport>)
    ensures body.None? || "student_id" !in body.value <==> r == Failure(400, "Missing student ID")
    ensures r.Crash? <==> body.Some? && "student_id" in body.value && kickoff.Failed?
    ensures body.Some? && "student_id" in body.value && kickoff.Finished? ==>
      r == Success(200, PerformanceReport(kickoff.output, body.value["student_id"]))
  {
    if body.None? || "student_id" !in body.value then Failure(400, "Missing student ID")
    else match kickoff
      case Failed => Crash
      case Finished(output) => Success(200, PerformanceReport(output, body.value["student_id"]))
  }

  /** `grade_assignment`: the AI's grade and the submission id, which may be absent. */
  datatype Grade = Grade(grade: Value, submissionId: Option<Value>)

  function GradeAssignment(body: Option<Body>, kickoff: Kickoff): (r: Reply<Grade>)
    ensures body.None? || "submission" !in body.value <==> r == Failure(400, "Missing submission")
    ensures r.Crash? <==> body.Some? && "submission" in body.value && kickoff.Failed?
    ensures body.Some? && "submission" in body.value && kickoff.Finished? ==>
      && r.Success? && r.code == 200 && r.value.grade == kickoff.output
      && (r.value.submissionId.Some? <==> "submission_id" in body.value)
      && (r.value.submissionId.Some? ==> r.value.submissionId.value == body.value["submission_id"])
  {
    if body.None? || "submission" !in body.value then Failure(400, "Missing submission")
    else match kickoff
      case Failed => Crash
      case Finished(output) => Success(200, Grade(output, Lookup(body.value, "submission_id")))
  }

  /** The module-level lists `courses` and `quiz_submissions`, which the endpoints
      update in place. */
  class Backend {
    var courses: seq<Course>
    var quizSubmissions: seq<Submission>

    /** Submissions are never removed, so the one at position `k` has id `k + 1`;
        course ids start at 1 but repeat once a course other than the last has been deleted. */
    ghost predicate Valid()
      reads this
    {
      && (forall k :: 0 <= k < |courses| ==> courses[k].id >= 1)
      && (forall k :: 0 <= k < |quizSubmissions| ==> quizSubmissions[k].id == k + 1)
    }

    constructor()
      ensures Valid() && courses == [] && quizSubmissions == []
    {
      courses := [];
      quizSubmissions := [];
    }

    /** The generator expression the course endpoints share: a scan for the first
        course with the id. */
    method FindCourse(id: nat) returns (r: Option<nat>)
      ensures r == FirstWithId(courses, id)
    {
      var k := 0;
      while k < |courses|
        invariant k <= |courses|
        invariant forall j :: 0 <= j < k ==> courses[j].id != id
      {
        if courses[k].id == id {
          var f := FirstWithId(courses, id);
          assert f.Some? && f.value == k;
          return Some(k);
        }
        k := k + 1;
      }
      return None;
    }

    /** `create_course`: a request without a title is refused; otherwise the course gets
        id `len(courses) + 1` and the AI's description, and is appended. When the AI call
        raises, nothing is stored. */
    method CreateCourse(body: Option<Body>, now: string, kickoff: Kickoff) returns (reply: Reply<Course>)
      requires Valid()
      modifies this
      ensures Valid()
      ensures quizSubmissions == old(quizSubmissions)
      ensures body.None? || "title" !in body.value ==>
                reply == Failure(400, "Missing required fields") && courses == old(courses)
      ensures body.Some? && "title" in body.value && kickoff.Failed? ==>
                reply.Crash? && courses == old(courses)
      ensures body.Some? && "title" in body.value && kickoff.Finished? ==>
                var c := NewCourse(|old(courses)| + 1, body.value, now, kickoff.output);
                reply == Success(201, c) && courses == old(courses) + [c]
    {
      if body.None? || "title" !in body.value {
        return Failure(400, "Missing required fields");
      }
      match kickoff {
        case Failed =>
          return Crash;
        case Finished(output) =>
          var c := NewCourse(|courses| + 1, body.value, now, output);
          courses := courses + [c];
          return Success(201, c);
      }
    }

    /** `get_course`: the first course with the id, or 404. */
    method GetCourse(id: nat) returns (reply: Reply<Course>)
      ensures FirstWithId(courses, id).None? <==> reply == Failure(404, "Course not found")
      ensures FirstWithId(courses, id).Some? ==> reply == Success(200, courses[FirstWithId(courses, id).value])
    {
      var i := FindCourse(id);
      if i.None? {
        return Failure(404, "Course not found");
      }
      return Success(200, courses[i.value]);
    }

    /** `update_course`: 404 when no course has the id; a request without a JSON object
        then fails on `data.get`; otherwise the first course with the id is updated in
        place and returned. */
    method UpdateCourse(id: nat, body: Option<Body>, now: string) returns (reply: Reply<Course>)
      requires Valid()
      modifies this
      ensures Valid()
      ensures quizSubmissions == old(quizSubmissions)
      ensures FirstWithId(old(courses), id).None? ==>
                reply == Failure(404, "Course not found") && courses == old(courses)
      ensures FirstWithId(old(courses), id).Some? && body.None? ==>
                reply.Crash? && courses == old(courses)
      ensures FirstWithId(old(courses), id).Some? && body.Some? ==>
                var i := FirstWithId(old(courses), id).value;
                var u := Updated(old(courses)[i], body.value, now);
                reply == Success(200, u) && courses == old(courses)[i := u]
    {
      var i := FindCourse(id);
      if i.None? {
        return Failure(404, "Course not found");
      }
      if body.None? {
        return Crash;
      }
      var u := Updated(courses[i.value], body.value, now);
      courses := courses[i.value := u];
      return Success(200, u);
    }

    /** `delete_course`: the first course with the id is removed, or 404. */
    method DeleteCourse(id: nat) returns (reply: Reply<()>)
      requires Valid()
      modifies this
      ensures Valid()
      ensures quizSubmissions == old(quizSubmissions)
      ensures FirstWithId(old(courses), id).None? ==>
                reply == Failure(404, "Course not found") && courses == old(courses)
      ensures FirstWithId(old(courses), id).Some? ==>
                var i := FirstWithId(old(courses), id).value;
                reply == Success(204, ()) && courses == old(courses)[..i] + old(courses)[i + 1..]
    {
      var i := FindCourse(id);
      if i.None? {
        return Failure(404, "Course not found");
      }
      courses := courses[..i.value] + courses[i.value + 1..];
      return Success(204, ());
    }

    /** `submit_quiz`: the lecture id and the answers must be present and the lecture
        must have questions in `questionsByLecture` (the contents of the quiz data
        file); the submission then gets id `len(quiz_submissions) + 1` and the AI's
        feedback, and is appended. */
    method SubmitQuiz(body: Option<Body>, questionsByLecture: map<Value, seq<Value>>,
                      now: string, kickoff: Kickoff) returns (reply: Reply<QuizReceipt>)
      requires Valid()
      modifies this
      ensures Valid()
      ensures courses == old(courses)
      ensures body.None? || "lectureId" !in body.value || "answers" !in body.value ==>
                reply == Failure(400, "Missing required fields") && quizSubmissions == old(quizSubmissions)
      ensures body.Some? && "lectureId" in body.value && "answers" in body.value ==>
                var questions := Lookup(questionsByLecture, body.value["lectureId"]).GetOr([]);
                && (questions == [] ==>
                      reply == Failure(404, "No questions found for this lecture")
                      && quizSubmissions == old(quizSubmissions))
                && (questions != [] && kickoff.Failed? ==>
                      reply.Crash? && quizSubmissions == old(quizSubmissions))
                && (questions != [] && kickoff.Finished? ==>
                      reply == Success(201, QuizReceipt("Quiz submitted successfully", kickoff.output, questions))
                      && quizSubmissions == old(quizSubmissions) + [Submission(
                           |old(quizSubmissions)| + 1, body.value["lectureId"], questions,
                           body.value["answers"], kickoff.output, now)])
    {
      if body.None? || "lectureId" !in body.value || "answers" !in body.value {
        return Failure(400, "Missing required fields");
      }
      var data := body.value;
      var questions := Lookup(questionsByLecture, data["lectureId"]).GetOr([]);
      if questions == [] {
        return Failure(404, "No questions found for this lecture");
      }
      match kickoff {
        case Failed =>
          return Crash;
        case Finished(output) =>
          var s := Submission(|quizSubmissions| + 1, data["lectureId"], questions, data["answers"], output, now);
          quizSubmissions := quizSubmissions + [s];
          return Success(201, QuizReceipt("Quiz submitted successfully", output, questions));
      }
    }
  }

  /** Two creations, a deletion of the first course and a third creation leave two
      courses with id 2, and a lookup of id 2 finds the older one. */
  method DuplicateIdsAfterDelete() returns (b: Backend)
    ensures |b.courses| == 2 && b.courses[0].id == 2 && b.courses[1].id == 2
    ensures b.courses[0].title == "Second" && b.courses[1].title == "Third"
    ensures FirstWithId(b.courses, 2) == Some(0)
  {
    b := new Backend();
    var r := b.CreateCourse(Some(map["title" := "First"]), "t1", Finished("a"));
    r := b.CreateCourse(Some(map["title" := "Second"]), "t2", Finished("b"));
    var d := b.DeleteCourse(1);
    r := b.CreateCourse(Some(map["title" := "Third"]), "t3", Finished("c"));
  }
}
