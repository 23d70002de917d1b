# Quiz grading and course registry of the teaching-assistant backend

This project models the deterministic core of the teaching-assistant backend in Dafny.

- **Text** (`text.dfy`): the parts of Python's `str` that the core relies on. These are `lower()`, `strip()`, `split()` and the substring test `sub in s`.
- **QuizQuestions** (`questions.dfy`): the quiz service's fallback question generator, `generate_topic_specific_questions`. It picks one of five fixed or templated question sets from the lecture title and course name. The module also models the bracket extraction that turns the language model's raw reply into the text handed to the JSON parser.
- **Grader** (`grader.dfy`): the keyword heuristic `analyze_student_answer`, which grades one free-text answer, and the `/analyze-answers` endpoint, which grades a whole answer sheet.
  - The first matching topic determines the expected keywords. With no topic match, the key terms of the lecture title and question are used.
  - The machine-learning keyword table is modelled in the order the source tests it, and the grading uses that order. A corrected order, which the generator's own supervised-learning question needs, is a separate variant (see "## Findings").
  - The score is the floored percentage of keywords found, with a 30-point penalty for answers under 50 characters.
  - Correctness is a pass mark of 60. The feedback sentence is chosen by score bands.
- **Registry** (`registry.dfy`): the Flask backend's in-memory `courses` and `quiz_submissions` lists, and the endpoints that create, read, update and delete them.
  - It also models the input checks of `login`, `analyze_student_performance` and `grade_assignment`.
  - `Backend` is a class whose methods update the two lists in place.
  - The output of `crew.kickoff()` (or its failure), the current time, and the contents of the quiz data file are parameters.
  - Course ids are `len(courses) + 1` at creation, so two courses can share an id. Within the model, where each request runs as one step, deleting any course but the last, followed by a creation, produces such a duplicate, and the model proves it does. Deleting the last course and then creating one reuses its id without a duplicate. Interleaved requests can also produce one (see "## Left out"). The model does not claim ids are unique.
- **Wrappers** (`wrappers.dfy`): `Option` and Python's `dict.get`.

## Model

| member | source | states |
|---|---|---|
| Text.Lower | backend/agents_ai/src/agents_ai/main.py:504-507 | `s.lower()` keeps the length and lower-cases each character in place (ASCII letters only) |
| Text.LowerIdempotent | backend/agents_ai/src/agents_ai/main.py:382-383 | lower-casing an already lower-cased text changes nothing |
| Text.LeadingSpaces | backend/agents_ai/src/agents_ai/main.py:491 | the prefix `strip()` removes is all whitespace and is maximal: the next character, if any, is not whitespace |
| Text.TrailingSpaces | backend/agents_ai/src/agents_ai/main.py:491 | the suffix `strip()` removes is all whitespace and is maximal |
| Text.Strip | backend/agents_ai/src/agents_ai/main.py:491 | `strip()` yields the part of the text right after its leading whitespace, followed in the text only by whitespace, and that part neither starts nor ends with whitespace |
| Text.StripEmptyIff | backend/agents_ai/src/agents_ai/main.py:491 | `answer.strip() == ""` holds exactly when every character of the answer is whitespace, the empty answer included |
| Text.ContainsIff | backend/agents_ai/src/agents_ai/main.py:513-562 | `sub in s` holds exactly when `sub` occurs at some position of `s` |
| Text.ContainsInfix | backend/agents_ai/src/agents_ai/main.py:513 | `sub in prefix + sub + suffix` always holds |
| Text.Words | backend/agents_ai/src/agents_ai/main.py:568 | every word `split()` yields is non-empty and contains no whitespace |
| Wrappers.Lookup | backend/backend.py:181-196 | `d.get(k)` has a value exactly when `k` is a key, and that value is `d[k]` |
| QuizQuestions.TopicOf | backend/agents_ai/src/agents_ai/main.py:385-417 | the chain picks a specific topic only when that topic's test fires on the lower-cased title or course name |
| QuizQuestions.TopicIsFirstMatch | backend/agents_ai/src/agents_ai/main.py:385-417 | the chosen topic is the first of python, machine learning, neural, data whose test fires; the default set is chosen exactly when none fires |
| QuizQuestions.TopicQuestions | backend/agents_ai/src/agents_ai/main.py:385-425 | each topic, the default one included, has exactly five questions |
| QuizQuestions.GeneralQuestions | backend/agents_ai/src/agents_ai/main.py:417-425 | the default set has five questions, built around the lower-cased title and course name |
| QuizQuestions.GenerateTopicSpecificQuestions | backend/agents_ai/src/agents_ai/main.py:380-425 | the generator always returns five questions |
| QuizQuestions.GenerateIgnoresCase | backend/agents_ai/src/agents_ai/main.py:382-383 | the questions depend only on the lower-cased title and course name |
| QuizQuestions.GeneralQuestionsNameTheTitle | backend/agents_ai/src/agents_ai/main.py:417-425 | when no topic matches, each of the five questions contains the lower-cased lecture title |
| QuizQuestions.FirstIndexOf | backend/agents_ai/src/agents_ai/main.py:313 | the position found holds the character and no earlier position does; none means the character is absent |
| QuizQuestions.LastIndexOf | backend/agents_ai/src/agents_ai/main.py:313 | the position found holds the character and no later position does; none means the character is absent |
| QuizQuestions.ExtractJsonText | backend/agents_ai/src/agents_ai/main.py:311-318 | the text handed to the parser is never longer than the raw reply, and is either the raw reply or a bracketed text |
| QuizQuestions.ExtractJsonTextIsTheMatch | backend/agents_ai/src/agents_ai/main.py:311-318 | with no `[` before a `]`, the raw text is parsed unchanged; otherwise the parsed text is exactly the leftmost-longest match of `\[(.*)\]` with DOTALL |
| QuizQuestions.ExtractJsonTextIdempotent | backend/agents_ai/src/agents_ai/main.py:313-316 | extracting from the extracted text gives the same text |
| Grader.PythonKeywords | backend/agents_ai/src/agents_ai/main.py:514-523 | the Python table's keyword lists repeat no keyword |
| Grader.MachineLearningKeywordsAsWritten | backend/agents_ai/src/agents_ai/main.py:527-536 | the machine-learning table in the source's order ("differ" first) repeats no keyword |
| Grader.MachineLearningKeywords | backend/agents_ai/src/agents_ai/main.py:527-536 | the machine-learning table with the supervised/unsupervised test first repeats no keyword |
| Grader.MachineLearningTail | backend/agents_ai/src/agents_ai/main.py:531-536 | the last three machine-learning lists repeat no keyword |
| Grader.NeuralKeywords | backend/agents_ai/src/agents_ai/main.py:540-549 | the neural-network table's keyword lists repeat no keyword |
| Grader.DataKeywords | backend/agents_ai/src/agents_ai/main.py:553-562 | the data-analysis table's keyword lists repeat no keyword |
| Grader.KeywordSourceWith | backend/agents_ai/src/agents_ai/main.py:513-565 | the topic chain of `analyze_student_answer`; every fixed list it yields repeats no keyword |
| Grader.KeywordSourceOf | backend/agents_ai/src/agents_ai/main.py:509-576 | the expected keywords as written: a fixed list without repeats, or the key terms |
| Grader.CorrectedKeywordSourceOf | backend/agents_ai/src/agents_ai/main.py:526-530 | the same chain with the corrected machine-learning order; its fixed lists repeat no keyword either |
| Grader.KeyTerms | backend/agents_ai/src/agents_ai/main.py:567-574 | the key-term set: title words over three characters, plus question words over three characters that are not stop words |
| Grader.KeyTermsAreLongWords | backend/agents_ai/src/agents_ai/main.py:567-574 | every key term is a whitespace-free word over three characters, from the title or a non-stop word of the question |
| Grader.CollectKeyTerms | backend/agents_ai/src/agents_ai/main.py:567-574 | the two loops produce exactly the key-term set: title words over three characters, plus question words over three characters that are not stop words |
| Grader.ListOfTerms | backend/agents_ai/src/agents_ai/main.py:576 | `list(key_terms)` holds each term exactly once, in some order |
| Grader.CountMatches | backend/agents_ai/src/agents_ai/main.py:579 | the number of keywords found never exceeds the number expected |
| Grader.CountMatchesOfDistinct | backend/agents_ai/src/agents_ai/main.py:576-579 | over a list without repeats, the match count is the number of distinct keywords found, so the arbitrary order of `list(key_terms)` does not change the count |
| Grader.KeywordStats | backend/agents_ai/src/agents_ai/main.py:509-579 | the matched count never exceeds the expected count, for every topic and for key terms |
| Grader.KeywordStatsCountsDistinct | backend/agents_ai/src/agents_ai/main.py:576-579 | the matched count is the number of distinct expected keywords (or key terms) found in the answer, and the expected count is the list's length (or the number of key terms) |
| Grader.CountKeywords | backend/agents_ai/src/agents_ai/main.py:509-579 | the imperative keyword pass (loops, set listing, counting) yields the specified counts |
| Grader.IsCorrect | backend/agents_ai/src/agents_ai/main.py:587-601 | with no expected keywords an answer is correct iff it has at least 50 characters; an answer of adequate length is correct iff it names at least 60% of the expected keywords |
| Grader.PassMarkIsPercentOfKeywords | backend/agents_ai/src/agents_ai/main.py:595-601 | the floored percentage reaches 60 exactly when 100 times the matches reach 60 times the expected count |
| Grader.FeedbackFor | backend/agents_ai/src/agents_ai/main.py:603-613 | the too-brief feedback is given exactly below 50 characters, whatever the score; otherwise the bands are 90, 70 and 50, each an iff |
| Grader.AnswerAnalysis | backend/agents_ai/src/agents_ai/main.py:490-623 | the analysis echoes question and answer, scores in [0, 100], has keyword counters exactly when the answer is not blank, and never matches more keywords than it expects |
| Grader.Score | backend/agents_ai/src/agents_ai/main.py:587-599 | every score lies in [0, 100] |
| Grader.BlankAnswer | backend/agents_ai/src/agents_ai/main.py:490-498 | an empty or whitespace-only answer is incorrect, scores 0, gets the no-answer feedback and has no keyword counters; any other answer has them |
| Grader.NoKeywordsScoring | backend/agents_ai/src/agents_ai/main.py:587-590 | with no expected keywords, an answer of 50 or more characters scores 70 and is correct; a shorter one scores 30 and is incorrect |
| Grader.KeywordScoring | backend/agents_ai/src/agents_ai/main.py:591-601 | with expected keywords, the score is the floored percentage found, minus 30 (not below 0) for a short answer; the answer is correct iff the score is at least 60 |
| Grader.ScoreMonotone | backend/agents_ai/src/agents_ai/main.py:593-599 | finding more keywords never lowers the score |
| Grader.BriefAnswerNeedsNinetyPercent | backend/agents_ai/src/agents_ai/main.py:597-601 | a short answer is correct only if it names at least 90% of the expected keywords |
| Grader.FullMatchIsExcellent | backend/agents_ai/src/agents_ai/main.py:593-607 | an answer of adequate length naming every expected keyword scores 100, is correct and gets the top feedback |
| Grader.FeedbackPrecedence | backend/agents_ai/src/agents_ai/main.py:603-613 | the too-brief feedback is given exactly to answers under 50 characters; otherwise the bands are 90, 70 and 50, each an iff |
| Grader.AnalyzeStudentAnswer | backend/agents_ai/src/agents_ai/main.py:483-623 | the imperative version returns the specified analysis for every input |
| Grader.SupervisedQuestionShadowed | backend/agents_ai/src/agents_ai/main.py:527-530 | as written, a question containing "differ", "supervised" and "unsupervised" gets the "differ" keyword list |
| Grader.GeneratedSupervisedQuestion | backend/agents_ai/src/agents_ai/main.py:396 | the generator's own supervised-learning question gets the wrong list as written and the supervised list after the correction |
| Grader.SupervisedQuestionGetsItsKeywords | backend/agents_ai/src/agents_ai/main.py:529-530 | with the corrected order, every question naming both kinds of learning gets the supervised-learning list |
| Grader.CorrectionIsLocal | backend/agents_ai/src/agents_ai/main.py:526-536 | the corrected expected keywords differ from those as written only for questions naming both kinds of learning together with "differ" or "traditional" |
| Grader.CorrectCount | backend/agents_ai/src/agents_ai/main.py:457 | the correct count is at most the number of results; it equals that number iff all are correct, and is 0 iff none is |
| Grader.OverallScore | backend/agents_ai/src/agents_ai/main.py:456-459 | the overall score lies in [0, 100]; it is 100 iff the sheet is non-empty and all answers are correct, and 0 iff none is correct |
| Grader.PercentOfCount | backend/agents_ai/src/agents_ai/main.py:459 | a count out of a positive total, as a percentage, lies in [0, 100] and reaches either end exactly when the count does |
| Grader.AnalyzeAnswers | backend/agents_ai/src/agents_ai/main.py:440-459 | a length mismatch, and only that, gives the 400 reply, with no results; otherwise the results are the answers' analyses, one per pair in order, and the overall score is the percentage correct |
| Registry.Get | backend/backend.py:75-77 | `data.get(key, default)` is the request's value when present and the default otherwise |
| Registry.FirstWithId | backend/backend.py:101 | the position found holds a course with the id and no earlier course has it; none means no course has it |
| Registry.NewCourse | backend/backend.py:72-79 | a new course has the given id, the request's title, the optional fields defaulting to "", the creation time, and no update time |
| Registry.Updated | backend/backend.py:114-120 | an update keeps id, creation time and AI description, takes each editable field from the request when present and keeps it otherwise, and stamps the update time |
| Registry.UpdateWithEmptyBody | backend/backend.py:114-120 | an update with an empty object only stamps the update time |
| Registry.UpdateIdempotent | backend/backend.py:114-120 | applying the same update twice equals applying it once |
| Registry.SequentialIdsFind | backend/backend.py:73 | while every course sits at position id - 1, a lookup finds position id - 1 exactly for ids in range |
| Registry.CreateKeepsSequentialIds | backend/backend.py:73-96 | creation keeps ids sequential, and the new course is the one its id finds |
| Registry.DeleteThenCreateReusesId | backend/backend.py:73 | deleting any course but the last and then creating one gives the new course the id of the last course; a lookup of that id finds the older course, never the new one |
| Registry.Login | backend/backend.py:237-248 | login succeeds iff both email and password are present; it echoes the email with id 1, role teacher and the mock token; otherwise 400 "Missing credentials" |
| Registry.LoginIgnoresPassword | backend/backend.py:240-248 | the password's value never changes the reply |
| Registry.AnalyzeStudentPerformance | backend/backend.py:138-157 | 400 exactly when the student id is missing; otherwise 500 exactly when the AI call fails, and 200 with the analysis and the echoed student id when it succeeds |
| Registry.GradeAssignment | backend/backend.py:163-182 | 400 exactly when the submission is missing; otherwise 500 exactly when the AI call fails, and 200 with the grade and the submission id (present iff the request has one) when it succeeds |
| Registry.Backend.constructor | backend/backend.py:22-24 | the registry starts with no courses and no submissions |
| Registry.Backend.FindCourse | backend/backend.py:101 | the scan returns the first position holding the id, or none |
| Registry.Backend.CreateCourse | backend/backend.py:66-97 | 400 without a body or title; 500 with nothing stored when the AI call fails; otherwise 201 and exactly the new course appended with id len + 1 |
| Registry.Backend.GetCourse | backend/backend.py:100-104 | 404 exactly when no course has the id; when one has it, 200 with the first course that has it |
| Registry.Backend.UpdateCourse | backend/backend.py:107-122 | 404 when absent; 500 without a JSON object; otherwise only the first course with the id is replaced by its update, which is returned |
| Registry.Backend.DeleteCourse | backend/backend.py:125-132 | 404 when absent; otherwise 204 and exactly the first course with the id is removed, the rest keep their order |
| Registry.Backend.SubmitQuiz | backend/backend.py:185-231 | 400 without lecture id or answers; 404 when the lecture has no questions; 500 with nothing stored when the AI call fails; otherwise 201 and one submission appended with id len + 1; submission ids stay equal to position + 1 |
| Registry.DuplicateIdsAfterDelete | backend/backend.py:73 | create, create, delete id 1, create leaves two courses with id 2, and a lookup of id 2 returns the older one |

## Left out

- Text.Lower: lower-cases ASCII letters only. Python's `str.lower()` also maps non-ASCII letters, so keyword matching on non-ASCII text may differ.
- Text.Words: states that every word is non-empty and free of whitespace. It does not state that the words are the maximal runs and cover all non-whitespace characters in order, although the definition computes exactly that.
- Grader.KeywordScoring: the score `int(matched / expected * 100)` is modelled as the exact floored percentage `100 * matched / expected`. This agrees with the floating-point value whenever fewer than 50 keywords are expected, which every fixed table satisfies. With 50 or more key terms the float rounding can give one point less, for example 29 of 50.
- Grader.AnalyzeAnswers: `overall_score` is a Python float; it is modelled as an exact real.
- The 500 reply of `/analyze-answers` (the `except` branch) is not modelled. For string inputs `analyze_student_answer` raises nothing the model could reach.
- Concurrency is not modelled. Each request runs as one atomic step on the registry. The Flask server started at backend.py:251 handles requests on threads, so requests can interleave. Two `create_course` calls that both read `len(courses)` (backend.py:73) before either appends (backend.py:96), with the slow `crew.kickoff()` in between, get the same id without any deletion. `submit_quiz` has the same window between its length read (backend.py:218) and its append (backend.py:225).
- The FastAPI and Flask routing, CORS and JSON serialisation are not modelled. A request body is a map from keys to opaque values, and `None` stands for a request without a JSON object.
- A JSON value whose type is not a string is not modelled, so a lecture id of another type cannot be distinguished.
- The crew, agents and tasks (`crew.py`, `crew.kickoff()`), the language model and the clock are not modelled. Their results are parameters.
- The quiz data file read by `submit_quiz` is a parameter, `questionsByLecture`. A missing or malformed file, which makes the handler raise, is not modelled.
- The `hasattr` chain that picks the task output, `json.loads`, and the second cleanup regex tried after a decode error (main.py line 329) are not modelled.
- The global exception handler is not modelled as a separate operation. It takes `lecture_title` and `course_name` from the request body when the body parses, using "Unknown Topic" and "General Course" for a missing key, and both defaults when the body does not parse. Either way it calls `generate_topic_specific_questions`, whose model covers every title and course name. A title or course name that is not a string is not modelled.
- `get_courses` and `health_check` are not modelled: they return the list or the time unchanged. The mock `AgentsAi` class and the tests are not part of this model.

## Findings

| source | as written | input that shows it | evidently intended | confidence | as-written member | corrected member |
|---|---|---|---|---|---|---|
| backend/agents_ai/src/agents_ai/main.py:527-530 | the machine-learning table tests `"differ"` before the supervised/unsupervised case, and "difference" contains "differ" | the generator's own question "Explain the difference between supervised and unsupervised learning." with a machine-learning lecture is graded against the "differ" list (data, patterns, algorithm, ...) | the supervised/unsupervised list (labeled, unlabeled, target, classification, clustering) | not executed | Grader.SupervisedQuestionShadowed | Grader.SupervisedQuestionGetsItsKeywords |
