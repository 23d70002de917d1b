/**
 * The keyword heuristic that grades one free-text quiz answer, and the endpoint that
 * grades a whole quiz answer sheet.
 */
module Grader {
  import opened Text
  import opened Wrappers

  /** An answer shorter than this (in characters) is "too brief". */
  const MinLength: nat := 50
  /** Points taken off a keyword score when the answer is too brief. */
  const LengthPenalty: nat := 30
  /** A keyword-scored answer is correct from this score on. */
  const PassMark: nat := 60
  /** Scores given when no expected keyword could be determined. */
  const NoKeywordScoreAdequate: nat := 70
  const NoKeywordScoreBrief: nat := 30

  datatype Feedback = NoAnswer | TooBrief | Excellent | Good | Partial | NeedsImprovement {
    /** The feedback sentence returned to the student. */
    function Message(): string {
      match this
      case NoAnswer => "No answer provided. Please try to answer the question."
      case TooBrief => "Your answer is too brief. Please provide a more detailed explanation."
      case Excellent => "Excellent answer! You've covered all the key concepts thoroughly."
      case Good => "Good answer. You've addressed most of the important points."
      case Partial => "Partial answer. You've mentioned some relevant concepts, but missed others."
      case NeedsImprovement => "Your answer needs improvement. Try to include more specific details about key concepts."
    }
  }

  /** `matched_keywords` and `expected_keywords_count`. */
  datatype KeywordCounts = KeywordCounts(matched: nat, expected: nat)

  /** The dictionary `analyze_student_answer` returns; `counts` is None for a blank answer,
      whose dictionary has no keyword counters. */
  datatype Analysis = Analysis(
    isCorrect: bool,
    score: int,
    feedback: Feedback,
    question: string,
    answer: string,
    counts: Option<KeywordCounts>)

  /** Where the expected keywords come from: a fixed list of the topic table (possibly empty),
      or the terms of the question and lecture title themselves. */
  datatype KeywordSource = Fixed(keywords: seq<string>) | FromText

  function Min(a: int, b: int): int { if a <= b then a else b }
  function Max(a: int, b: int): int { if a >= b then a else b }

  // ---------------------------------------------------------------------------------------
  // Expected keywords

  function PythonKeywords(q: string): (ks: seq<string>)
    ensures Distinct(ks)
  {
    if Contains(q, "feature") || Contains(q, "popular") then
      ["readability", "easy", "simple", "libraries", "versatile", "interpreted"]
    else if Contains(q, "variable") then ["dynamic", "typing", "declaration", "assignment", "type"]
    else if Contains(q, "list") && Contains(q, "tuple") then ["mutable", "immutable", "parentheses", "brackets", "modify"]
    else if Contains(q, "module") || Contains(q, "package") then ["import", "organization", "reuse", "namespace", "library"]
    else if Contains(q, "exception") then ["try", "except", "catch", "handle", "error", "finally"]
    else []
  }

  const DifferKeywords: seq<string> := ["data", "patterns", "algorithm", "explicit", "programming", "learn"]
  const SupervisedKeywords: seq<string> := ["labeled", "unlabeled", "target", "classification", "clustering"]

  /** The machine-learning keyword table exactly as the source orders its tests. */
  function MachineLearningKeywordsAsWritten(q: string): (ks: seq<string>)
    ensures Distinct(ks)
  {
    if Contains(q, "differ") || Contains(q, "traditional") then DifferKeywords
    else if Contains(q, "supervised") && Contains(q, "unsupervised") then SupervisedKeywords
    else MachineLearningTail(q)
  }

  /** The machine-learning keyword table with the supervised/unsupervised test moved ahead
      of the "differ" test, so that the question the generator asks about it reaches it. */
  function MachineLearningKeywords(q: string): (ks: seq<string>)
    ensures Distinct(ks)
  {
    if Contains(q, "supervised") && Contains(q, "unsupervised") then SupervisedKeywords
    else if Contains(q, "differ") || Contains(q, "traditional") then DifferKeywords
    else MachineLearningTail(q)
  }

  /** The machine-learning tests after the first two. */
  function MachineLearningTail(q: string): (ks: seq<string>)
    ensures Distinct(ks)
  {
    if Contains(q, "training") && Contains(q, "test") then
      ["generalization", "validation", "overfitting", "performance", "evaluate"]
    else if Contains(q, "overfitting") then ["regularization", "validation", "generalize", "complex", "flexible"]
    else if Contains(q, "evaluation") || Contains(q, "metric") then ["accuracy", "precision", "recall", "f1", "auc", "roc"]
    else []
  }

  function NeuralKeywords(q: string): (ks: seq<string>)
    ensures Distinct(ks)
  {
    if Contains(q, "basic structure") || Contains(q, "structure") then
      ["input", "hidden", "output", "layer", "weight", "bias", "neuron"]
    else if Contains(q, "activation") then ["relu", "sigmoid", "tanh", "non-linear", "function"]
    else if Contains(q, "cnn") || Contains(q, "convolutional") then ["filter", "kernel", "convolution", "pooling", "feature", "image"]
    else if Contains(q, "backpropagation") then ["gradient", "descent", "error", "weight", "update", "learning"]
    else if Contains(q, "transfer") then ["pretrained", "model", "feature", "extraction", "fine-tuning"]
    else []
  }

  function DataKeywords(q: string): (ks: seq<string>)
    ensures Distinct(ks)
  {
    if Contains(q, "workflow") || Contains(q, "steps") then
      ["collection", "cleaning", "exploration", "analysis", "visualization", "interpretation"]
    else if Contains(q, "descriptive") && Contains(q, "inferential") then
      ["summarize", "population", "sample", "hypothesis", "testing", "inference"]
    else if Contains(q, "missing") then ["imputation", "deletion", "mean", "median", "mode", "regression"]
    else if Contains(q, "feature") && Contains(q, "engineering") then
      ["transformation", "selection", "creation", "normalization", "scaling"]
    else if Contains(q, "visualization") then ["chart", "graph", "plot", "dashboard", "histogram", "scatter"]
    else []
  }

  /** The topic chain of `analyze_student_answer`, on the lower-cased question, lecture title and
      course name, with the list the machine-learning branch yields passed in. */
  function KeywordSourceWith(q: string, lecture: string, course: string, machineLearning: seq<string>): (r: KeywordSource)
    requires Distinct(machineLearning)
    ensures r.Fixed? ==> Distinct(r.keywords)
  {
    if Contains(q, "python") || Contains(lecture, "python") then Fixed(PythonKeywords(q))
    else if Contains(q, "machine learning") || Contains(lecture, "machine learning") || Contains(course, "machine learning") then
      Fixed(machineLearning)
    else if Contains(q, "neural") || Contains(lecture, "deep learning") || Contains(course, "deep learning") then
      Fixed(NeuralKeywords(q))
    else if Contains(q, "data") || Contains(lecture, "analytics") || Contains(course, "analytics") then
      Fixed(DataKeywords(q))
    else FromText
  }

  /** The expected keywords of `analyze_student_answer` as written; no fixed list repeats a keyword. */
  function KeywordSourceOf(q: string, lecture: string, course: string): (r: KeywordSource)
    ensures r.Fixed? ==> Distinct(r.keywords)
  {
    KeywordSourceWith(q, lecture, course, MachineLearningKeywordsAsWritten(q))
  }

  /** The expected keywords with the machine-learning tests in the corrected order. */
  function CorrectedKeywordSourceOf(q: string, lecture: string, course: string): (r: KeywordSource)
    ensures r.Fixed? ==> Distinct(r.keywords)
  {
    KeywordSourceWith(q, lecture, course, MachineLearningKeywords(q))
  }

  /** Question words that are never taken as key terms. */
  const StopWords: seq<string> :=
    ["what", "explain", "describe", "discuss", "how", "when", "where", "which", "this", "that", "these", "those"]

  /** The key terms of the generic branch: lecture-title words longer than three characters,
      and question words longer than three characters that are not stop words. */
  function KeyTerms(lecture: string, q: string): set<string> {
    (set w | w in Words(lecture) && |w| > 3)
    + (set w | w in Words(q) && |w| > 3 && w !in StopWords)
  }

  /** Every key term is a whitespace-free word of the title or question longer than three
      characters, and never a stop word unless the title supplies it. */
  lemma KeyTermsAreLongWords(lecture: string, q: string)
    ensures forall w :: w in KeyTerms(lecture, q) ==>
      && |w| > 3 && NoSpace(w)
      && (w in Words(lecture) || (w in Words(q) && w !in StopWords))
  {
  }

  /** The loops of the generic branch that fill the `key_terms` set. */
  method CollectKeyTerms(lecture: string, q: string) returns (terms: set<string>)
    ensures terms == KeyTerms(lecture, q)
  {
    terms := {};
    var lectureWords := Words(lecture);
    for i := 0 to |lectureWords|
      invariant terms == set w | w in lectureWords[..i] && |w| > 3
    {
      var term := lectureWords[i];
      assert lectureWords[..i + 1] == lectureWords[..i] + [term];
      if |term| > 3 {
        terms := terms + {term};
      }
    }
    assert lectureWords[..|lectureWords|] == lectureWords;
    ghost var fromLecture := terms;
    var questionWords := Words(q);
    for i := 0 to |questionWords|
      invariant terms == fromLecture + set w | w in questionWords[..i] && |w| > 3 && w !in StopWords
    {
      var term := questionWords[i];
      assert questionWords[..i + 1] == questionWords[..i] + [term];
      if |term| > 3 && term !in StopWords {
        terms := terms + {term};
      }
    }
    assert questionWords[..|questionWords|] == questionWords;
  }

  predicate Distinct(xs: seq<string>) {
    forall i, j :: 0 <= i < j < |xs| ==> xs[i] != xs[j]
  }

  /** `list(key_terms)`: the terms in some order (Python's set order is not specified). */
  method ListOfTerms(terms: set<string>) returns (xs: seq<string>)
    ensures Distinct(xs) && |xs| == |terms|
    ensures forall x :: x in xs <==> x in terms
  {
    xs := [];
    var rest := terms;
    while rest != {}
      invariant rest <= terms
      invariant Distinct(xs)
      invariant forall x :: x in xs <==> x in terms && x !in rest
      invariant |xs| + |rest| == |terms|
      decreases rest
    {
      var x :| x in rest;
      xs := xs + [x];
      rest := rest - {x};
    }
  }

  /** `sum(1 for keyword in expected_keywords if keyword in answer_lower)`. */
  function CountMatches(keywords: seq<string>, answer: string): (n: nat)
    ensures n <= |keywords|
  {
    if keywords == [] then 0
    else (if Contains(answer, keywords[0]) then 1 else 0) + CountMatches(keywords[1..], answer)
  }

  /** The distinct keywords of a list that occur in the answer. */
  function FoundKeywords(keywords: seq<string>, answer: string): set<string> {
    set k | k in keywords && Contains(answer, k)
  }

  /** The key terms that occur in the answer. */
  function FoundTerms(terms: set<string>, answer: string): set<string> {
    set k | k in terms && Contains(answer, k)
  }

  /** Over a list without repeats, the match count is the number of distinct keywords found,
      whatever the order of the list. */
  lemma {:induction false} CountMatchesOfDistinct(keywords: seq<string>, answer: string)
    requires Distinct(keywords)
    ensures CountMatches(keywords, answer) == |FoundKeywords(keywords, answer)|
  {
    if keywords != [] {
      DistinctTail(keywords);
      CountMatchesOfDistinct(keywords[1..], answer);
      FoundKeywordsSplit(keywords, answer);
    } else {
      assert FoundKeywords(keywords, answer) == {};
    }
  }

  /** The tail of a list without repeats has none, and does not hold the head. */
  lemma DistinctTail(keywords: seq<string>)
    requires Distinct(keywords) && keywords != []
    ensures Distinct(keywords[1..]) && keywords[0] !in keywords[1..]
  {
    var rest := keywords[1..];
    forall i, j | 0 <= i < j < |rest| ensures rest[i] != rest[j] {
      assert rest[i] == keywords[i + 1] && rest[j] == keywords[j + 1];
    }
    forall j | 0 <= j < |rest| ensures rest[j] != keywords[0] {
      assert rest[j] == keywords[j + 1];
    }
  }

  /** The keywords found in a list are those found in its tail, plus the head when found. */
  lemma FoundKeywordsSplit(keywords: seq<string>, answer: string)
    requires keywords != [] && keywords[0] !in keywords[1..]
    ensures keywords[0] !in FoundKeywords(keywords[1..], answer)
    ensures FoundKeywords(keywords, answer)
         == FoundKeywords(keywords[1..], answer) + (if Contains(answer, keywords[0]) then {keywords[0]} else {})
  {
    assert keywords == [keywords[0]] + keywords[1..];
  }

  // ---------------------------------------------------------------------------------------
  // Scoring, as a specification

  /** The keyword counts of a non-blank answer; all inputs are lower-cased. */
  function KeywordStats(q: string, answer: string, lecture: string, course: string): (c: KeywordCounts)
    ensures c.matched <= c.expected
  {
    match KeywordSourceOf(q, lecture, course)
    case Fixed(keywords) => KeywordCounts(CountMatches(keywords, answer), |keywords|)
    case FromText =>
      var terms := KeyTerms(lecture, q);
      var found := FoundTerms(terms, answer);
      SubsetSize(found, terms);
      KeywordCounts(|found|, |terms|)
  }

  /** The match count is the number of distinct expected keywords, or key terms, that occur in
      the answer; the expected count is the length of the fixed list or the number of key terms. */
  lemma KeywordStatsCountsDistinct(q: string, answer: string, lecture: string, course: string)
    ensures var c := KeywordStats(q, answer, lecture, course);
      match KeywordSourceOf(q, lecture, course)
      case Fixed(keywords) => c == KeywordCounts(|FoundKeywords(keywords, answer)|, |keywords|)
      case FromText => c == KeywordCounts(|FoundTerms(KeyTerms(lecture, q), answer)|, |KeyTerms(lecture, q)|)
  {
    match KeywordSourceOf(q, lecture, course)
    case Fixed(keywords) => CountMatchesOfDistinct(keywords, answer);
    case FromText =>
  }

  /** A subset is no larger than its superset. */
  lemma {:induction false} SubsetSize<T>(a: set<T>, b: set<T>)
    requires a <= b
    ensures |a| <= |b|
    decreases a
  {
    if a != {} {
      var x :| x in a;
      SubsetSize(a - {x}, b - {x});
    }
  }

  /** The score of a non-blank answer from its keyword counts and its length in characters. */
  function Score(c: KeywordCounts, answerLength: nat): (s: int)
    ensures 0 <= s <= 100
  {
    if c.expected == 0 then
      (if answerLength >= MinLength then NoKeywordScoreAdequate else NoKeywordScoreBrief)
    else
      var ratioScore := Min(100, Max(0, 100 * c.matched / c.expected));
      if answerLength < MinLength then Max(0, ratioScore - LengthPenalty) else ratioScore
  }

  /** Correct: long enough when no keyword is expected, else a score at the pass mark; an answer
      of adequate length passes exactly when it names at least 60% of the expected keywords. */
  function IsCorrect(c: KeywordCounts, answerLength: nat): (ok: bool)
    ensures c.expected == 0 ==> (ok <==> answerLength >= MinLength)
    ensures 0 < c.expected && c.matched <= c.expected && answerLength >= MinLength ==>
      (ok <==> 100 * c.matched >= PassMark * c.expected)
  {
    if c.expected == 0 then answerLength >= MinLength
    else
      if c.matched <= c.expected then
        PercentAtMostHundred(c.matched, c.expected);
        PassMarkIsPercentOfKeywords(c.matched, c.expected);
        Score(c, answerLength) >= PassMark
      else Score(c, answerLength) >= PassMark
  }

  /** The floored percentage reaches the pass mark exactly when the unfloored one does. */
  lemma PassMarkIsPercentOfKeywords(matched: nat, expected: nat)
    requires 0 < expected
    ensures 100 * matched / expected >= PassMark <==> 100 * matched >= PassMark * expected
  {
    var p := 100 * matched / expected;
    assert expected * p <= 100 * matched < expected * p + expected;
    if p >= PassMark {
      MulMonotone(expected, PassMark, p);
    } else {
      MulMonotone(expected, p + 1, PassMark);
    }
  }

  /** The feedback: "too brief" exactly below the minimum length, whatever the score; otherwise
      the bands 90, 70 and 50. */
  function FeedbackFor(answerLength: nat, score: int): (f: Feedback)
    ensures f == TooBrief <==> answerLength < MinLength
    ensures answerLength >= MinLength ==>
            && (f == Excellent <==> score >= 90)
            && (f == Good <==> 70 <= score < 90)
            && (f == Partial <==> 50 <= score < 70)
            && (f == NeedsImprovement <==> score < 50)
  {
    if answerLength < MinLength then TooBrief
    else if score >= 90 then Excellent
    else if score >= 70 then Good
    else if score >= 50 then Partial
    else NeedsImprovement
  }

  /** What `analyze_student_answer` returns for one question and answer: it echoes the question
      and answer, scores in [0, 100], carries keyword counters exactly when the answer is not
      blank, and never matches more keywords than it expects. */
  function AnswerAnalysis(question: string, answer: string, lectureTitle: string, courseName: string): (r: Analysis)
    ensures r.question == question && r.answer == answer
    ensures 0 <= r.score <= 100
    ensures r.counts.None? <==> AllSpace(answer)
    ensures r.counts.Some? ==> r.counts.value.matched <= r.counts.value.expected
  {
    StripEmptyIff(answer);
    if Strip(answer) == [] then
      Analysis(false, 0, NoAnswer, question, answer, None)
    else
      var c := KeywordStats(Lower(question), Lower(answer), Lower(lectureTitle), Lower(courseName));
      var s := Score(c, |answer|);
      Analysis(IsCorrect(c, |answer|), s, FeedbackFor(|answer|, s), question, answer, Some(c))
  }

  // ---------------------------------------------------------------------------------------
  // Properties of the grading

  /** A blank answer (empty or whitespace only) is incorrect, scores 0 and carries no keyword
      counters; any other answer carries them. */
  lemma BlankAnswer(question: string, answer: string, lectureTitle: string, courseName: string)
    ensures var r := AnswerAnalysis(question, answer, lectureTitle, courseName);
      && (r.counts.None? <==> AllSpace(answer))
      && (AllSpace(answer) ==> !r.isCorrect && r.score == 0 && r.feedback == NoAnswer)
  {
    StripEmptyIff(answer);
  }

  /** With no expected keywords only the length counts: 70 and correct from 50 characters on,
      30 and incorrect below. */
  lemma NoKeywordsScoring(question: string, answer: string, lectureTitle: string, courseName: string)
    requires !AllSpace(answer)
    ensures var r := AnswerAnalysis(question, answer, lectureTitle, courseName);
      r.counts.Some? && (r.counts.value.expected == 0 ==>
        if |answer| >= 50 then r.score == 70 && r.isCorrect else r.score == 30 && !r.isCorrect)
  {
    StripEmptyIff(answer);
  }

  /** With expected keywords the score is the floored percentage of keywords found, less 30
      (but not below 0) for a too-brief answer, and the answer is correct iff the score is at least 60. */
  lemma KeywordScoring(question: string, answer: string, lectureTitle: string, courseName: string)
    requires !AllSpace(answer)
    ensures var r := AnswerAnalysis(question, answer, lectureTitle, courseName);
      r.counts.Some? && (r.counts.value.expected > 0 ==>
        var percent := 100 * r.counts.value.matched / r.counts.value.expected;
        && r.score == (if |answer| >= 50 then percent else Max(0, percent - 30))
        && (r.isCorrect <==> r.score >= 60))
  {
    StripEmptyIff(answer);
    var r := AnswerAnalysis(question, answer, lectureTitle, courseName);
    var c := r.counts.value;
    assert r.score == Score(c, |answer|) && r.isCorrect == IsCorrect(c, |answer|);
    if c.expected > 0 {
      ScoreFromPercent(c, |answer|);
    }
  }

  /** The keyword score spelled out from the floored percentage. */
  lemma ScoreFromPercent(c: KeywordCounts, answerLength: nat)
    requires 0 < c.expected && c.matched <= c.expected
    ensures var percent := 100 * c.matched / c.expected;
      && Score(c, answerLength) == (if answerLength >= 50 then percent else Max(0, percent - 30))
      && (IsCorrect(c, answerLength) <==> Score(c, answerLength) >= 60)
  {
    PercentAtMostHundred(c.matched, c.expected);
  }

  /** Matching at most all keywords gives a percentage of at most 100. */
  lemma PercentAtMostHundred(matched: nat, expected: nat)
    requires 0 < expected && matched <= expected
    ensures 0 <= 100 * matched / expected <= 100
  {
    assert 100 * matched <= 100 * expected;
    DivMonotone(100 * matched, 100 * expected, expected);
    assert 100 * expected / expected == 100;
  }

  /** Floored division is monotone in the dividend. */
  lemma {:induction false} DivMonotone(a: nat, b: nat, d: nat)
    requires 0 < d && a <= b
    ensures a / d <= b / d
  {
    var qa, qb := a / d, b / d;
    assert d * qa <= a && b < d * qb + d;
    if qa > qb {
      MulMonotone(d, qb + 1, qa);
      assert false;
    }
  }

  lemma MulMonotone(d: nat, x: nat, y: nat)
    requires x <= y
    ensures d * x <= d * y
  {
  }

  /** The "too brief" message wins over every score band; otherwise the bands are 90, 70 and 50. */
  lemma FeedbackPrecedence(question: string, answer: string, lectureTitle: string, courseName: string)
    requires !AllSpace(answer)
    ensures var r := AnswerAnalysis(question, answer, lectureTitle, courseName);
      && (r.feedback == TooBrief <==> |answer| < 50)
      && (|answer| >= 50 ==>
            && (r.feedback == Excellent <==> r.score >= 90)
            && (r.feedback == Good <==> 70 <= r.score < 90)
            && (r.feedback == Partial <==> 50 <= r.score < 70)
            && (r.feedback == NeedsImprovement <==> r.score < 50))
  {
    StripEmptyIff(answer);
  }

  /** Finding more keywords never lowers the score. */
  lemma ScoreMonotone(m1: nat, m2: nat, expected: nat, answerLength: nat)
    requires m1 <= m2 <= expected
    ensures Score(KeywordCounts(m1, expected), answerLength) <= Score(KeywordCounts(m2, expected), answerLength)
  {
    if expected > 0 {
      DivMonotone(100 * m1, 100 * m2, expected);
    }
  }

  /** A too-brief answer can be correct only by naming at least 90% of the expected keywords. */
  lemma BriefAnswerNeedsNinetyPercent(c: KeywordCounts, answerLength: nat)
    requires answerLength < MinLength && c.expected > 0 && c.matched <= c.expected
    requires IsCorrect(c, answerLength)
    ensures 10 * c.matched >= 9 * c.expected
  {
    var p := 100 * c.matched / c.expected;
    PercentAtMostHundred(c.matched, c.expected);
    assert p >= 90;
    assert c.expected * p <= 100 * c.matched;
    assert c.expected * 90 <= c.expected * p;
  }

  /** An answer of adequate length that names every expected keyword scores 100, is correct
      and gets the top feedback. */
  lemma FullMatchIsExcellent(c: KeywordCounts, answerLength: nat)
    requires c.expected > 0 && c.matched == c.expected && answerLength >= MinLength
    ensures Score(c, answerLength) == 100 && IsCorrect(c, answerLength)
    ensures FeedbackFor(answerLength, Score(c, answerLength)) == Excellent
  {
    assert 100 * c.matched / c.expected == 100;
  }

  // ---------------------------------------------------------------------------------------
  // The machine-learning keyword order

  /** As written, a machine-learning question that names both kinds of learning but also
      says "differ" (as "difference" does) is graded against the "differ" list. */
  lemma SupervisedQuestionShadowed(q: string)
    requires Contains(q, "differ") && Contains(q, "supervised") && Contains(q, "unsupervised")
    ensures MachineLearningKeywordsAsWritten(q) == DifferKeywords != SupervisedKeywords
  {
  }

  /** With the corrected order such a question is graded against the supervised-learning list. */
  lemma SupervisedQuestionGetsItsKeywords(q: string)
    requires Contains(q, "supervised") && Contains(q, "unsupervised")
    ensures MachineLearningKeywords(q) == SupervisedKeywords
  {
  }

  /** The generator's supervised-learning question, lower-cased as `analyze_student_answer` sees it. */
  const SupervisedQuestion: string :=
    "explain the " + "differ" + "ence between " + "supervised" + " and " + "unsupervised" + " learning."

  /** The generator's own question is one of them: as written it gets the wrong list, corrected the right one. */
  lemma GeneratedSupervisedQuestion()
    ensures MachineLearningKeywordsAsWritten(SupervisedQuestion) == DifferKeywords
    ensures MachineLearningKeywords(SupervisedQuestion) == SupervisedKeywords
  {
    ContainsInfix("explain the ", "differ", "ence between " + "supervised" + " and " + "unsupervised" + " learning.");
    ContainsInfix("explain the " + "differ" + "ence between ", "supervised", " and " + "unsupervised" + " learning.");
    ContainsInfix("explain the " + "differ" + "ence between " + "supervised" + " and ", "unsupervised", " learning.");
    assert SupervisedQuestion
        == "explain the " + "differ" + ("ence between " + "supervised" + " and " + "unsupervised" + " learning.");
    assert SupervisedQuestion
        == ("explain the " + "differ" + "ence between ") + "supervised" + (" and " + "unsupervised" + " learning.");
  }

  /** The correction changes the expected keywords only for questions that mention both
      "supervised" and "unsupervised" and also "differ" or "traditional". */
  lemma CorrectionIsLocal(q: string, lecture: string, course: string)
    ensures CorrectedKeywordSourceOf(q, lecture, course) != KeywordSourceOf(q, lecture, course) ==>
      && Contains(q, "supervised") && Contains(q, "unsupervised")
      && (Contains(q, "differ") || Contains(q, "traditional"))
  {
    if CorrectedKeywordSourceOf(q, lecture, course) != KeywordSourceOf(q, lecture, course) {
      assert MachineLearningKeywords(q) != MachineLearningKeywordsAsWritten(q);
    }
  }

  // ---------------------------------------------------------------------------------------
  // The endpoints

  /** The keyword-matching half of `analyze_student_answer`, on the lower-cased texts:
      the expected keywords (filling and listing the key-term set in the generic branch)
      and how many of them occur in the answer. */
  method CountKeywords(q: string, answer: string, lecture: string, course: string) returns (counts: KeywordCounts)
    ensures counts == KeywordStats(q, answer, lecture, course)
  {
    var expected: seq<string>;
    match KeywordSourceOf(q, lecture, course) {
      case Fixed(keywords) =>
        expected := keywords;
      case FromText =>
        var terms := CollectKeyTerms(lecture, q);
        expected := ListOfTerms(terms);
        CountMatchesOfDistinct(expected, answer);
        assert FoundKeywords(expected, answer) == FoundTerms(terms, answer);
    }
    var matches := CountMatches(expected, answer);
    counts := KeywordCounts(matches, |expected|);
  }

  /** `analyze_student_answer`. */
  method AnalyzeStudentAnswer(question: string, answer: string, lectureTitle: string, courseName: string)
    returns (r: Analysis)
    ensures r == AnswerAnalysis(question, answer, lectureTitle, courseName)
  {
    if Strip(answer) == [] {
      return Analysis(false, 0, NoAnswer, question, answer, None);
    }
    var counts := CountKeywords(Lower(question), Lower(answer), Lower(lectureTitle), Lower(courseName));
    var lengthAdequate := |answer| >= MinLength;
    var score: int;
    var isCorrect: bool;
    if counts.expected == 0 {
      score := if lengthAdequate then NoKeywordScoreAdequate else NoKeywordScoreBrief;
      isCorrect := lengthAdequate;
    } else {
      score := Min(100, Max(0, 100 * counts.matched / counts.expected));
      if !lengthAdequate {
        score := Max(0, score - LengthPenalty);
      }
      isCorrect := score >= PassMark;
    }
    assert score == Score(counts, |answer|) && isCorrect == IsCorrect(counts, |answer|);
    var feedback := FeedbackFor(|answer|, score);
    r := Analysis(isCorrect, score, feedback, question, answer, Some(counts));
  }

  /** The reply of `analyze_answers`: 400 with no results when the counts differ, else 200. */
  datatype AnswersReply = CountMismatch | Analysed(overallScore: real, results: seq<Analysis>) {
    function Status(): int { if CountMismatch? then 400 else 200 }
    function Results(): seq<Analysis> { if CountMismatch? then [] else results }
  }

  /** `sum(1 for result in results if result["is_correct"])`. */
  function CorrectCount(results: seq<Analysis>): (n: nat)
    ensures n <= |results|
    ensures n == |results| <==> forall k :: 0 <= k < |results| ==> results[k].isCorrect
    ensures n == 0 <==> forall k :: 0 <= k < |results| ==> !results[k].isCorrect
  {
    if results == [] then 0
    else (if results[0].isCorrect then 1 else 0) + CorrectCount(results[1..])
  }

  /** The percentage of correct answers, 0 for an empty sheet. It lies in [0, 100]; it is 100
      exactly when the sheet is non-empty and every answer is correct, and 0 exactly when none is. */
  function OverallScore(results: seq<Analysis>): (p: real)
    ensures 0.0 <= p <= 100.0
    ensures p == 100.0 <==> |results| > 0 && forall k :: 0 <= k < |results| ==> results[k].isCorrect
    ensures p == 0.0 <==> forall k :: 0 <= k < |results| ==> !results[k].isCorrect
  {
    if |results| > 0 then
      PercentOfCount(CorrectCount(results), |results|);
      (CorrectCount(results) as real / |results| as real) * 100.0
    else 0.0
  }

  /** A count out of a positive total, as a percentage, lies in [0, 100] and reaches either
      end exactly when the count does. */
  lemma PercentOfCount(count: nat, total: nat)
    requires 0 < total && count <= total
    ensures 0.0 <= (count as real / total as real) * 100.0 <= 100.0
    ensures (count as real / total as real) * 100.0 == 100.0 <==> count == total
    ensures (count as real / total as real) * 100.0 == 0.0 <==> count == 0
  {
    var x, y := count as real, total as real;
    var ratio := x / y;
    assert ratio * y == x;
  }

  /** Extending the first `i` elements of `xs` by `xs[i]` gives the first `i + 1`. */
  lemma SnocPrefix<T>(xs: seq<T>, i: nat, prefix: seq<T>, x: T)
    requires i < |xs| && prefix == xs[..i] && xs[i] == x
    ensures prefix + [x] == xs[..i + 1]
  {
    assert xs[..i + 1] == xs[..i] + [xs[i]];
  }

  /** `analyze_answers`: one analysis per question/answer pair, in order. */
  method AnalyzeAnswers(lectureTitle: string, courseName: string, questions: seq<string>, answers: seq<string>)
    returns (reply: AnswersReply)
    ensures reply.CountMismatch? <==> |questions| != |answers|
    ensures reply.Status() == 400 <==> |questions| != |answers|
    ensures reply.CountMismatch? ==> reply.Results() == []
    ensures reply.Analysed? ==> reply.Status() == 200 && reply.Results() == reply.results
    ensures reply.Analysed? ==>
      && |reply.results| == |questions|
      && (forall k :: 0 <= k < |questions| ==>
            reply.results[k] == AnswerAnalysis(questions[k], answers[k], lectureTitle, courseName))
      && reply.overallScore == OverallScore(reply.results)
  {
    if |questions| != |answers| {
      return CountMismatch;
    }
    ghost var expected := seq(|questions|, k requires 0 <= k < |questions| =>
      AnswerAnalysis(questions[k], answers[k], lectureTitle, courseName));
    var results: seq<Analysis> := [];
    for i := 0 to |questions|
      invariant results == expected[..i]
    {
      var analysis := AnalyzeStudentAnswer(questions[i], answers[i], lectureTitle, courseName);
      SnocPrefix(expected, i, results, analysis);
      results := results + [analysis];
    }
    assert results == expected;
    var correctCount := CorrectCount(results);
    var totalCount := |results|;
    var overallScore := if totalCount > 0 then (correctCount as real / totalCount as real) * 100.0 else 0.0;
    reply := Analysed(overallScore, results);
  }
}
