/**
 * The quiz generator's deterministic parts: the fallback question set chosen from the
 * lecture title and course name, and the slice of the model's raw reply that is handed
 * to the JSON parser.
 */
module QuizQuestions {
  import opened Text
  import opened Wrappers

  /** The topics of the fallback generator, in the order they are tried. */
  datatype QuizTopic = PythonTopic | MachineLearningTopic | NeuralTopic | DataTopic | GeneralTopic

  /** The four specific topics, in the order the generator tries them. */
  const TopicOrder: seq<QuizTopic> := [PythonTopic, MachineLearningTopic, NeuralTopic, DataTopic]

  /** Whether a specific topic's test fires on the lower-cased title and course name. */
  predicate Fires(t: QuizTopic, titleLower: string, courseLower: string) {
    match t
    case PythonTopic => Contains(titleLower, "python") || Contains(courseLower, "python")
    case MachineLearningTopic => Contains(titleLower, "machine learning") || Contains(courseLower, "machine learning")
    case NeuralTopic => Contains(titleLower, "neural") || Contains(courseLower, "deep learning")
    case DataTopic => Contains(titleLower, "data") || Contains(courseLower, "analytics")
    case GeneralTopic => false
  }

  /** The `if`/`elif` chain that picks the topic from the lower-cased inputs: a specific topic
      only when its own test fires. */
  function TopicOf(titleLower: string, courseLower: string): (t: QuizTopic)
    ensures t == GeneralTopic || Fires(t, titleLower, courseLower)
  {
    if Contains(titleLower, "python") || Contains(courseLower, "python") then PythonTopic
    else if Contains(titleLower, "machine learning") || Contains(courseLower, "machine learning") then MachineLearningTopic
    else if Contains(titleLower, "neural") || Contains(courseLower, "deep learning") then NeuralTopic
    else if Contains(titleLower, "data") || Contains(courseLower, "analytics") then DataTopic
    else GeneralTopic
  }

  /** First match wins: the chosen topic fires and no topic tried before it fires;
      the general topic is chosen exactly when none of the four fires. */
  lemma TopicIsFirstMatch(titleLower: string, courseLower: string)
    ensures var t := TopicOf(titleLower, courseLower);
      && (t == GeneralTopic <==> forall k :: 0 <= k < |TopicOrder| ==> !Fires(TopicOrder[k], titleLower, courseLower))
      && (t != GeneralTopic ==>
            exists k :: 0 <= k < |TopicOrder| && TopicOrder[k] == t && Fires(t, titleLower, courseLower)
              && forall j :: 0 <= j < k ==> !Fires(TopicOrder[j], titleLower, courseLower))
  {
    var t := TopicOf(titleLower, courseLower);
    if t == PythonTopic { assert TopicOrder[0] == t; }
    else if t == MachineLearningTopic { assert TopicOrder[1] == t; }
    else if t == NeuralTopic { assert TopicOrder[2] == t; }
    else if t == DataTopic { assert TopicOrder[3] == t; }
  }

  const PythonQuestions: seq<string> := [
    "Explain the key features of Python that make it popular for beginners.",
    "How does Python handle variable declarations differently from languages like Java or C++?",
    "Describe the difference between lists and tuples in Python.",
    "What are Python modules and packages? How do they help with code organization?",
    "Explain how exception handling works in Python with try/except blocks."]

  const MachineLearningQuestions: seq<string> := [
    "What is machine learning and how does it differ from traditional programming?",
    "Explain the difference between supervised and unsupervised learning.",
    "What is the purpose of splitting data into training and test sets?",
    "Describe the concept of overfitting and how to prevent it.",
    "What are some common evaluation metrics for machine learning models?"]

  const NeuralQuestions: seq<string> := [
    "Explain the basic structure of a neural network.",
    "What is the role of activation functions in neural networks?",
    "How do convolutional neural networks (CNNs) differ from regular neural networks?",
    "What is backpropagation and why is it important for training neural networks?",
    "Describe the concept of transfer learning in deep learning."]

  const DataQuestions: seq<string> := [
    "What are the key steps in a typical data analysis workflow?",
    "Explain the difference between descriptive and inferential statistics.",
    "How do you handle missing data in a dataset?",
    "What is feature engineering and why is it important?",
    "Describe different visualization techniques and when you would use each one."]

  /** The five questions of a topic; the general set names the lower-cased title and course. */
  function TopicQuestions(t: QuizTopic, titleLower: string, courseLower: string): (qs: seq<string>)
    ensures |qs| == 5
  {
    match t
    case PythonTopic => PythonQuestions
    case MachineLearningTopic => MachineLearningQuestions
    case NeuralTopic => NeuralQuestions
    case DataTopic => DataQuestions
    case GeneralTopic => GeneralQuestions(titleLower, courseLower)
  }

  /** The default set, built around the lower-cased title and course name. */
  function GeneralQuestions(titleLower: string, courseLower: string): (qs: seq<string>)
    ensures |qs| == 5
  {
    [
      "Explain the core concepts of " + titleLower + ".",
      "How does " + titleLower + " relate to other topics in " + courseLower + "?",
      "What are the practical applications of " + titleLower + "?",
      "Describe the challenges students often face when learning about " + titleLower + ".",
      "How has the field of " + titleLower + " evolved over time?"
    ]
  }

  /** `generate_topic_specific_questions`: always five questions. */
  function GenerateTopicSpecificQuestions(lectureTitle: string, courseName: string): (qs: seq<string>)
    ensures |qs| == 5
  {
    var titleLower, courseLower := Lower(lectureTitle), Lower(courseName);
    TopicQuestions(TopicOf(titleLower, courseLower), titleLower, courseLower)
  }

  /** Matching is case-insensitive: the questions depend only on the lower-cased inputs. */
  lemma {:induction false} GenerateIgnoresCase(lectureTitle: string, courseName: string)
    ensures GenerateTopicSpecificQuestions(lectureTitle, courseName)
         == GenerateTopicSpecificQuestions(Lower(lectureTitle), Lower(courseName))
  {
    LowerIdempotent(lectureTitle);
    LowerIdempotent(courseName);
  }

  /** When no topic matches, every one of the five questions names the lower-cased lecture title. */
  lemma GeneralQuestionsNameTheTitle(lectureTitle: string, courseName: string)
    requires TopicOf(Lower(lectureTitle), Lower(courseName)) == GeneralTopic
    ensures var qs := GenerateTopicSpecificQuestions(lectureTitle, courseName);
      forall k :: 0 <= k < |qs| ==> Contains(qs[k], Lower(lectureTitle))
  {
    var t, c := Lower(lectureTitle), Lower(courseName);
    assert GenerateTopicSpecificQuestions(lectureTitle, courseName) == GeneralQuestions(t, c);
    GeneralQuestionsContainTitle(t, c);
  }

  /** Each default question has the title as an infix. */
  lemma GeneralQuestionsContainTitle(t: string, c: string)
    ensures forall k :: 0 <= k < 5 ==> Contains(GeneralQuestions(t, c)[k], t)
  {
    ContainsInfix("Explain the core concepts of ", t, ".");
    assert "How does " + t + " relate to other topics in " + c + "?"
        == "How does " + t + (" relate to other topics in " + c + "?");
    ContainsInfix("How does ", t, " relate to other topics in " + c + "?");
    ContainsInfix("What are the practical applications of ", t, "?");
    ContainsInfix("Describe the challenges students often face when learning about ", t, ".");
    ContainsInfix("How has the field of ", t, " evolved over time?");
  }

  /** The first position of `c` in `s`, if any. */
  function FirstIndexOf(s: string, c: char): (r: Option<nat>)
    ensures r.Some? ==> r.value < |s| && s[r.value] == c && forall j :: 0 <= j < r.value ==> s[j] != c
    ensures r.None? ==> forall j :: 0 <= j < |s| ==> s[j] != c
  {
    if s == [] then None
    else if s[0] == c then Some(0)
    else match FirstIndexOf(s[1..], c)
      case None => None
      case Some(i) => Some(i + 1)
  }

  /** The last position of `c` in `s`, if any. */
  function LastIndexOf(s: string, c: char): (r: Option<nat>)
    ensures r.Some? ==> r.value < |s| && s[r.value] == c && forall j :: r.value < j < |s| ==> s[j] != c
    ensures r.None? ==> forall j :: 0 <= j < |s| ==> s[j] != c
  {
    if s == [] then None
    else if s[|s| - 1] == c then Some(|s| - 1)
    else LastIndexOf(s[..|s| - 1], c)
  }

  /** A `[` at `i` and a `]` at `j`, with `i` before `j`: a place where `\[(.*)\]` can match. */
  predicate BracketPair(raw: string, i: int, j: int) {
    0 <= i < j < |raw| && raw[i] == '[' && raw[j] == ']'
  }

  ghost predicate HasBracketPair(raw: string) {
    exists i, j :: BracketPair(raw, i, j)
  }

  /** The match `re.search(r'\[(.*)\]', raw, re.DOTALL)` finds: it starts as far left as any
      match can, and the greedy `.*` makes it end as far right as any match can. */
  ghost predicate LeftmostLongest(raw: string, i: int, j: int) {
    && BracketPair(raw, i, j)
    && forall i', j' :: BracketPair(raw, i', j') ==> i <= i' && j' <= j
  }

  /** The text `generate_quiz` hands to `json.loads`: `"[" + group(1) + "]"` when the
      pattern matches, which is the match itself; otherwise the whole raw text. */
  function ExtractJsonText(raw: string): (r: string)
    ensures |r| <= |raw|
    ensures r == raw || (|r| >= 2 && r[0] == '[' && r[|r| - 1] == ']')
  {
    match (FirstIndexOf(raw, '['), LastIndexOf(raw, ']'))
    case (Some(i), Some(j)) => if i < j then "[" + raw[i + 1..j] + "]" else raw
    case _ => raw
  }

  /** What reaches the parser: the leftmost-longest bracketed match when the pattern
      matches at all, and the raw text unchanged when it does not. */
  lemma ExtractJsonTextIsTheMatch(raw: string)
    ensures !HasBracketPair(raw) ==> ExtractJsonText(raw) == raw
    ensures HasBracketPair(raw) ==>
      exists i, j :: LeftmostLongest(raw, i, j) && ExtractJsonText(raw) == raw[i..j + 1]
  {
    if HasBracketPair(raw) {
      ExtractWhenMatched(raw);
    } else {
      ExtractWhenUnmatched(raw);
    }
  }

  lemma ExtractWhenMatched(raw: string)
    requires HasBracketPair(raw)
    ensures exists i, j :: LeftmostLongest(raw, i, j) && ExtractJsonText(raw) == raw[i..j + 1]
  {
    var i0, j0 :| BracketPair(raw, i0, j0);
    var i, j := FirstIndexOf(raw, '[').value, LastIndexOf(raw, ']').value;
    assert i <= i0 < j0 <= j;
    forall i', j' | BracketPair(raw, i', j') ensures i <= i' && j' <= j {
    }
    assert LeftmostLongest(raw, i, j);
    assert "[" + raw[i + 1..j] + "]" == raw[i..j + 1];
    assert ExtractJsonText(raw) == raw[i..j + 1];
  }

  lemma ExtractWhenUnmatched(raw: string)
    requires !HasBracketPair(raw)
    ensures ExtractJsonText(raw) == raw
  {
    match (FirstIndexOf(raw, '['), LastIndexOf(raw, ']'))
    case (Some(i), Some(j)) =>
      assert !BracketPair(raw, i, j);
    case _ =>
  }

  /** Extracting twice gives what extracting once gives: the extracted text is its own match. */
  lemma ExtractJsonTextIdempotent(raw: string)
    ensures ExtractJsonText(ExtractJsonText(raw)) == ExtractJsonText(raw)
  {
    ExtractJsonTextIsTheMatch(raw);
    var r := ExtractJsonText(raw);
    if HasBracketPair(raw) {
      var i, j :| LeftmostLongest(raw, i, j) && r == raw[i..j + 1];
      assert BracketPair(r, 0, |r| - 1);
      ExtractJsonTextIsTheMatch(r);
      var i', j' :| LeftmostLongest(r, i', j') && ExtractJsonText(r) == r[i'..j' + 1];
      assert i' == 0 && j' == |r| - 1;
    }
  }
}
