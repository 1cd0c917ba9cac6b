/** The random-task picker: which task types a question-type choice asks
    the task generator for. */
module ProblemSelector {
  import opened Wrappers
  import opened TaskTypes

  datatype QuestionType = AllQuestions | OpenQuestions | ClosedQuestions

  /** The picker starts on "all". */
  const InitialQuestionType: QuestionType := AllQuestions

  const OpenTypes: seq<TaskType> := [Open, FillIn]
  const ClosedTypes: seq<TaskType> := [SingleChoice, MultipleChoice, TrueFalse]

  /** The task types answered by writing or drawing rather than picking. */
  predicate WrittenAnswer(t: TaskType) {
    t == Open || t == FillIn
  }

  /** The type filter handed to the generator: none for "all", the
      answer-writing types for "open", the answer-picking types otherwise. */
  function TaskFilter(q: QuestionType): (r: Option<seq<TaskType>>)
    ensures r.None? <==> q == AllQuestions
    ensures r.Some? ==> forall t :: t in r.value <==> (WrittenAnswer(t) <==> q == OpenQuestions)
  {
    match q
    case AllQuestions => None
    case OpenQuestions => Some(OpenTypes)
    case ClosedQuestions => Some(ClosedTypes)
  }

  /** The filters are written with the schema's names. */
  lemma TaskFilterNames()
    ensures [Name(TaskFilter(OpenQuestions).value[0]), Name(TaskFilter(OpenQuestions).value[1])] == ["open", "fill_in"]
    ensures [Name(TaskFilter(ClosedQuestions).value[0]), Name(TaskFilter(ClosedQuestions).value[1]),
             Name(TaskFilter(ClosedQuestions).value[2])] == ["single_choice", "multiple_choice", "true_false"]
  {
  }

  /** The open and closed filters share no type and together list every
      type of the schema, each once. */
  lemma FiltersPartitionTaskTypes()
    ensures forall t :: t in TaskFilter(OpenQuestions).value <==> t !in TaskFilter(ClosedQuestions).value
    ensures |TaskFilter(OpenQuestions).value| + |TaskFilter(ClosedQuestions).value| == |AllTaskTypes|
  {
  }
}
