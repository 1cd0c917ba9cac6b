/** The answer panel of a task: how each closed task type is graded, when
    the submit button is disabled, and how the answer state is edited. */
module AnswerSubmission {
  import opened Wrappers
  import opened TextOps
  import opened TaskTypes
  import opened ArrayMethods

  /** One entry of the task's `options` list. Only the fields the panel
      reads are kept; `isTrue` may be absent on an option. */
  datatype TaskOption = TaskOption(id: string, value: string, correctAnswer: string, isCorrect: bool, isTrue: Option<bool>)

  /** What the panel hands to its `onSubmit` callback. */
  datatype Answer =
    | ImageAnswer(image: Option<string>)
    | FillInAnswer(fillIn: map<string, string>)
    | SingleChoiceAnswer(choice: string)
    | MultipleChoiceAnswer(choices: seq<string>)
    | TrueFalseAnswer(verdicts: map<string, bool>)
    | NoAnswer

  /** The JSON body the grading service answers for an open task. The panel
      reads it whatever the status, so an error body `{error}` (status 400 or
      500) arrives as `ErrorBody`: no verdict, no points, no reasoning. */
  datatype OpenGrade = OpenGrade(isCorrect: bool, points: Option<int>, reasoning: Option<string>)

  /** An error body: its missing `isCorrect` is falsy, and its missing
      `points` and `reasoning` overwrite those of an earlier reply. */
  const ErrorBody := OpenGrade(false, None, None)

  datatype Grading = Grading(answer: Answer, isCorrect: bool)

  // ---------------------------------------------------------------------
  // Grading of the closed task types

  /** A fill-in field is right when an answer was entered for it and it
      equals the expected text up to letter case. */
  predicate FillInMatches(answers: map<string, string>, o: TaskOption) {
    o.id in answers && Lower(answers[o.id]) == Lower(o.correctAnswer)
  }

  function FillInMatch(answers: map<string, string>): TaskOption -> bool {
    (o: TaskOption) => FillInMatches(answers, o)
  }

  /** Fill-in grading: no option list grades false; an empty list grades true. */
  function FillInCorrect(options: Option<seq<TaskOption>>, answers: map<string, string>): (r: bool)
    ensures r <==> options.Some? && forall i :: 0 <= i < |options.value| ==> FillInMatches(answers, options.value[i])
  {
    if options.None? then false
    else
      EveryIff(options.value, FillInMatch(answers));
      Every(options.value, FillInMatch(answers))
  }

  function HasValue(v: string): TaskOption -> bool {
    (o: TaskOption) => o.value == v
  }

  /** Single-choice grading: the first option carrying the selected value
      decides; when none carries it the answer is wrong. */
  function SingleChoiceCorrect(options: Option<seq<TaskOption>>, selected: string): (r: bool)
    ensures r <==> (options.Some? &&
      exists i :: 0 <= i < |options.value| && options.value[i].value == selected && options.value[i].isCorrect &&
        forall j :: 0 <= j < i ==> options.value[j].value != selected)
  {
    if options.None? then false
    else
      var found := Find(options.value, HasValue(selected));
      FindFirst(options.value, HasValue(selected));
      FirstMatchUnique(options.value, selected);
      found.Some? && found.value.isCorrect
  }

  /** Two indices that are each the first to carry a value coincide. */
  lemma FirstMatchUnique(xs: seq<TaskOption>, v: string)
    ensures forall i, k {:trigger xs[i], xs[k]} ::
      0 <= i < |xs| && 0 <= k < |xs| && xs[i].value == v && xs[k].value == v &&
      (forall j :: 0 <= j < i ==> xs[j].value != v) && (forall j :: 0 <= j < k ==> xs[j].value != v)
      ==> i == k
  {
  }

  function IsCorrectOption(): TaskOption -> bool {
    (o: TaskOption) => o.isCorrect
  }

  function OptionValue(): TaskOption -> string {
    (o: TaskOption) => o.value
  }

  /** How many options are marked correct, repeated values counted. */
  function CorrectCount(xs: seq<TaskOption>): nat
    decreases xs
  {
    if xs == [] then 0 else (if xs[0].isCorrect then 1 else 0) + CorrectCount(xs[1..])
  }

  /** The values of the options marked correct, in order; none without a list. */
  function CorrectValues(options: Option<seq<TaskOption>>): (r: seq<string>)
    ensures options.None? ==> r == []
    ensures options.Some? ==> |r| == CorrectCount(options.value) <= |options.value|
    ensures forall v :: v in r <==> options.Some? && exists o :: o in options.value && o.isCorrect && o.value == v
  {
    if options.None? then []
    else
      var kept := Filter(options.value, IsCorrectOption());
      var r := Map(kept, OptionValue());
      CorrectValuesMembers(options.value, kept, r);
      FilterCountsCorrect(options.value);
      r
  }

  lemma {:induction false} FilterCountsCorrect(xs: seq<TaskOption>)
    ensures |Filter(xs, IsCorrectOption())| == CorrectCount(xs) <= |xs|
    decreases xs
  {
    if xs != [] {
      FilterCountsCorrect(xs[1..]);
    }
  }

  /** The correct values of two option lists one after the other are those of
      the first list followed by those of the second: the order is kept. */
  lemma CorrectValuesAppend(a: seq<TaskOption>, b: seq<TaskOption>)
    ensures CorrectValues(Some(a + b)) == CorrectValues(Some(a)) + CorrectValues(Some(b))
  {
    FilterAppend(a, b, IsCorrectOption());
    MapAppend(Filter(a, IsCorrectOption()), Filter(b, IsCorrectOption()), OptionValue());
  }

  /** One option contributes its value exactly when it is marked correct. */
  lemma CorrectValuesSingle(o: TaskOption)
    ensures CorrectValues(Some([o])) == if o.isCorrect then [o.value] else []
  {
    assert [o][1..] == [];
  }

  /** Two correct options with the same value need two selections: one
      selection of that value grades wrong. */
  lemma RepeatedCorrectValueNeedsTwo(o: TaskOption)
    requires o.isCorrect
    ensures !MultipleChoiceCorrect(Some([o, o]), [o.value])
  {
    assert [o, o][1..] == [o] && [o][1..] == [];
    assert CorrectCount([o]) == 1;
    assert CorrectCount([o, o]) == 2;
  }

  lemma CorrectValuesMembers(xs: seq<TaskOption>, kept: seq<TaskOption>, r: seq<string>)
    requires kept == Filter(xs, IsCorrectOption()) && r == Map(kept, OptionValue())
    ensures forall v :: v in r <==> exists o :: o in xs && o.isCorrect && o.value == v
  {
    forall o ensures o in kept <==> o in xs && o.isCorrect {
      FilterMembers(xs, IsCorrectOption(), o);
    }
    MapMembers(kept, OptionValue());
  }

  /** Multiple-choice grading: as many selections as correct options, and
      every correct value selected. */
  function MultipleChoiceCorrect(options: Option<seq<TaskOption>>, selected: seq<string>): (r: bool)
    ensures r <==> |CorrectValues(options)| == |selected| && forall v :: v in CorrectValues(options) ==> v in selected
  {
    var correct := CorrectValues(options);
    EveryIff(correct, IsSelected(selected));
    |correct| == |selected| && Every(correct, IsSelected(selected))
  }

  function IsSelected(selected: seq<string>): string -> bool {
    (v: string) => v in selected
  }

  /** Without options there are no correct values, so exactly the empty
      selection grades as correct. */
  lemma MultipleChoiceWithoutOptions(selected: seq<string>)
    ensures MultipleChoiceCorrect(None, selected) <==> selected == []
  {
    assert CorrectValues(None) == [];
  }

  /** With no repeated values among the correct options or the selections,
      the count-and-cover test is exactly equality of the two sets. */
  lemma MultipleChoiceCorrectIffSameSet(options: Option<seq<TaskOption>>, selected: seq<string>)
    requires NoDuplicates(CorrectValues(options)) && NoDuplicates(selected)
    ensures MultipleChoiceCorrect(options, selected) <==>
      (set v | v in CorrectValues(options)) == (set v | v in selected)
  {
    var correct := CorrectValues(options);
    var cs := set v | v in correct;
    var ss := set v | v in selected;
    DistinctCardinality(correct);
    DistinctCardinality(selected);
    if MultipleChoiceCorrect(options, selected) {
      assert cs <= ss;
      SubsetSameSize(cs, ss);
    }
    if cs == ss {
      forall v | v in correct ensures v in selected {
        assert v in cs;
      }
    }
  }

  /** A subset as large as its superset is the whole superset. */
  lemma SubsetSameSize<T>(a: set<T>, b: set<T>)
    requires a <= b && |a| == |b|
    ensures a == b
  {
    var rest := b - a;
    assert b == a + rest && a * rest == {};
    assert |rest| == 0;
  }

  /** The verdict recorded for an option, or nothing when it was not answered. */
  function Verdict(answers: map<string, bool>, id: string): Option<bool> {
    if id in answers then Some(answers[id]) else None
  }

  predicate TrueFalseMatches(answers: map<string, bool>, o: TaskOption) {
    Verdict(answers, o.id) == o.isTrue
  }

  function TrueFalseMatch(answers: map<string, bool>): TaskOption -> bool {
    (o: TaskOption) => TrueFalseMatches(answers, o)
  }

  /** True/false grading: every recorded verdict strictly equals the option's
      `isTrue`, a missing verdict equalling only a missing `isTrue`. */
  function TrueFalseCorrect(options: Option<seq<TaskOption>>, answers: map<string, bool>): (r: bool)
    ensures r <==> options.Some? && forall i :: 0 <= i < |options.value| ==> TrueFalseMatches(answers, options.value[i])
  {
    if options.None? then false
    else
      EveryIff(options.value, TrueFalseMatch(answers));
      Every(options.value, TrueFalseMatch(answers))
  }

  /** When every option states whether it is true, an unanswered option
      makes the answer wrong. */
  lemma TrueFalseUnansweredIsWrong(options: seq<TaskOption>, answers: map<string, bool>, i: nat)
    requires i < |options| && options[i].isTrue.Some? && options[i].id !in answers
    ensures !TrueFalseCorrect(Some(options), answers)
  {
    assert !TrueFalseMatches(answers, options[i]);
  }

  /** The grading switch of the submit handler; `open` is the body the
      grading service replied with (`ErrorBody` for an error reply), nothing
      when the request or the JSON parsing threw. */
  function Grade(taskType: string, options: Option<seq<TaskOption>>, fillIn: map<string, string>, single: string,
                 multiple: seq<string>, trueFalse: map<string, bool>, open: Option<OpenGrade>, image: Option<string>): (g: Grading)
    ensures Parse(taskType).None? ==> g == Grading(NoAnswer, false)
    ensures Parse(taskType) == Some(Open) ==> g.answer == ImageAnswer(image) && (g.isCorrect <==> open.Some? && open.value.isCorrect)
    ensures Parse(taskType) == Some(FillIn) ==>
      g.answer == FillInAnswer(fillIn) && g.isCorrect == FillInCorrect(options, fillIn) && (g.isCorrect ==> options.Some?)
    ensures Parse(taskType) == Some(SingleChoice) ==>
      g.answer == SingleChoiceAnswer(single) && g.isCorrect == SingleChoiceCorrect(options, single) && (g.isCorrect ==> options.Some?)
    ensures Parse(taskType) == Some(MultipleChoice) ==>
      g.answer == MultipleChoiceAnswer(multiple) && g.isCorrect == MultipleChoiceCorrect(options, multiple)
    ensures Parse(taskType) == Some(TrueFalse) ==>
      g.answer == TrueFalseAnswer(trueFalse) && g.isCorrect == TrueFalseCorrect(options, trueFalse) && (g.isCorrect ==> options.Some?)
  {
    match Parse(taskType)
    case None => Grading(NoAnswer, false)
    case Some(Open) => Grading(ImageAnswer(image), open.Some? && open.value.isCorrect)
    case Some(FillIn) => Grading(FillInAnswer(fillIn), FillInCorrect(options, fillIn))
    case Some(SingleChoice) => Grading(SingleChoiceAnswer(single), SingleChoiceCorrect(options, single))
    case Some(MultipleChoice) => Grading(MultipleChoiceAnswer(multiple), MultipleChoiceCorrect(options, multiple))
    case Some(TrueFalse) => Grading(TrueFalseAnswer(trueFalse), TrueFalseCorrect(options, trueFalse))
  }

  /** An error reply grades an open task as wrong. */
  lemma ErrorBodyGradesWrong(taskType: string, options: Option<seq<TaskOption>>, fillIn: map<string, string>, single: string,
                             multiple: seq<string>, trueFalse: map<string, bool>, image: Option<string>)
    requires Parse(taskType) == Some(Open)
    ensures !Grade(taskType, options, fillIn, single, multiple, trueFalse, Some(ErrorBody), image).isCorrect
  {
  }

  // ---------------------------------------------------------------------
  // When the submit button is disabled

  /** A fill-in field counts as filled when its entry exists and is non-empty. */
  predicate Filled(answers: map<string, string>, o: TaskOption) {
    o.id in answers && answers[o.id] != ""
  }

  function FilledIn(answers: map<string, string>): TaskOption -> bool {
    (o: TaskOption) => Filled(answers, o)
  }

  function Answered(answers: map<string, bool>): TaskOption -> bool {
    (o: TaskOption) => o.id in answers
  }

  function SubmitDisabled(taskType: string, options: Option<seq<TaskOption>>, fillIn: map<string, string>, single: string,
                          multiple: seq<string>, trueFalse: map<string, bool>): (r: bool)
    ensures Parse(taskType) == Some(Open) ==> !r
    ensures Parse(taskType) == Some(FillIn) ==>
      (r <==> options.None? || exists i :: 0 <= i < |options.value| && !Filled(fillIn, options.value[i]))
    ensures Parse(taskType) == Some(SingleChoice) ==> (r <==> single == "")
    ensures Parse(taskType) == Some(MultipleChoice) ==> (r <==> |multiple| == 0)
    ensures Parse(taskType) == Some(TrueFalse) ==>
      (r <==> options.None? || exists i :: 0 <= i < |options.value| && options.value[i].id !in trueFalse)
    ensures Parse(taskType).None? ==> r
  {
    match Parse(taskType)
    case None => true
    case Some(Open) => false
    case Some(FillIn) =>
      if options.None? then true
      else
        EveryIff(options.value, FilledIn(fillIn));
        !Every(options.value, FilledIn(fillIn))
    case Some(SingleChoice) => single == ""
    case Some(MultipleChoice) => |multiple| == 0
    case Some(TrueFalse) =>
      if options.None? then true
      else
        EveryIff(options.value, Answered(trueFalse));
        !Every(options.value, Answered(trueFalse))
  }

  /** A correct fill-in answer to fields whose expected text is non-empty
      can be submitted. */
  lemma FillInCorrectEnablesSubmit(options: seq<TaskOption>, fillIn: map<string, string>, single: string,
                                   multiple: seq<string>, trueFalse: map<string, bool>)
    requires forall i :: 0 <= i < |options| ==> options[i].correctAnswer != ""
    requires FillInCorrect(Some(options), fillIn)
    ensures !SubmitDisabled("fill_in", Some(options), fillIn, single, multiple, trueFalse)
  {
    forall i | 0 <= i < |options| ensures Filled(fillIn, options[i]) {
      assert FillInMatches(fillIn, options[i]);
      assert |Lower(fillIn[options[i].id])| == |Lower(options[i].correctAnswer)|;
    }
  }

  /** A correct true/false answer to options that all state `isTrue` can be
      submitted. */
  lemma TrueFalseCorrectEnablesSubmit(options: seq<TaskOption>, fillIn: map<string, string>, single: string,
                                      multiple: seq<string>, trueFalse: map<string, bool>)
    requires forall i :: 0 <= i < |options| ==> options[i].isTrue.Some?
    requires TrueFalseCorrect(Some(options), trueFalse)
    ensures !SubmitDisabled("true_false", Some(options), fillIn, single, multiple, trueFalse)
  {
    forall i | 0 <= i < |options| ensures options[i].id in trueFalse {
      assert TrueFalseMatches(trueFalse, options[i]);
    }
  }

  // ---------------------------------------------------------------------
  // Editing the multiple-choice selection

  function NotEqual(v: string): string -> bool {
    (x: string) => x != v
  }

  /** A checkbox click: drop the value when it is selected, else append it. */
  function Toggled(prev: seq<string>, v: string): (r: seq<string>)
    ensures v in prev ==> v !in r && |r| < |prev|
    ensures v !in prev ==> r == prev + [v]
    ensures forall x :: x != v ==> (x in r <==> x in prev)
  {
    if v in prev then
      FilterMembers(prev, NotEqual(v), v);
      FilterMembersAll(prev, NotEqual(v));
      FilterShorter(prev, NotEqual(v), v);
      Filter(prev, NotEqual(v))
    else prev + [v]
  }

  lemma FilterMembersAll(xs: seq<string>, p: string -> bool)
    ensures forall x :: x in Filter(xs, p) <==> x in xs && p(x)
  {
    forall x ensures x in Filter(xs, p) <==> x in xs && p(x) {
      FilterMembers(xs, p, x);
    }
  }

  /** Filtering out an element that occurs shortens the list. */
  lemma {:induction false} FilterShorter(xs: seq<string>, p: string -> bool, x: string)
    requires x in xs && !p(x)
    ensures |Filter(xs, p)| < |xs|
    decreases |xs|
  {
    if xs[0] != x {
      FilterShorter(xs[1..], p, x);
    }
  }

  /** Toggling never introduces a repeated value. */
  lemma ToggledNoDuplicates(prev: seq<string>, v: string)
    requires NoDuplicates(prev)
    ensures NoDuplicates(Toggled(prev, v))
  {
    if v in prev {
      FilterNoDuplicates(prev, NotEqual(v));
    }
  }

  /** Toggling a value that was not selected twice restores the selection. */
  lemma ToggleTwiceRestores(prev: seq<string>, v: string)
    requires v !in prev
    ensures Toggled(Toggled(prev, v), v) == prev
  {
    FilterAppend(prev, [v], NotEqual(v));
    FilterKeepsAll(prev, NotEqual(v));
    assert Filter([v], NotEqual(v)) == [];
  }

  /** Toggling a selected value twice moves it to the end of the selection. */
  lemma ToggleTwiceMovesLast(prev: seq<string>, v: string)
    requires v in prev
    ensures Toggled(Toggled(prev, v), v) == Filter(prev, NotEqual(v)) + [v]
  {
  }

  // ---------------------------------------------------------------------
  // The panel's state

  class AnswerForm {
    const taskType: string
    const options: Option<seq<TaskOption>>
    var fillInAnswers: map<string, string>
    var singleChoiceAnswer: string
    var multipleChoiceAnswers: seq<string>
    var trueFalseAnswers: map<string, bool>
    var submitted: bool
    var correct: Option<bool>
    var points: Option<int>
    var reasoning: Option<string>
    var isLoading: bool

    /** The selection never holds a value twice. */
    ghost predicate Valid()
      reads this
    {
      NoDuplicates(multipleChoiceAnswers)
    }

    constructor (taskType: string, options: Option<seq<TaskOption>>)
      ensures Valid()
      ensures this.taskType == taskType && this.options == options
      ensures fillInAnswers == map[] && singleChoiceAnswer == "" && multipleChoiceAnswers == [] && trueFalseAnswers == map[]
      ensures !submitted && correct.None? && points.None? && reasoning.None? && !isLoading
    {
      this.taskType := taskType;
      this.options := options;
      fillInAnswers := map[];
      singleChoiceAnswer := "";
      multipleChoiceAnswers := [];
      trueFalseAnswers := map[];
      submitted := false;
      correct := None;
      points := None;
      reasoning := None;
      isLoading := false;
    }

    function SubmitIsDisabled(): bool
      reads this
    {
      SubmitDisabled(taskType, options, fillInAnswers, singleChoiceAnswer, multipleChoiceAnswers, trueFalseAnswers)
    }

    method HandleMultipleChoiceChange(v: string)
      requires Valid()
      modifies this`multipleChoiceAnswers
      ensures Valid()
      ensures multipleChoiceAnswers == Toggled(old(multipleChoiceAnswers), v)
    {
      ToggledNoDuplicates(multipleChoiceAnswers, v);
      multipleChoiceAnswers := Toggled(multipleChoiceAnswers, v);
    }

    /** Only the edited field changes. */
    method HandleFillInChange(id: string, value: string)
      modifies this`fillInAnswers
      ensures fillInAnswers == old(fillInAnswers)[id := value]
      ensures forall k :: k != id ==> (k in fillInAnswers <==> k in old(fillInAnswers))
      ensures forall k :: k != id && k in fillInAnswers ==> fillInAnswers[k] == old(fillInAnswers)[k]
    {
      fillInAnswers := fillInAnswers[id := value];
    }

    /** Only the edited option's verdict changes. */
    method HandleTrueFalseChange(id: string, value: bool)
      modifies this`trueFalseAnswers
      ensures trueFalseAnswers == old(trueFalseAnswers)[id := value]
      ensures forall k :: k != id ==> Verdict(trueFalseAnswers, k) == Verdict(old(trueFalseAnswers), k)
    {
      trueFalseAnswers := trueFalseAnswers[id := value];
    }

    method HandleSingleChoiceChange(v: string)
      modifies this`singleChoiceAnswer
      ensures singleChoiceAnswer == v
    {
      singleChoiceAnswer := v;
    }

    /** Back to the empty panel; the task itself is kept. */
    method ResetAnswer()
      modifies this
      ensures Valid()
      ensures fillInAnswers == map[] && singleChoiceAnswer == "" && multipleChoiceAnswers == [] && trueFalseAnswers == map[]
      ensures !submitted && correct.None? && points.None? && reasoning.None? && !isLoading
    {
      submitted := false;
      correct := None;
      points := None;
      reasoning := None;
      singleChoiceAnswer := "";
      multipleChoiceAnswers := [];
      fillInAnswers := map[];
      trueFalseAnswers := map[];
      isLoading := false;
    }

    /** Grades the current answer, records the verdict and returns what is
        handed to the `onSubmit` callback. For an open task, `open` is the
        body the grading service replied with (`ErrorBody` for an error reply,
        which clears points and reasoning), nothing when the request or the
        JSON parsing threw (points and reasoning are then kept). */
    method HandleSubmit(open: Option<OpenGrade>, image: Option<string>) returns (answer: Answer)
      modifies this`correct, this`points, this`reasoning, this`isLoading, this`submitted
      ensures answer == Grade(taskType, options, fillInAnswers, singleChoiceAnswer, multipleChoiceAnswers, trueFalseAnswers, open, image).answer
      ensures correct == Some(Grade(taskType, options, fillInAnswers, singleChoiceAnswer, multipleChoiceAnswers, trueFalseAnswers, open, image).isCorrect)
      ensures submitted && !isLoading
      ensures Parse(taskType) == Some(Open) && open.Some? ==> points == open.value.points && reasoning == open.value.reasoning
      ensures !(Parse(taskType) == Some(Open) && open.Some?) ==> points == old(points) && reasoning == old(reasoning)
    {
      isLoading := true;
      if Parse(taskType) == Some(Open) && open.Some? {
        points := open.value.points;
        reasoning := open.value.reasoning;
      }
      var g := Grade(taskType, options, fillInAnswers, singleChoiceAnswer, multipleChoiceAnswers, trueFalseAnswers, open, image);
      answer := g.answer;
      correct := Some(g.isCorrect);
      isLoading := false;
      submitted := true;
    }
  }
}
