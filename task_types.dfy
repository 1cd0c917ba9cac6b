/** The `task_type` enumeration of the database schema and its string names. */
module TaskTypes {
  import opened Wrappers

  datatype TaskType = SingleChoice | MultipleChoice | Open | TrueFalse | FillIn

  /** Every value of the enumeration, in the schema's order. */
  const AllTaskTypes: seq<TaskType> := [SingleChoice, MultipleChoice, Open, TrueFalse, FillIn]

  /** The string the database and the components use for a task type. */
  function Name(t: TaskType): string {
    match t
    case SingleChoice => "single_choice"
    case MultipleChoice => "multiple_choice"
    case Open => "open"
    case TrueFalse => "true_false"
    case FillIn => "fill_in"
  }

  /** The task type a string names, if any: the comparisons a `switch` over
      the type's name performs. */
  function Parse(s: string): (r: Option<TaskType>)
    ensures r.Some? ==> Name(r.value) == s
  {
    if s == "single_choice" then Some(SingleChoice)
    else if s == "multiple_choice" then Some(MultipleChoice)
    else if s == "open" then Some(Open)
    else if s == "true_false" then Some(TrueFalse)
    else if s == "fill_in" then Some(FillIn)
    else None
  }

  /** Names are read back as the type they name; so names are distinct. */
  lemma ParseName(t: TaskType)
    ensures Parse(Name(t)) == Some(t)
  {
    match t
    case SingleChoice =>
    case MultipleChoice =>
    case Open =>
    case TrueFalse =>
    case FillIn =>
  }

  /** The list of all types holds each type exactly once. */
  lemma AllTaskTypesComplete(t: TaskType)
    ensures t in AllTaskTypes && multiset(AllTaskTypes)[t] == 1
  {
  }
}
