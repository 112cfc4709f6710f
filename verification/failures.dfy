/** The exceptions the dataset pipeline raises, the Python class each one
    is, and the translation at the end of `CacheDatasetMixin.dispatch`
    (workflow/mixins.py) into an HTTP status with body `{"error": str(e)}`. */
module Failures {

  /** The Python exception class, which is all the translation looks at. */
  datatype Kind = ValueError | FileNotFoundError | OtherException

  datatype Failure =
    | InvalidTaskType            // the task type has no column mapping
    | MalformedReference(parts: nat)  // `dataset.split("/")` did not give two parts
    | NoWorkflowDataset          // the bound workflow has no dataset
    | NoDatasetAvailable         // new workflow and no dataset reference
    | RepoNotFound               // the remote repository does not exist
    | NoCsvFiles                 // the repository has no ".csv" file
    | MissingColumn(column: string, file: string)  // a mapped column is absent
    | UnboundTaskType            // neither GET nor POST: `task_type` never assigned
    | IndexOutOfRange            // a view indexed past the end of a list
  {
    function Kind(): Kind {
      match this
      case RepoNotFound => FileNotFoundError
      case UnboundTaskType => OtherException
      case IndexOutOfRange => OtherException
      case _ => ValueError
    }

    /** `str(e)`: the text of the error envelope. The unpacking and unbound
        variable texts are those of CPython 3.11 to 3.13. */
    function Message(): string {
      match this
      case InvalidTaskType => "Please give a valid task type."
      case MalformedReference(n) =>
        if n < 2 then "not enough values to unpack (expected 2, got 1)"
        else "too many values to unpack (expected 2)"
      case NoWorkflowDataset => "No dataset associated with the workflow."
      case NoDatasetAvailable => "No dataset available."
      case RepoNotFound => "Dataset not found."
      case NoCsvFiles => "Dataset doesn't have any CSV files."
      case MissingColumn(c, f) => "Column '" + c + "' does not exist in the dataset for " + f
      case UnboundTaskType =>
        "cannot access local variable 'task_type' where it is not associated with a value"
      case IndexOutOfRange => "list index out of range"
    }
  }

  /** The `except` clauses: ValueError is a bad request, FileNotFoundError is
      not found, anything else is an internal error. */
  function Status(k: Kind): int {
    match k
    case ValueError => 400
    case FileNotFoundError => 404
    case OtherException => 500
  }

  /** What each failure is answered with. */
  lemma TranslationTable(f: Failure)
    ensures Status(f.Kind()) in {400, 404, 500}
    ensures Status(f.Kind()) == 404 <==> f == RepoNotFound
    ensures Status(f.Kind()) == 500 <==> f == UnboundTaskType || f == IndexOutOfRange
    ensures f.MissingColumn? ==> Status(f.Kind()) == 400
    ensures f.MalformedReference? || f == InvalidTaskType || f == NoCsvFiles ==> Status(f.Kind()) == 400
  {
  }
}
