/** Optional values and results shared by every module of the model. */
module Wrappers {

  /** A value that may be absent (the source's `None` or `NaN`). */
  datatype Option<+T> = None | Some(value: T)

  /** The outcome of an operation that can raise an exception. */
  datatype Result<+T, +E> = Ok(value: T) | Err(error: E)
}

/** The exceptions the modelled code raises, with the data their messages carry. */
module Errors {

  /** One line of a validation report: a hypothesis file and what it lacks. */
  datatype FileReport = FileReport(file: string, missing: set<string>)

  /** Why a `ValueError` was raised. */
  datatype Reason =
    | HypothesisFilesNotFound(files: seq<string>)
    | MissingFeatures(report: seq<FileReport>)
    | MissingActions(report: seq<FileReport>)
    | StepsTooFew
    | PolicyLengthMismatch
    | SampleLargerThanPopulation
    | NegativeSampleSize
    | NegativeDimensions
    | NoSections
    | ProbabilitiesMismatch
    | NegativeProbabilities
    | ProbabilitiesDoNotSumToOne
    | EmptyChoice
    | WeightsMismatch
    | NonPositiveTotalWeight
    | NotAligned
    | ShapeMismatch
    | NonIntegerPosition

  datatype Error =
    | ValueError(reason: Reason)
    | KeyError(keys: seq<string>)
    | StepKeyError(step: int)
    | IndexError
    | TypeError
    /** A plain `Exception`, which pandas raises for a dot product of mismatched shapes. */
    | Exception(cause: Reason)
    | FileNotFoundError(path: string)
}
