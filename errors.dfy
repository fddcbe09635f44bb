/** The exception kinds the core raises. `RepositoryError` is declared in
    repo_analyzer/repo.py; `AnalyzerError` lives in repo_analyzer/errors.py,
    which is not part of this model and is known here only by its uses.
    `NoneComparison` is Python's TypeError from ordering a missing date
    against a datetime. */
module Errors {

  datatype Error =
    | RepositoryError(message: string)
    | AnalyzerError(message: string)
    | NoneComparison
}
