/**
 * The records shared by the agent and its tools: `PartialContent` and `Deps`
 * (src/agent/schemas.py), `BaseToolResult` (src/tools/types.py) and the
 * `MaybeSummarizedContent` envelope every agent tool returns.
 */
module Schemas {
  import opened Text

  /** A possibly partial answer: how much there is, how much was returned. */
  datatype PartialContent<T> = PartialContent(
    totalLength: int,
    returnedLength: int,
    content: T,
    error: bool := false,
    aborted: bool := false)
  {
    /** `is_complete` */
    predicate IsComplete() { returnedLength == totalLength }

    /** `missing_length` */
    function MissingLength(): int { totalLength - returnedLength }
  }

  /** Session settings handed to every tool call. */
  datatype Deps = Deps(limit: int := 100, projectRoot: string := ".", verbose: bool := false)

  /**
   * A tool's raw result. `returned_count` is declared by the source's type but
   * the directory tool never fills it in, hence `Option`.
   */
  datatype BaseToolResult<T> = BaseToolResult(totalCount: int, returnedCount: Option<int>, items: seq<T>)

  /** The envelope an agent tool hands back to the language model. */
  datatype MaybeSummarizedContent<T> = MaybeSummarizedContent(
    totalLength: int,
    content: seq<T>,
    error: bool,
    isSummarized: bool,
    aborted: bool := false)
}
