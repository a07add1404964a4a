/** Option and Result for the error returns of the Go code, and the kinds of
    error the crawler produces or passes on. */
module Base {

  datatype Option<+T> = None | Some(value: T)

  datatype Result<+T, +E> = Success(value: T) | Failure(error: E)

  /** The errors of the crawler. `Wrapped` stands for `fmt.Errorf("<context>: %w", cause)`. */
  datatype Error =
    | DeadlineExceeded              // the HTTP client's deadline passed (errors.Is(err, context.DeadlineExceeded))
    | RequestFailed(reason: string) // any other transport error or a non-200 status
    | InvalidURL(raw: string)       // url.Parse refused the text
    | HtmlParseFailed               // html.Parse failed
    | HtmlRenderFailed              // html.Render failed
    | MaxDepthExceeded              // parser.ErrMaxDepthExceeded
    | RobotsParseFailed             // robotstxt.FromBytes failed
    | MkdirFailed(path: string)     // os.MkdirAll failed while saving `path`
    | WriteFailed(path: string)     // os.WriteFile failed for `path`
    | Wrapped(context: string, cause: Error)
}
