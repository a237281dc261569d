/** Values shared by the rendering pipeline: results, errors, headers, responses and articles. */
module Types {

  datatype Option<+T> = None | Some(value: T)

  /** An error as it travels through the render chain; the pipeline never inspects it, it passes it on. */
  datatype Error =
    | NotFound(path: string)   // the store has no file at this path and version
    | Failure(message: string) // any other failure: store, template, child process, head lookup

  /** The (err, value) pair of a Node-style callback, as a failure-compatible type. */
  datatype Result<+T> = Ok(value: T) | Err(error: Error) {
    predicate IsFailure() {
      Err?
    }

    function PropagateFailure<U>(): Result<U>
      requires Err?
    {
      Err(error)
    }

    function Extract(): T
      requires Ok?
    {
      value
    }
  }

  /** A buffer: the bytes of a file, a rendered template or a child's output, one char per byte. */
  type Bytes = seq<char>

  /** A header value: header objects hold strings, except Content-Length, which is a number. */
  datatype HeaderValue = Text(text: string) | Number(number: int)

  type Headers = map<string, HeaderValue>

  /** The `{headers, buffer}` object handed to a renderer's callback. */
  datatype Response = Response(headers: Headers, buffer: Bytes)

  /** A snippet: the placeholder text it replaces and the fields the snippet template reads. */
  datatype Snippet = Snippet(original: string, fields: map<string, string>)

  /** An article as the data layer returns it; `categories` may be missing altogether. */
  datatype Article = Article(
    title: string,
    author: string,
    markdown: string,
    snippets: seq<Snippet>,
    categories: Option<seq<string>>)
}
