/**
 * The generator module's error taxonomy and its translation into the status
 * values the RPC boundary returns (src/generator/error.rs).
 */
module GeneratorErrors {

  /** The three ways key generation can fail. */
  datatype GeneratorError =
    | ConnectionError            // a dependency (the counter store) could not be reached
    | GeneratorNotFound          // the requested generator does not exist
    | UnknownError(detail: string)

  /** What a generator returns: a value, or one of the errors above. */
  datatype Result<T> = Ok(value: T) | Err(error: GeneratorError)

  /** The three status codes the boundary uses for generator errors. */
  datatype Code = Unavailable | NotFound | Internal

  /** A boundary status: a code and a human-readable message. */
  datatype Status = Status(code: Code, message: string)

  const ConnectionMessage: string := "Connection error"
  const NotFoundMessage: string := "Generator not found"
  /** Prefix of the boundary message for an unknown error. */
  const UnknownStatusPrefix: string := "Generator error: "
  /** Prefix of the displayed text of an unknown error. */
  const UnknownDisplayPrefix: string := "Generator unknown error: "

  /** The display text of an error. */
  function Display(e: GeneratorError): (s: string)
    ensures e.ConnectionError? ==> s == ConnectionMessage
    ensures e.GeneratorNotFound? ==> s == NotFoundMessage
    ensures e.UnknownError? ==>
      UnknownDisplayPrefix <= s && s[|UnknownDisplayPrefix|..] == e.detail
  {
    match e
    case ConnectionError => ConnectionMessage
    case GeneratorNotFound => NotFoundMessage
    case UnknownError(detail) => UnknownDisplayPrefix + detail
  }

  /**
   * The status an error becomes at the boundary. Each variant has its own
   * code, and an unknown error's detail survives intact after a fixed prefix.
   */
  function ToStatus(e: GeneratorError): (st: Status)
    ensures st.code == Unavailable <==> e.ConnectionError?
    ensures st.code == NotFound <==> e.GeneratorNotFound?
    ensures st.code == Internal <==> e.UnknownError?
    ensures e.ConnectionError? ==> st.message == ConnectionMessage
    ensures e.GeneratorNotFound? ==> st.message == NotFoundMessage
    ensures e.UnknownError? ==>
      UnknownStatusPrefix <= st.message && st.message[|UnknownStatusPrefix|..] == e.detail
  {
    match e
    case ConnectionError => Status(Unavailable, ConnectionMessage)
    case GeneratorNotFound => Status(NotFound, NotFoundMessage)
    case UnknownError(detail) => Status(Internal, UnknownStatusPrefix + detail)
  }

  /** No information is lost at the boundary: distinct errors give distinct statuses. */
  lemma ToStatusInjective(a: GeneratorError, b: GeneratorError)
    requires ToStatus(a) == ToStatus(b)
    ensures a == b
  {
    if a.UnknownError? {
      assert a.detail == ToStatus(a).message[|UnknownStatusPrefix|..];
      assert b.detail == ToStatus(b).message[|UnknownStatusPrefix|..];
    }
  }

  /** Distinct errors also display differently. */
  lemma DisplayInjective(a: GeneratorError, b: GeneratorError)
    requires Display(a) == Display(b)
    ensures a == b
  {
    if a.UnknownError? && b.UnknownError? {
      assert a.detail == Display(a)[|UnknownDisplayPrefix|..];
    }
  }

  /**
   * For the two fixed variants the boundary message is the display text; for an
   * unknown error the two differ ("Generator error: " against
   * "Generator unknown error: ") while both keep the detail.
   */
  lemma StatusMessageVersusDisplay(e: GeneratorError)
    ensures !e.UnknownError? ==> ToStatus(e).message == Display(e)
    ensures e.UnknownError? ==> ToStatus(e).message != Display(e)
  {
    if e.UnknownError? {
      assert ToStatus(e).message[10] == 'e';
      assert Display(e)[10] == 'u';
    }
  }

  /** The three conversions the module's own tests check. */
  lemma ToStatusExamples()
    ensures ToStatus(ConnectionError) == Status(Unavailable, "Connection error")
    ensures ToStatus(GeneratorNotFound) == Status(NotFound, "Generator not found")
    ensures ToStatus(UnknownError("Some error")) == Status(Internal, "Generator error: Some error")
  {
  }
}
