/** The io-ts decoders the handler uses (t.string, IntFromString) and PathReporter.failure.
    What the libraries do beyond telling a string from anything else is not visible here and is
    passed in as a Library value. */
module IoTs {
  import opened Fp

  /** A JavaScript value as these decoders tell values apart: undefined (a key that is not
      there), a string, or anything else (a number, an array of repeated query values, an object). */
  datatype Unknown = Undefined | Str(s: string) | Other

  /** One io-ts ValidationError: the key whose value failed (empty at the top level), the
      value, and the name of the codec it failed. */
  datatype ValidationError = ValidationError(key: string, value: Unknown, expected: string)

  /** io-ts reports a failed decode with a non-empty list of errors. */
  type Errors = es: seq<ValidationError> | |es| > 0 witness [ValidationError("", Undefined, "")]

  type Validation<T> = Either<Errors, T>

  /** Library behaviour taken as given: how IntFromString reads text as an integer (None when
      the text is not an integer), and the line PathReporter writes for one error. */
  datatype Library = Library(parseInt: string -> Option<int>, report: ValidationError -> string)

  const STRING := "string"
  const INT_FROM_STRING := "IntFromString"

  /** t.string.decode: a string is accepted as it is, anything else fails. */
  function DecodeString(key: string, u: Unknown): (r: Validation<string>)
    ensures r.Right? <==> u.Str?
    ensures r.Right? ==> r.right == u.s
    ensures r.Left? ==> r.left == [ValidationError(key, u, STRING)]
  {
    match u
    case Str(s) => Right(s)
    case _ => Left([ValidationError(key, u, STRING)])
  }

  /** IntFromString.decode: a string the library reads as an integer. */
  function DecodeIntFromString(key: string, u: Unknown, lib: Library): (r: Validation<int>)
    ensures r.Right? <==> u.Str? && lib.parseInt(u.s).Some?
    ensures r.Right? ==> r.right == lib.parseInt(u.s).value
    ensures r.Left? ==> r.left == [ValidationError(key, u, INT_FROM_STRING)]
  {
    match u
    case Str(s) =>
      (match lib.parseInt(s)
       case Some(n) => Right(n)
       case None => Left([ValidationError(key, u, INT_FROM_STRING)]))
    case _ => Left([ValidationError(key, u, INT_FROM_STRING)])
  }

  /** PathReporter.failure: one line per error, in the errors' order. */
  function Failure(es: seq<ValidationError>, lib: Library): (r: seq<string>)
    ensures |r| == |es|
    ensures forall i :: 0 <= i < |es| ==> r[i] == lib.report(es[i])
  {
    seq(|es|, i requires 0 <= i < |es| => lib.report(es[i]))
  }
}
