/**
 * The JSON envelope of every API answer: `errors` (a list or null) and, for
 * Response<TData>, `data`. The error taxonomy is ErrorType x ErrorCode; both
 * enums travel as their numbers, since the API registers no string-enum
 * converter.
 */
module Responses {
  import opened Wrappers

  datatype ErrorType = InvalidRequestParameters | InternalServerError

  datatype ErrorCode =
    | InvalidSearchDate
    | InvalidUserTimeZone
    | SearchDatePassed
    | SearchDateHasNotAppeared
    | ResourceIsNotConfigured

  /** One error entry: its type, its code and a human-readable message. */
  datatype Error = Error(errorType: ErrorType, code: ErrorCode, message: string)

  /** The number an ErrorType is serialized as. */
  function TypeNumber(t: ErrorType): (n: int)
    ensures n == 0 <==> t == InvalidRequestParameters
    ensures n == 1 <==> t == InternalServerError
  {
    match t
    case InvalidRequestParameters => 0
    case InternalServerError => 1
  }

  /** The number an ErrorCode is serialized as: its position 0 to 4 in the declaration. */
  function CodeNumber(c: ErrorCode): (n: int)
    ensures 0 <= n <= 4
  {
    match c
    case InvalidSearchDate => 0
    case InvalidUserTimeZone => 1
    case SearchDatePassed => 2
    case SearchDateHasNotAppeared => 3
    case ResourceIsNotConfigured => 4
  }

  /** Reads an ErrorCode back from its number; None for numbers outside 0 to 4. */
  function CodeOfNumber(n: int): (c: Option<ErrorCode>)
    ensures c.Some? <==> 0 <= n <= 4
  {
    if n == 0 then Some(InvalidSearchDate)
    else if n == 1 then Some(InvalidUserTimeZone)
    else if n == 2 then Some(SearchDatePassed)
    else if n == 3 then Some(SearchDateHasNotAppeared)
    else if n == 4 then Some(ResourceIsNotConfigured)
    else None
  }

  /** Each code has its own number, and the number identifies the code. */
  lemma CodeNumberRoundTrip(c: ErrorCode, n: int)
    ensures CodeOfNumber(CodeNumber(c)) == Some(c)
    ensures CodeOfNumber(n) == Some(c) ==> CodeNumber(c) == n
  {
  }

  /** The error collection as a caller may pass it: `null` entries are allowed. */
  type ErrorEntries = seq<Option<Error>>

  /** The non-null entries of `entries`, in their original order (`Where(x => x != null)`). */
  function WithoutNulls(entries: ErrorEntries): (errors: seq<Error>)
    ensures |errors| <= |entries|
    ensures forall e :: e in errors <==> Some(e) in entries
    ensures (forall i :: 0 <= i < |entries| ==> entries[i].Some?) ==> |errors| == |entries|
  {
    if entries == [] then []
    else
      var rest := WithoutNulls(entries[1..]);
      assert forall x :: x in entries <==> x == entries[0] || x in entries[1..];
      match entries[0]
      case None => rest
      case Some(e) => [e] + rest
  }

  /** Filtering distributes over concatenation, so the kept errors keep their relative order. */
  lemma {:induction false} WithoutNullsAppend(a: ErrorEntries, b: ErrorEntries)
    ensures WithoutNulls(a + b) == WithoutNulls(a) + WithoutNulls(b)
  {
    if a == [] {
      assert a + b == b;
    } else {
      assert (a + b)[0] == a[0];
      assert (a + b)[1..] == a[1..] + b;
      WithoutNullsAppend(a[1..], b);
      if a[0].Some? {
        var e := a[0].value;
        assert [e] + (WithoutNulls(a[1..]) + WithoutNulls(b)) == ([e] + WithoutNulls(a[1..])) + WithoutNulls(b);
      }
    }
  }

  /** A collection without nulls passes through unchanged. */
  lemma {:induction false} WithoutNullsKeepsErrors(errors: seq<Error>)
    ensures WithoutNulls(seq(|errors|, i requires 0 <= i < |errors| => Some(errors[i]))) == errors
  {
    if errors != [] {
      var entries := seq(|errors|, i requires 0 <= i < |errors| => Some(errors[i]));
      assert entries[1..] == seq(|errors[1..]|, i requires 0 <= i < |errors[1..]| => Some(errors[1..][i]));
      WithoutNullsKeepsErrors(errors[1..]);
      assert errors == [errors[0]] + errors[1..];
    }
  }

  // ----- BaseResponse: the three ways its `Errors` list is initialised -----

  /** BaseResponse(): Errors is left null. */
  function NoErrors(): (errors: Option<seq<Error>>)
    ensures errors.None?
  {
    None
  }

  /** BaseResponse(error): Errors is a list holding exactly that error. */
  function SingleError(error: Error): (errors: Option<seq<Error>>)
    ensures errors.Some? && |errors.value| == 1 && errors.value[0] == error
  {
    Some([error])
  }

  /** BaseResponse(errors): the non-null errors in order; a null collection gives an empty list, never null. */
  function CollectedErrors(entries: Option<ErrorEntries>): (errors: Option<seq<Error>>)
    ensures errors.Some?
    ensures entries.None? ==> errors.value == []
    ensures entries.Some? ==> |errors.value| <= |entries.value|
    ensures entries.Some? ==> forall e :: e in errors.value <==> Some(e) in entries.value
    ensures entries.Some? ==> errors.value == WithoutNulls(entries.value)
  {
    match entries
    case None => Some([])
    case Some(es) => Some(WithoutNulls(es))
  }

  /** The single-error constructor agrees with the collection constructor given a one-entry collection. */
  lemma SingleErrorIsCollection(error: Error)
    ensures CollectedErrors(Some([Some(error)])) == SingleError(error)
  {
    assert [Some(error)][1..] == [];
    assert WithoutNulls([]) == [];
    assert WithoutNulls([Some(error)]) == [error] + WithoutNulls([]);
    assert [error] + [] == [error];
  }

  // ----- Response and Response<TData> -----

  /** The non-generic Response: errors only. */
  datatype Response = Response(errors: Option<seq<Error>>)

  /** Response<TData>: `data` (null unless set) and `errors`. */
  datatype DataResponse<T> = DataResponse(data: Option<T>, errors: Option<seq<Error>>)

  /** Response(): no errors, no data field. */
  function EmptyResponse(): (r: Response)
    ensures r.errors.None?
  {
    Response(NoErrors())
  }

  /** Response(error): exactly one error. */
  function ErrorResponse(error: Error): (r: Response)
    ensures r.errors == Some([error])
  {
    Response(SingleError(error))
  }

  /** Response(errors): the base class's null filtering. */
  function ErrorsResponse(entries: Option<ErrorEntries>): (r: Response)
    ensures r.errors == CollectedErrors(entries)
    ensures forall e :: e in r.errors.value <==> entries.Some? && Some(e) in entries.value
  {
    Response(CollectedErrors(entries))
  }

  /** Response<TData>(data): Data is set and Errors stays null. */
  function DataOf<T>(data: T): (r: DataResponse<T>)
    ensures r.data == Some(data) && r.errors.None?
  {
    DataResponse(Some(data), NoErrors())
  }

  /** Response<TData>(error): one error, Data left at its default (null). */
  function DataError<T>(error: Error): (r: DataResponse<T>)
    ensures r.data.None? && r.errors == Some([error])
  {
    DataResponse(None, SingleError(error))
  }

  /** Response<TData>(errors): the base class's null filtering, Data left null. */
  function DataErrors<T>(entries: Option<ErrorEntries>): (r: DataResponse<T>)
    ensures r.data.None? && r.errors == CollectedErrors(entries)
    ensures forall e :: e in r.errors.value <==> entries.Some? && Some(e) in entries.value
  {
    DataResponse(None, CollectedErrors(entries))
  }

  /** The generic and non-generic envelopes carry the same errors for the same constructor argument. */
  lemma EnvelopesAgree<T>(error: Error, entries: Option<ErrorEntries>)
    ensures DataError<T>(error).errors == ErrorResponse(error).errors
    ensures DataErrors<T>(entries).errors == ErrorsResponse(entries).errors
  {
  }
}
