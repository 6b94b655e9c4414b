/** The uniform response envelope (core/utils.py). */
module Responses {

  /** A JSON-like value, as response bodies and request data carry them. `Null` is `None`. */
  datatype Value =
    | Null
    | Str(s: string)
    | Int(i: int)
    | Bool(b: bool)
    | Arr(items: seq<Value>)
    | Obj(fields: map<string, Value>)

  /** The three parts of every envelope. */
  datatype Envelope = Envelope(message: string, data: Value, error: Value)

  const EmptyObject: Value := Obj(map[])

  /** `data if data is not None else {}`. */
  function DataOrEmpty(data: Value): (r: Value)
    ensures data == Null ==> r == EmptyObject
    ensures data != Null ==> r == data
    ensures r != Null
  {
    if data == Null then EmptyObject else data
  }

  /** `ResponseHandler.success`: the message and data as given (no data is an empty
      object), and no error. */
  function Success(message: string := "Success", data: Value := Null): (e: Envelope)
    ensures e.message == message && e.error == Null
    ensures e.data == DataOrEmpty(data)
  {
    Envelope(message, DataOrEmpty(data), Null)
  }

  /** `ResponseHandler.error`: the message and data as given (no data is an empty object),
      and exactly the given error value. */
  function Error(message: string := "Error", error: Value := Null, data: Value := Null): (e: Envelope)
    ensures e.message == message && e.error == error
    ensures e.data == DataOrEmpty(data)
  {
    Envelope(message, DataOrEmpty(data), error)
  }

  /** A success envelope is an error envelope without an error; the default messages are
      "Success" and "Error", and both default to an empty data object. */
  lemma SuccessIsErrorWithoutError(message: string, data: Value)
    ensures Success(message, data) == Error(message, Null, data)
    ensures Success().message == "Success" && Error().message == "Error"
    ensures Success().data == EmptyObject && Error().data == EmptyObject && Error().error == Null
  {
  }

  /** The dictionary the handler returns. */
  function ToValue(e: Envelope): (v: Value)
    ensures v.Obj? && v.fields.Keys == {"message", "data", "error"}
    ensures v.fields["message"] == Str(e.message)
    ensures v.fields["data"] == e.data && v.fields["error"] == e.error
  {
    Obj(map["message" := Str(e.message), "data" := e.data, "error" := e.error])
  }

  /** The dictionary determines the envelope: two envelopes with the same dictionary are equal. */
  lemma ToValueInjective(e1: Envelope, e2: Envelope)
    requires ToValue(e1) == ToValue(e2)
    ensures e1 == e2
  {
    assert ToValue(e1).fields["message"] == Str(e1.message);
    assert ToValue(e2).fields["message"] == Str(e2.message);
  }
}
