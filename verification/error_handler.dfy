/** Turning a failed request into the message shown to the user. */
module ErrorHandler {
  import opened Js

  const NoResponseMessage := "No response from server. Please check your connection."
  const UnexpectedMessage := "Unexpected error occurred."

  /** `error.response.data?.message` */
  function ResponseMessage(response: Value): Value {
    var data := Prop(response, "data");
    if Nullish(data) then Undefined else Prop(data, "message")
  }

  /** `handleApiError(error)`: the server's message, else its status; a
      fixed message when no answer came; else the error's own message. */
  function HandleApiError(env: DateEnv, error: Value): (r: Value)
    requires !Nullish(error)
    ensures Truthy(r)
    ensures Truthy(Prop(error, "response")) ==>
      var response := Prop(error, "response");
      r == (if Truthy(ResponseMessage(response)) then ResponseMessage(response)
            else Str("Server Error: " + ToJsString(env, Prop(response, "status"))))
    ensures !Truthy(Prop(error, "response")) && Truthy(Prop(error, "request")) ==> r == Str(NoResponseMessage)
    ensures !Truthy(Prop(error, "response")) && !Truthy(Prop(error, "request")) ==>
      r == (if Truthy(Prop(error, "message")) then Prop(error, "message") else Str(UnexpectedMessage))
  {
    var response := Prop(error, "response");
    if Truthy(response) then
      Or(ResponseMessage(response), Str("Server Error: " + ToJsString(env, Prop(response, "status"))))
    else if Truthy(Prop(error, "request")) then
      Str(NoResponseMessage)
    else
      Or(Prop(error, "message"), Str(UnexpectedMessage))
  }

  /** A response decides the message whatever the request holds. */
  lemma ResponseTakesPrecedence(env: DateEnv, props: map<string, Value>, request: Value)
    requires Truthy(Get(props, "response"))
    ensures HandleApiError(env, Obj(props["request" := request])) == HandleApiError(env, Obj(props))
  {
    assert Prop(Obj(props["request" := request]), "response") == Prop(Obj(props), "response");
  }

  /** A response without a message reports its numeric status, which can be
      read back from the message. */
  lemma {:induction false} StatusReported(env: DateEnv, status: int)
    ensures
      var error := Obj(map["response" := Obj(map["data" := Obj(map[]), "status" := Num(status)])]);
      var r := HandleApiError(env, error);
      r.Str? && |r.s| > 14 && r.s[..14] == "Server Error: " && ToNumber(Str(r.s[14..])) == Some(status)
  {
    var error := Obj(map["response" := Obj(map["data" := Obj(map[]), "status" := Num(status)])]);
    var response := Prop(error, "response");
    assert ResponseMessage(response) == Undefined;
    var digits := IntToString(status);
    var s := "Server Error: " + digits;
    assert HandleApiError(env, error) == Str(s);
    assert s[14..] == digits;
    NumberRoundTrip(status);
  }
}
