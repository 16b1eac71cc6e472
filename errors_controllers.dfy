/** The error middleware `handleCustomErrors`: answers an application error
    itself and passes anything else on, untouched. */
module ErrorsControllers {
  import opened Js
  import opened Handlers

  /** An error object that carries a truthy `status` and a truthy `msg`. */
  predicate IsCustomError(err: Props)
  {
    Truthy(Get(err, "status")) && Truthy(Get(err, "msg"))
  }

  /** `handleCustomErrors(err, req, res, next)`: a custom error is answered
      with its own status and the body `{ msg }` (the status is not repeated
      in the body); any other error goes to `next` unchanged. */
  function HandleCustomErrors(err: Props): (e: Event)
    ensures e.Send? <==> IsCustomError(err)
    ensures !e.Send? ==> e == Next(err)
    ensures e.Send? ==> e.status == Get(err, "status") && e.body == Obj(map["msg" := Get(err, "msg")])
    ensures e.Send? ==> "status" !in e.body.props
  {
    var status, msg := Get(err, "status"), Get(err, "msg");
    if Truthy(status) && Truthy(msg) then Send(status, Obj(map["msg" := msg])) else Next(err)
  }

  /** The test is truthiness, not presence: a status of 0, an empty message
      or a missing field all fall through to `next`. */
  lemma FalsyFieldsFallThrough(msg: JsValue, status: JsValue)
    ensures HandleCustomErrors(map["status" := Num(0.0), "msg" := msg]) == Next(map["status" := Num(0.0), "msg" := msg])
    ensures HandleCustomErrors(map["status" := status, "msg" := Str("")]) == Next(map["status" := status, "msg" := Str("")])
    ensures HandleCustomErrors(map["msg" := msg]) == Next(map["msg" := msg])
  {
  }

  /** The application errors the models raise are answered verbatim. */
  lemma AppErrorsAnsweredVerbatim(status: real, msg: string)
    requires status != 0.0 && msg != ""
    ensures HandleCustomErrors(AppError(status, msg)) == Send(Num(status), Obj(map["msg" := Str(msg)]))
  {
  }
}
