/** The email webhook endpoint: hands the request to the adapter's webhook
    handler and always acknowledges receipt, so a provider never retries. */
module EmailWebhookEndpoint {
  import opened Common
  import opened ApiResponse
  import opened Store
  import opened SendEmailWorker
  import opened ResendAdapter

  /** `WebhookResult`: a body (`Undefined` when absent) and a status. */
  datatype WebhookResult = WebhookResult(body: Json, status: Option<int>)

  /** What resolving the adapter and running its handler came to: resolving
      threw, the adapter has no handler, the handler threw, or it returned a
      result (`None` for `void`). */
  datatype HandlerRun = AdapterThrew | NoWebhookHandler | HandlerThrew | Returned(result: Option<WebhookResult>)

  /** The body acknowledging an event that could not be processed. */
  function NotProcessed(): Json
  {
    Obj(map["processed" := Bool(false), "received" := Bool(true)])
  }

  /** The default body: `{ received: true }`. */
  function Received(): Json
  {
    Obj(map["received" := Bool(true)])
  }

  /** The endpoint's response. */
  function EmailWebhookResponse(run: HandlerRun): (r: Response)
    ensures r.body.success <==> !run.NoWebhookHandler?
    ensures run.NoWebhookHandler? ==>
      r == ErrorResponse(BadRequest, "Webhook handler not configured for this email adapter", 501)
    ensures run.AdapterThrew? || run.HandlerThrew? ==> r == SuccessResponse(NotProcessed(), 200)
    ensures run == Returned(None) ==> r == SuccessResponse(Received(), 200)
    ensures run.Returned? && run.result.Some? && run.result.value.body != Undefined && run.result.value.body != Null
            && run.result.value.status.Some? ==>
              r == SuccessResponse(run.result.value.body, run.result.value.status.value)
  {
    match run
    case AdapterThrew => SuccessResponse(NotProcessed(), 200)
    case HandlerThrew => SuccessResponse(NotProcessed(), 200)
    case NoWebhookHandler => ErrorResponse(BadRequest, "Webhook handler not configured for this email adapter", 501)
    case Returned(result) =>
      var body := if result.Some? && result.value.body != Undefined && result.value.body != Null then result.value.body else Received();
      var status := if result.Some? && result.value.status.Some? then result.value.status.value else 200;
      SuccessResponse(body, status)
  }

  /** The Resend handler returns nothing or throws. */
  function ResendHandlerRun(r: Run): HandlerRun
  {
    if r.result == Threw then HandlerThrew else Returned(None)
  }

  /** With the Resend adapter every request, forged or genuine, is answered
      200 with a success envelope; `processed: false` tells exactly the
      requests the adapter rejected, and those left the store as it was. */
  lemma ResendWebhookAlwaysAcknowledged(s: State, req: WebhookRequest, webhookSecret: string, now: int, c: WebhookCrypto)
    ensures var run := ResendWebhookSpec(s, req, webhookSecret, now, c);
      var r := EmailWebhookResponse(ResendHandlerRun(run));
      && r.status == 200 && r.body.success
      && (r.body.data == Some(NotProcessed()) <==> run.result == Threw)
      && (run.result == Threw ==> run.state == s)
  {
    var run := ResendWebhookSpec(s, req, webhookSecret, now, c);
    assert NotProcessed() != Received() by {
      assert "processed" in NotProcessed().fields;
    }
    if run.result == Threw {
      WebhookAppendsOneEntry(s, req, webhookSecret, now, c);
    }
  }
}
