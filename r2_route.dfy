/**
 * The API route that creates a Cloudflare R2 bucket (app/api/cloudflare/r2/route.ts): the
 * same checks and SDK steps as the server action, answered as HTTP replies: 400 with the
 * check's message or for a nameless bucket, 500 with the extracted message for anything
 * thrown, the shaped bucket otherwise. Reading the JSON body may itself throw.
 */
module R2Route {
  import opened Wrappers
  import opened Http
  import opened Types
  import opened R2Actions

  /** The JSON body of a reply. */
  datatype ReplyBody = Created(response: CreateR2BucketResponse) | ErrorBody(error: string)

  /** `NextResponse.json(body, { status })`; the default status is 200. */
  datatype Reply = Reply(status: nat, body: ReplyBody)

  /** What the route did: the SDK calls, and its reply. */
  datatype Handled = Handled(calls: seq<SdkCall>, reply: Reply)

  /** `POST(request)`. */
  function Post(request: Call<CreateR2BucketBody>, created: Call<Option<SdkBucket>>, domain: Call<DevDomain>): (r: Handled)
    ensures request.Threw? ==> r == Handled([], Reply(500, ErrorBody(ExtractErrorMessage(request.thrown))))
    ensures request.Returned? && Validate(request.value).Err? ==>
              r == Handled([], Reply(400, ErrorBody(Validate(request.value).error)))
    ensures request.Returned? && Validate(request.value).Ok? ==>
              var c := Create(Validate(request.value).value, DevDomainFlag(request.value), created, domain);
              && r.calls == c.calls
              && (c.stop.Completed? ==> r.reply == Reply(200, Created(c.stop.response)))
              && (c.stop.NoName? ==> r.reply == Reply(400, ErrorBody(Uncreated)))
              && (c.stop.Raised? ==> r.reply == Reply(500, ErrorBody(ExtractErrorMessage(c.stop.thrown))))
  {
    match request
    case Threw(e) => Handled([], Reply(500, ErrorBody(ExtractErrorMessage(e))))
    case Returned(body) =>
      match Validate(body)
      case Err(message) => Handled([], Reply(400, ErrorBody(message)))
      case Ok(credentials) =>
        var c := Create(credentials, DevDomainFlag(body), created, domain);
        var reply := match c.stop
          case Completed(response) => Reply(200, Created(response))
          case NoName => Reply(400, ErrorBody(Uncreated))
          case Raised(e) => Reply(500, ErrorBody(ExtractErrorMessage(e)));
        Handled(c.calls, reply)
  }

  /**
   * The route answers as the action resolves: the same SDK calls; status 200 with the
   * action's response, or an error status with the extracted message of what the action
   * throws, 400 for the action's own messages and 500 for an SDK failure.
   */
  lemma RouteAgreesWithAction(body: CreateR2BucketBody, created: Call<Option<SdkBucket>>, domain: Call<DevDomain>)
    ensures var route := Post(Returned(body), created, domain);
            var action := CreateCloudflareR2Bucket(body, created, domain);
            && route.calls == action.calls
            && (action.result.Returned? <==> route.reply.status == 200)
            && (action.result.Returned? ==> route.reply.body == Created(action.result.value))
            && (action.result.Threw? ==>
                  route.reply.body == ErrorBody(ExtractErrorMessage(action.result.thrown))
                  && (route.reply.status == 400 || route.reply.status == 500))
  {
  }

  /** A reply is 200 only for a bucket with a non-empty name and after both SDK calls. */
  lemma SuccessNeedsBothCalls(request: Call<CreateR2BucketBody>, created: Call<Option<SdkBucket>>, domain: Call<DevDomain>)
    ensures var r := Post(request, created, domain);
            r.reply.status == 200 ==>
              |r.calls| == 2 && r.reply.body.Created? && r.reply.body.response.bucket.name != ""
  {
  }
}
