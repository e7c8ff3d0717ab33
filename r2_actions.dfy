/**
 * The server action that creates a Cloudflare R2 bucket (app/cloudflare/r2/actions.ts):
 * the bucket name, account id and token are trimmed and checked in that order before any
 * SDK call; then the bucket is created, a nameless result is rejected, and the managed dev
 * domain is switched on or off. The SDK calls are the `SdkCall` values it issues; what
 * each returned or threw is an input.
 */
module R2Actions {
  import opened Wrappers
  import opened Strings
  import opened Http
  import opened Types

  const BucketNameRequired: string := "Bucket name is required."
  const AccountIdRequired: string := "Cloudflare account ID is required."
  const TokenRequired: string := "Cloudflare API token is required."
  const Uncreated: string := "Unable to create R2 bucket."

  /** The checked inputs of a creation. */
  datatype Credentials = Credentials(bucketName: string, accountId: string, token: string)

  /** A bucket as `r2.buckets.create` returns it; the SDK may leave out its name. */
  datatype SdkBucket = SdkBucket(name: Option<string>, location: Option<string>, creationDate: Option<string>)

  /** The SDK calls, each with the token the client was built with. */
  datatype SdkCall =
    | CreateBucket(accountId: string, name: string, token: string)
    | UpdateManagedDomain(bucketName: string, accountId: string, enabled: bool, token: string)

  /** `field?.trim()`, absent when the field is. */
  function TrimField(field: Option<string>): (r: Option<string>)
    ensures r.Some? <==> field.Some?
    ensures r.Some? ==> r.value == Trim(field.value)
  {
    match field
    case None => None
    case Some(s) => Some(Trim(s))
  }

  /** A field a JavaScript `if (!field)` accepts: present and non-empty. */
  predicate Filled(field: Option<string>) {
    field.Some? && field.value != ""
  }

  /** The three checks, in order: trimmed bucket name, trimmed account id, trimmed token. */
  function Validate(body: CreateR2BucketBody): (r: Result<Credentials>)
    ensures r.Ok? <==> Filled(TrimField(body.bucketName)) && Filled(TrimField(body.accountId)) && Filled(TrimField(body.token))
    ensures !Filled(TrimField(body.bucketName)) ==> r == Err(BucketNameRequired)
    ensures Filled(TrimField(body.bucketName)) && !Filled(TrimField(body.accountId)) ==> r == Err(AccountIdRequired)
    ensures Filled(TrimField(body.bucketName)) && Filled(TrimField(body.accountId)) && !Filled(TrimField(body.token)) ==>
              r == Err(TokenRequired)
    ensures r.Ok? ==> r.value == Credentials(Trim(body.bucketName.value), Trim(body.accountId.value), Trim(body.token.value))
  {
    var bucketName, accountId, token := TrimField(body.bucketName), TrimField(body.accountId), TrimField(body.token);
    if !Filled(bucketName) then Err(BucketNameRequired)
    else if !Filled(accountId) then Err(AccountIdRequired)
    else if !Filled(token) then Err(TokenRequired)
    else Ok(Credentials(bucketName.value, accountId.value, token.value))
  }

  /** Only a blank-free body passes: whitespace-only fields count as missing. */
  lemma WhitespaceFieldIsMissing(body: CreateR2BucketBody)
    requires body.bucketName.Some? && forall i :: 0 <= i < |body.bucketName.value| ==> IsWhitespace(body.bucketName.value[i])
    ensures Validate(body) == Err(BucketNameRequired)
  {
  }

  /** `!!body.enableDevDomain`: an absent flag is false. */
  function DevDomainFlag(body: CreateR2BucketBody): (enabled: bool)
    ensures enabled <==> body.enableDevDomain == Some(true)
  {
    body.enableDevDomain.GetOr(false)
  }

  /** The response of a created bucket: name, location, `creation_date` as `createdAt`, and the dev domain as returned. */
  function Shape(name: string, bucket: SdkBucket, devDomain: DevDomain): (r: CreateR2BucketResponse)
    ensures r.bucket == R2Bucket(name, bucket.location, bucket.creationDate) && r.devDomain == devDomain
  {
    CreateR2BucketResponse(R2Bucket(name, bucket.location, bucket.creationDate), devDomain)
  }

  /** A created bucket that `!bucket || !bucket?.name` rejects. */
  predicate Nameless(created: Option<SdkBucket>) {
    created.None? || created.value.name.None? || created.value.name.value == ""
  }

  /** How the steps after the checks ended: a shaped response, a nameless bucket, or a thrown value. */
  datatype Stop = Completed(response: CreateR2BucketResponse) | NoName | Raised(thrown: Thrown)

  /** The SDK calls of a creation, in order, and how it ended. */
  datatype Creation = Creation(calls: seq<SdkCall>, stop: Stop)

  /**
   * The steps shared by the action and the route once the body is checked: create the
   * bucket, stop at a nameless one, then set the dev domain.
   */
  function Create(credentials: Credentials, enabled: bool,
                  created: Call<Option<SdkBucket>>, domain: Call<DevDomain>): (r: Creation)
    ensures |r.calls| >= 1 && r.calls[0] == CreateBucket(credentials.accountId, credentials.bucketName, credentials.token)
    ensures created.Threw? ==> r == Creation(r.calls[..1], Raised(created.thrown))
    ensures created.Returned? && Nameless(created.value) ==> r == Creation(r.calls[..1], NoName)
    ensures created.Returned? && !Nameless(created.value) ==>
              var name := created.value.value.name.value;
              && r.calls == [CreateBucket(credentials.accountId, credentials.bucketName, credentials.token),
                             UpdateManagedDomain(name, credentials.accountId, enabled, credentials.token)]
              && (domain.Threw? ==> r.stop == Raised(domain.thrown))
              && (domain.Returned? ==> r.stop == Completed(Shape(name, created.value.value, domain.value)))
  {
    var create := CreateBucket(credentials.accountId, credentials.bucketName, credentials.token);
    match created
    case Threw(e) => Creation([create], Raised(e))
    case Returned(bucket) =>
      if Nameless(bucket) then Creation([create], NoName)
      else
        var name := bucket.value.name.value;
        var calls := [create, UpdateManagedDomain(name, credentials.accountId, enabled, credentials.token)];
        match domain
        case Threw(e) => Creation(calls, Raised(e))
        case Returned(d) => Creation(calls, Completed(Shape(name, bucket.value, d)))
  }

  /** What the action did: the SDK calls, and the response it resolved with or the value it threw. */
  datatype ActionRun = ActionRun(calls: seq<SdkCall>, result: Call<CreateR2BucketResponse>)

  /**
   * `createCloudflareR2Bucket(body)`: a failed check throws its message before any SDK
   * call; otherwise the creation runs with the trimmed values and `!!enableDevDomain`, a
   * nameless bucket throwing `Uncreated` and an SDK failure propagating unchanged.
   */
  function CreateCloudflareR2Bucket(body: CreateR2BucketBody, created: Call<Option<SdkBucket>>, domain: Call<DevDomain>)
    : (r: ActionRun)
    ensures Validate(body).Err? ==> r == ActionRun([], Threw(ErrorObject(Validate(body).error)))
    ensures Validate(body).Ok? ==>
              var c := Create(Validate(body).value, DevDomainFlag(body), created, domain);
              && r.calls == c.calls
              && (c.stop.Completed? ==> r.result == Returned(c.stop.response))
              && (c.stop.NoName? ==> r.result == Threw(ErrorObject(Uncreated)))
              && (c.stop.Raised? ==> r.result == Threw(c.stop.thrown))
  {
    match Validate(body)
    case Err(message) => ActionRun([], Threw(ErrorObject(message)))
    case Ok(credentials) =>
      var c := Create(credentials, DevDomainFlag(body), created, domain);
      var result := match c.stop
        case Completed(response) => Returned(response)
        case NoName => Threw(ErrorObject(Uncreated))
        case Raised(e) => Threw(e);
      ActionRun(c.calls, result)
  }

  /** Every SDK call carries the trimmed, non-empty token and account id. */
  lemma CallsCarryCheckedCredentials(body: CreateR2BucketBody, created: Call<Option<SdkBucket>>, domain: Call<DevDomain>)
    ensures var r := CreateCloudflareR2Bucket(body, created, domain);
            forall i :: 0 <= i < |r.calls| ==>
              && r.calls[i].token == Trim(body.token.value) && r.calls[i].token != ""
              && r.calls[i].accountId == Trim(body.accountId.value) && r.calls[i].accountId != ""
  {
    var v := Validate(body);
    if v.Ok? {
      CreateCallsCarry(v.value, DevDomainFlag(body), created, domain);
    }
  }

  /** Every call of a creation carries the token and account id it was given. */
  lemma CreateCallsCarry(credentials: Credentials, enabled: bool, created: Call<Option<SdkBucket>>, domain: Call<DevDomain>)
    ensures var r := Create(credentials, enabled, created, domain);
            forall i :: 0 <= i < |r.calls| ==> r.calls[i].token == credentials.token && r.calls[i].accountId == credentials.accountId
  {
  }

  /** A returned result names the bucket the domain call was made for, and that name is not empty. */
  lemma ResultNamesUpdatedBucket(body: CreateR2BucketBody, created: Call<Option<SdkBucket>>, domain: Call<DevDomain>)
    ensures var r := CreateCloudflareR2Bucket(body, created, domain);
            r.result.Returned? ==>
              |r.calls| == 2 && r.calls[1].UpdateManagedDomain? && r.calls[1].bucketName == r.result.value.bucket.name
              && r.result.value.bucket.name != "" && r.calls[1].enabled == DevDomainFlag(body)
  {
  }
}
