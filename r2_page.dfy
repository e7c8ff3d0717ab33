/**
 * The Cloudflare R2 page (app/cloudflare/r2/page.tsx): a bucket-name input whose create
 * handler checks the name, the token and the account id before posting to the R2 route;
 * the created bucket it keeps; and two copy handlers, one for the dev domain and one for a
 * two-line env text naming the bucket and its domain. The Cloudflare token and account id
 * come from the hooks and are parameters; the fetch reply and the clipboard outcome are
 * inputs; the toasts shown, in order, are the `toasts` field (the page never closes them).
 */
module R2Page {
  import opened Wrappers
  import opened Strings
  import opened Http
  import opened Types
  import opened Seqs
  import opened EnvParser
  import R2Actions

  const BucketNameKeyDefault: string := "AWS_S3_BUCKET"
  const BucketDomainKeyDefault: string := "PUBLIC_FILE_URL"
  const EnterBucketName: string := "Enter a bucket name before submitting."
  const MissingToken: string := "Cloudflare token missing. Add it in Settings first."
  const MissingAccountId: string := "Cloudflare account ID missing. Provide it in Settings."
  const CreateFailed: string := "Failed to create bucket"
  const UnexpectedResponse: string := "Unexpected API response."
  const Created: string := "Bucket created and dev domain enabled successfully."
  const Copied: string := "Dev domain copied to clipboard."

  /** The fetch reply: `response.ok`, and the payload's bucket-carrying response when it has one. */
  datatype FetchReply = FetchReply(ok: bool, payload: Option<CreateR2BucketResponse>)

  /** The checks of `handleCreateBucket`, in order: trimmed bucket name, token, account id. */
  function CreateGuard(bucketName: string, token: string, accountId: string): (error: Option<string>)
    ensures error.None? <==> Trim(bucketName) != "" && token != "" && accountId != ""
    ensures Trim(bucketName) == "" ==> error == Some(EnterBucketName)
    ensures Trim(bucketName) != "" && token == "" ==> error == Some(MissingToken)
    ensures Trim(bucketName) != "" && token != "" && accountId == "" ==> error == Some(MissingAccountId)
  {
    if Trim(bucketName) == "" then Some(EnterBucketName)
    else if token == "" then Some(MissingToken)
    else if accountId == "" then Some(MissingAccountId)
    else None
  }

  /** The body the page posts: the trimmed name, the account id and token as stored, and the switch. */
  function RequestBody(bucketName: string, token: string, accountId: string, enableDevDomain: bool): (body: CreateR2BucketBody)
    ensures body.bucketName.Some? && IsTrimmed(body.bucketName.value) && body.bucketName.value == Trim(bucketName)
    ensures body.accountId == Some(accountId) && body.token == Some(token) && body.enableDevDomain == Some(enableDevDomain)
  {
    CreateR2BucketBody(Some(Trim(bucketName)), Some(accountId), Some(token), Some(enableDevDomain))
  }

  /**
   * A body the page lets through passes the route's checks exactly when the account id and
   * the token are not whitespace only, and the route then sees the name the page trimmed.
   */
  lemma PostedBodyPassesRoute(bucketName: string, token: string, accountId: string, enableDevDomain: bool)
    requires CreateGuard(bucketName, token, accountId).None?
    ensures var checked := R2Actions.Validate(RequestBody(bucketName, token, accountId, enableDevDomain));
            && (checked.Ok? <==> Trim(accountId) != "" && Trim(token) != "")
            && (checked.Ok? ==> checked.value == R2Actions.Credentials(Trim(bucketName), Trim(accountId), Trim(token)))
            && R2Actions.DevDomainFlag(RequestBody(bucketName, token, accountId, enableDevDomain)) == enableDevDomain
  {
    TrimIdempotent(bucketName);
  }

  /** The Create button: disabled before both hooks are ready, without credentials, or with a blank name. */
  function CreateDisabled(isReady: bool, token: string, accountId: string, bucketName: string): (disabled: bool)
    ensures disabled <==> !isReady || CreateGuard(bucketName, token, accountId).Some?
  {
    !isReady || !(token != "" && accountId != "") || Trim(bucketName) == ""
  }

  /** `String(x)` of an optional text: absent values print as "undefined". */
  function JsText(value: Option<string>): (text: string)
    ensures value.Some? ==> text == value.value
    ensures value.None? ==> text == "undefined"
  {
    value.GetOr("undefined")
  }

  /** The text `handleCopyAsEnvValue` copies: the name line, a newline, then the domain line. */
  function EnvValueText(nameKey: string, domainKey: string, withPrefix: bool, created: Option<CreateR2BucketResponse>): (text: string)
    ensures StartsWith(text, nameKey + "=")
    ensures created.Some? ==> EndsWith(text, created.value.devDomain.domain)
    ensures created.None? ==> EndsWith(text, domainKey + "=" + (if withPrefix then "https://" else "") + "undefined")
  {
    var name := JsText(if created.Some? then Some(created.value.bucket.name) else None);
    var domain := JsText(if created.Some? then Some(created.value.devDomain.domain) else None);
    nameKey + "=" + name + "\n" + domainKey + "=" + (if withPrefix then "https://" else "") + domain
  }

  /** A key the env parser keeps as written. */
  predicate PlainKey(k: string) {
    k != "" && IsTrimmed(k) && '=' !in k && '\n' !in k && k[0] != '#'
  }

  /** A value the env parser keeps as written, on a line whose key is plain. */
  predicate PlainValue(v: string) {
    '\n' !in v && (v == "" || !IsWhitespace(v[|v| - 1]))
  }

  /** One `KEY=VALUE` line with a plain key and value parses to exactly that entry. */
  lemma ParsePlainLine(k: string, v: string)
    requires PlainKey(k) && PlainValue(v)
    ensures ParseEnvInput(k + "=" + v) == [EnvEntry(k, v)]
  {
    var line := k + "=" + v;
    PlainLineShape(k, v);
    TrimOfTrimmed(line);
    TrimOfTrimmed(k);
    ParseLineAtFirstEquals(line, k, v);
    SingleLine(line);
  }

  /** A plain key and value make a line with no surrounding whitespace and no newline. */
  lemma PlainLineShape(k: string, v: string)
    requires PlainKey(k) && PlainValue(v)
    ensures var line := k + "=" + v;
            line == k + ['='] + v && IsTrimmed(line) && '\n' !in line
  {
    var line := k + "=" + v;
    assert line[0] == k[0];
    assert line[|line| - 1] == if v == "" then '=' else v[|v| - 1];
    forall i | 0 <= i < |line| ensures line[i] != '\n' {
      if i < |k| {
        assert line[i] == k[i];
      } else if i > |k| {
        assert line[i] == v[i - |k| - 1];
      }
    }
  }

  /** An "https://" prefix keeps a plain value plain. */
  lemma PrefixedValueIsPlain(withPrefix: bool, domain: string)
    requires PlainValue(domain)
    ensures PlainValue((if withPrefix then "https://" else "") + domain)
  {
    if withPrefix {
      var value := "https://" + domain;
      forall i | 0 <= i < |value| ensures value[i] != '\n' {
        if i >= 8 {
          assert value[i] == domain[i - 8];
        }
      }
      assert value[|value| - 1] == if domain == "" then '/' else domain[|domain| - 1];
    }
  }

  /** The copied env text parses back to the two entries it was built from, name first. */
  lemma EnvValueParsesBack(nameKey: string, domainKey: string, withPrefix: bool, created: CreateR2BucketResponse)
    requires PlainKey(nameKey) && PlainKey(domainKey)
    requires PlainValue(created.bucket.name) && PlainValue(created.devDomain.domain)
    ensures ParseEnvInput(EnvValueText(nameKey, domainKey, withPrefix, Some(created)))
         == [EnvEntry(nameKey, created.bucket.name),
             EnvEntry(domainKey, (if withPrefix then "https://" else "") + created.devDomain.domain)]
  {
    var value := (if withPrefix then "https://" else "") + created.devDomain.domain;
    assert EnvValueText(nameKey, domainKey, withPrefix, Some(created))
        == (nameKey + "=" + created.bucket.name) + "\n" + (domainKey + "=" + value);
    PrefixedValueIsPlain(withPrefix, created.devDomain.domain);
    TwoPlainLines(nameKey, created.bucket.name, domainKey, value);
  }

  /** Two plain lines joined by a newline parse to their two entries, in order. */
  lemma TwoPlainLines(k1: string, v1: string, k2: string, v2: string)
    requires PlainKey(k1) && PlainValue(v1) && PlainKey(k2) && PlainValue(v2)
    ensures ParseEnvInput((k1 + "=" + v1) + "\n" + (k2 + "=" + v2)) == [EnvEntry(k1, v1), EnvEntry(k2, v2)]
  {
    NewlineSeparates(k1 + "=" + v1, k2 + "=" + v2);
    ParsePlainLine(k1, v1);
    ParsePlainLine(k2, v2);
  }

  /** With the default keys, the copied text defines `AWS_S3_BUCKET` and `PUBLIC_FILE_URL`. */
  lemma DefaultKeysParseBack(withPrefix: bool, created: CreateR2BucketResponse)
    requires PlainValue(created.bucket.name) && PlainValue(created.devDomain.domain)
    ensures var entries := ParseEnvInput(EnvValueText(BucketNameKeyDefault, BucketDomainKeyDefault, withPrefix, Some(created)));
            |entries| == 2 && entries[0].key == BucketNameKeyDefault && entries[1].key == BucketDomainKeyDefault
  {
    assert IsTrimmed(BucketNameKeyDefault) && IsTrimmed(BucketDomainKeyDefault);
    assert '=' !in BucketNameKeyDefault && '\n' !in BucketNameKeyDefault;
    assert '=' !in BucketDomainKeyDefault && '\n' !in BucketDomainKeyDefault;
    EnvValueParsesBack(BucketNameKeyDefault, BucketDomainKeyDefault, withPrefix, created);
  }

  /** What a create attempt settles to: the bodies posted, the bucket kept, the name input and the toast. */
  datatype Creation = Creation(posted: seq<CreateR2BucketBody>, createdBucket: Option<CreateR2BucketResponse>,
                               bucketName: string, toast: StatusMessage)

  /**
   * `handleCreateBucket` as a function of the page state it reads: a failed check only
   * toasts; otherwise one POST is made, and the created bucket is kept and the name cleared
   * only for an OK reply carrying a bucket.
   */
  function CreateBucket(bucketName: string, token: string, accountId: string, enableDevDomain: bool,
                        createdBucket: Option<CreateR2BucketResponse>, reply: Call<FetchReply>): (r: Creation)
    ensures CreateGuard(bucketName, token, accountId).Some? ==>
              r == Creation([], createdBucket, bucketName, StatusMessage(ErrorMessage, CreateGuard(bucketName, token, accountId).value))
    ensures CreateGuard(bucketName, token, accountId).None? ==> r.posted == [RequestBody(bucketName, token, accountId, enableDevDomain)]
    ensures CreateGuard(bucketName, token, accountId).None? && reply.Returned? && reply.value.ok && reply.value.payload.Some? ==>
              && r.createdBucket == reply.value.payload && r.bucketName == ""
              && r.toast == StatusMessage(SuccessMessage, Created)
    ensures CreateGuard(bucketName, token, accountId).None? && !(reply.Returned? && reply.value.ok && reply.value.payload.Some?) ==>
              && r.createdBucket == createdBucket && r.bucketName == bucketName
              && r.toast == StatusMessage(ErrorMessage,
                   if reply.Threw? then ExtractErrorMessage(reply.thrown)
                   else if !reply.value.ok then CreateFailed
                   else UnexpectedResponse)
  {
    match CreateGuard(bucketName, token, accountId)
    case Some(error) => Creation([], createdBucket, bucketName, StatusMessage(ErrorMessage, error))
    case None =>
      var posted := [RequestBody(bucketName, token, accountId, enableDevDomain)];
      match reply
      case Threw(e) => Creation(posted, createdBucket, bucketName, StatusMessage(ErrorMessage, ExtractErrorMessage(e)))
      case Returned(response) =>
        if !response.ok then
          Creation(posted, createdBucket, bucketName, StatusMessage(ErrorMessage, ExtractErrorMessage(ErrorObject(CreateFailed))))
        else if response.payload.None? then
          Creation(posted, createdBucket, bucketName, StatusMessage(ErrorMessage, ExtractErrorMessage(ErrorObject(UnexpectedResponse))))
        else
          Creation(posted, response.payload, "", StatusMessage(SuccessMessage, Created))
  }

  class R2Page {
    var bucketName: string
    var enableDevDomain: bool
    var enableUrlPrefix: bool
    var isSubmitting: bool
    var createdBucket: Option<CreateR2BucketResponse>
    var toasts: seq<StatusMessage>

    /** The first render: no name, both switches on, nothing created. */
    constructor()
      ensures bucketName == "" && enableDevDomain && enableUrlPrefix && !isSubmitting
      ensures createdBucket.None? && toasts == []
    {
      bucketName := "";
      enableDevDomain := true;
      enableUrlPrefix := true;
      isSubmitting := false;
      createdBucket := None;
      toasts := [];
    }

    /**
     * `handleCreateBucket`, settled as `CreateBucket` says; the submitting flag is down
     * afterwards whenever a request was made.
     */
    method HandleCreateBucket(token: string, accountId: string, reply: Call<FetchReply>)
      returns (posted: seq<CreateR2BucketBody>)
      modifies this`bucketName, this`isSubmitting, this`createdBucket, this`toasts
      ensures var r := CreateBucket(old(bucketName), token, accountId, old(enableDevDomain), old(createdBucket), reply);
              posted == r.posted && createdBucket == r.createdBucket && bucketName == r.bucketName && toasts == old(toasts) + [r.toast]
      ensures isSubmitting == (old(isSubmitting) && posted == [])
    {
      var r := CreateBucket(bucketName, token, accountId, enableDevDomain, createdBucket, reply);
      posted := r.posted;
      SettleCreation(r);
    }

    /** The state a create attempt leaves behind. */
    method SettleCreation(r: Creation)
      modifies this`bucketName, this`isSubmitting, this`createdBucket, this`toasts
      ensures createdBucket == r.createdBucket && bucketName == r.bucketName && toasts == old(toasts) + [r.toast]
      ensures isSubmitting == (old(isSubmitting) && r.posted == [])
    {
      createdBucket, bucketName, toasts, isSubmitting := r.createdBucket, r.bucketName, toasts + [r.toast], isSubmitting && r.posted == [];
    }

    /**
     * `handleCopyDevDomain(withPrefix)`: without a domain nothing happens; otherwise the
     * domain, prefixed with "https://" when asked, is copied and the outcome toasted.
     */
    method HandleCopyDevDomain(withPrefix: bool, clipboard: Option<Thrown>) returns (copied: Option<string>)
      modifies this`toasts
      ensures createdBucket.None? || createdBucket.value.devDomain.domain == "" ==> copied.None? && toasts == old(toasts)
      ensures createdBucket.Some? && createdBucket.value.devDomain.domain != "" ==>
                && copied == Some(if withPrefix then "https://" + createdBucket.value.devDomain.domain
                                  else createdBucket.value.devDomain.domain)
                && toasts == old(toasts) + [if clipboard.None? then StatusMessage(SuccessMessage, Copied)
                                            else StatusMessage(ErrorMessage, ExtractErrorMessage(clipboard.value))]
    {
      if createdBucket.None? || createdBucket.value.devDomain.domain == "" {
        return None;
      }
      var urlToCopy := createdBucket.value.devDomain.domain;
      if withPrefix {
        urlToCopy := "https://" + urlToCopy;
      }
      copied := Some(urlToCopy);
      match clipboard {
        case None => toasts := toasts + [StatusMessage(SuccessMessage, Copied)];
        case Some(e) => toasts := toasts + [StatusMessage(ErrorMessage, ExtractErrorMessage(e))];
      }
    }

    /** `handleCopyAsEnvValue`: the env text is built line by line and copied, and the outcome toasted. */
    method HandleCopyAsEnvValue(nameKey: string, domainKey: string, clipboard: Option<Thrown>) returns (copied: string)
      modifies this`toasts
      ensures copied == EnvValueText(nameKey, domainKey, enableUrlPrefix, createdBucket)
      ensures toasts == old(toasts) + [if clipboard.None? then StatusMessage(SuccessMessage, Copied)
                                       else StatusMessage(ErrorMessage, ExtractErrorMessage(clipboard.value))]
    {
      var name := JsText(if createdBucket.Some? then Some(createdBucket.value.bucket.name) else None);
      var domain := JsText(if createdBucket.Some? then Some(createdBucket.value.devDomain.domain) else None);
      var valueToCopy := "";
      valueToCopy := valueToCopy + nameKey + "=" + name + "\n";
      assert valueToCopy == nameKey + "=" + name + "\n";
      valueToCopy := valueToCopy + domainKey + "=" + (if enableUrlPrefix then "https://" else "") + domain;
      copied := valueToCopy;
      match clipboard {
        case None => toasts := toasts + [StatusMessage(SuccessMessage, Copied)];
        case Some(e) => toasts := toasts + [StatusMessage(ErrorMessage, ExtractErrorMessage(e))];
      }
    }
  }
}
