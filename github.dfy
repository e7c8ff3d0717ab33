/**
 * The GitHub REST client (lib/github.ts): `owner/repo` parsing, the request URL, the
 * byte layout of the sealed box that carries an Actions secret, and the order in which
 * `upsertGitHubSecret` fetches the repository key, encrypts and writes.
 */
module GitHub {
  import opened Wrappers
  import opened Strings
  import opened Http

  const DefaultApi: string := "https://api.github.com"

  /** The public API's address is non-empty and has no surrounding whitespace. */
  lemma DefaultApiIsTrimmed()
    ensures DefaultApi != [] && IsTrimmed(DefaultApi)
  {
  }

  /** One element of a `Uint8Array`. */
  newtype byte = x: int | 0 <= x < 256

  datatype RepoRef = RepoRef(owner: string, repo: string)

  /**
   * `parseRepositoryInput`: split on "/", trim every segment, and accept exactly two
   * segments that are both non-empty after trimming.
   */
  function ParseRepositoryInput(input: string): (r: Option<RepoRef>)
    ensures var parts := Split(input, '/');
            r.Some? <==> |parts| == 2 && Trim(parts[0]) != [] && Trim(parts[1]) != []
    ensures r.Some? ==> r.value.owner != [] && IsTrimmed(r.value.owner) && '/' !in r.value.owner
    ensures r.Some? ==> r.value.repo != [] && IsTrimmed(r.value.repo) && '/' !in r.value.repo
  {
    var parts := Split(input, '/');
    var owner := Trim(parts[0]);
    var repo := if |parts| > 1 then Trim(parts[1]) else "";
    if owner == [] || repo == [] || |parts| > 2 then None
    else
      assert forall c :: c in owner ==> c in parts[0];
      assert forall c :: c in repo ==> c in parts[1];
      Some(RepoRef(owner, repo))
  }

  /** Two slash-free names around one "/" parse back to the trimmed names, whatever spaces surround them. */
  lemma ParseRepositoryRoundTrip(owner: string, repo: string)
    requires '/' !in owner && '/' !in repo
    requires Trim(owner) != [] && Trim(repo) != []
    ensures ParseRepositoryInput(owner + "/" + repo) == Some(RepoRef(Trim(owner), Trim(repo)))
  {
    SplitAround(owner, '/', repo);
    SplitWithoutSeparator(owner, '/');
    SplitWithoutSeparator(repo, '/');
  }

  /** A third segment, even an empty one after a trailing slash, is rejected. */
  lemma ParseRepositoryRejectsThirdSegment(owner: string, repo: string, rest: string)
    ensures ParseRepositoryInput(owner + "/" + repo + "/" + rest) == None
  {
    SplitAround(owner + "/" + repo, '/', rest);
    SplitAround(owner, '/', repo);
  }

  /** `request`'s base: the `baseUrl` option when given, otherwise the public API. */
  function RequestUrl(baseUrl: Option<string>, path: string): (url: string)
    ensures baseUrl.None? ==> StartsWith(url, DefaultApi + "/")
    ensures baseUrl.Some? ==> StartsWith(url, StripTrailingSlash(baseUrl.value) + "/")
    ensures EndsWith(url, StripLeadingSlash(path))
    ensures |url| == |StripTrailingSlash(baseUrl.GetOr(DefaultApi))| + 1 + |StripLeadingSlash(path)|
  {
    var base := baseUrl.GetOr(DefaultApi);
    assert StripTrailingSlash(DefaultApi) == DefaultApi;
    assert (StripTrailingSlash(base) + "/" + StripLeadingSlash(path))[..|StripTrailingSlash(base)| + 1]
        == StripTrailingSlash(base) + "/";
    JoinUrl(base, path)
  }

  /** The bytes `Uint8Array` stores for the character codes of a binary string (each taken modulo 256). */
  function Latin1Bytes(binary: string): (bytes: seq<byte>)
    ensures |bytes| == |binary|
  {
    seq(|binary|, i requires 0 <= i < |binary| => (binary[i] as int % 256) as byte)
  }

  /** `String.fromCharCode` of every byte, concatenated. */
  function Latin1String(bytes: seq<byte>): (binary: string)
    ensures |binary| == |bytes|
    ensures forall i :: 0 <= i < |binary| ==> binary[i] as int < 256
  {
    seq(|bytes|, i requires 0 <= i < |bytes| => bytes[i] as int as char)
  }

  /** Bytes survive a trip through a binary string. */
  lemma BytesRoundTrip(bytes: seq<byte>)
    ensures Latin1Bytes(Latin1String(bytes)) == bytes
  {
  }

  /** A binary string (every code below 256, as `atob` produces) survives a trip through bytes. */
  lemma BinaryRoundTrip(binary: string)
    requires forall i :: 0 <= i < |binary| ==> binary[i] as int < 256
    ensures Latin1String(Latin1Bytes(binary)) == binary
  {
  }

  /** The loop of `base64ToUint8Array` after `atob`: one byte per character code. */
  method BinaryToBytes(binary: string) returns (bytes: array<byte>)
    ensures bytes.Length == |binary|
    ensures bytes[..] == Latin1Bytes(binary)
  {
    bytes := new byte[|binary|];
    var i := 0;
    while i < |binary|
      invariant 0 <= i <= |binary|
      invariant forall j :: 0 <= j < i ==> bytes[j] == (binary[j] as int % 256) as byte
    {
      bytes[i] := (binary[i] as int % 256) as byte;
      i := i + 1;
    }
  }

  /** The loop of `uint8ArrayToBase64` before `btoa`: one character per byte. */
  method BytesToBinary(bytes: array<byte>) returns (binary: string)
    ensures binary == Latin1String(bytes[..])
  {
    binary := "";
    var i := 0;
    while i < bytes.Length
      invariant 0 <= i <= bytes.Length
      invariant binary == Latin1String(bytes[..i])
    {
      binary := binary + [bytes[i] as int as char];
      i := i + 1;
    }
    assert bytes[..i] == bytes[..];
  }

  /** `target.set(source, offset)`: the source bytes overwrite the target from `offset` on. */
  method SetBytes(target: array<byte>, source: seq<byte>, offset: nat)
    requires offset + |source| <= target.Length
    modifies target
    ensures target[..] == old(target[..offset]) + source + old(target[offset + |source|..])
  {
    var i := 0;
    while i < |source|
      invariant 0 <= i <= |source|
      invariant forall j :: 0 <= j < offset ==> target[j] == old(target[j])
      invariant forall j :: 0 <= j < i ==> target[offset + j] == source[j]
      invariant forall j :: offset + |source| <= j < target.Length ==> target[j] == old(target[j])
    {
      target[offset + i] := source[i];
      i := i + 1;
    }
    assert target[..] == old(target[..offset]) + source + old(target[offset + |source|..]);
  }

  /** A new array sized for both parts, the first `set` at offset 0 and the second right after it. */
  method Concat(first: seq<byte>, second: seq<byte>) returns (joined: array<byte>)
    ensures fresh(joined)
    ensures joined[..] == first + second
  {
    joined := new byte[|first| + |second|];
    SetBytes(joined, first, 0);
    SetBytes(joined, second, |first|);
    assert joined[..] == first + second;
  }

  /** The TweetNaCl primitives the code calls, left uninterpreted: `box.before`, `box.after`, `hash` and `box.nonceLength`. */
  datatype NaCl = NaCl(
    before: (seq<byte>, seq<byte>) -> seq<byte>,
    after: (seq<byte>, seq<byte>, seq<byte>) -> seq<byte>,
    hash: seq<byte> -> seq<byte>,
    nonceLength: nat)

  /** The ephemeral pair `box.keyPair()` draws. */
  datatype KeyPair = KeyPair(publicKey: seq<byte>, secretKey: seq<byte>)

  /** The browser APIs around the loops: `atob` (which throws on malformed input), `btoa` and `TextEncoder.encode`. */
  datatype Browser = Browser(
    atob: string -> Result<string>,
    btoa: string -> string,
    encodeUtf8: string -> seq<byte>)

  /** `digest.slice(0, n)`: the first n elements, or all of them when there are fewer. */
  function Take<T>(s: seq<T>, n: nat): (r: seq<T>)
    ensures |r| == if n <= |s| then n else |s|
    ensures r == s[..|r|]
  {
    if n <= |s| then s[..n] else s
  }

  /** The nonce: the first `nonceLength` bytes of the hash of the ephemeral key followed by the recipient key. */
  function Nonce(nacl: NaCl, ephemeralKey: seq<byte>, recipientKey: seq<byte>): (nonce: seq<byte>)
    ensures |nonce| <= nacl.nonceLength && |nonce| <= |nacl.hash(ephemeralKey + recipientKey)|
    ensures nonce == nacl.hash(ephemeralKey + recipientKey)[..|nonce|]
    ensures |nacl.hash(ephemeralKey + recipientKey)| >= nacl.nonceLength ==> |nonce| == nacl.nonceLength
  {
    Take(nacl.hash(ephemeralKey + recipientKey), nacl.nonceLength)
  }

  /** The ciphertext `box.after` produces for the message under the shared key and the derived nonce. */
  function Cipher(nacl: NaCl, keyPair: KeyPair, recipientKey: seq<byte>, message: seq<byte>): seq<byte> {
    nacl.after(message, Nonce(nacl, keyPair.publicKey, recipientKey), nacl.before(recipientKey, keyPair.secretKey))
  }

  /** The sealed box: the ephemeral public key followed by the ciphertext. */
  function Seal(nacl: NaCl, keyPair: KeyPair, recipientKey: seq<byte>, message: seq<byte>): (sealed: seq<byte>)
    ensures |sealed| == |keyPair.publicKey| + |Cipher(nacl, keyPair, recipientKey, message)|
    ensures sealed[..|keyPair.publicKey|] == keyPair.publicKey
    ensures sealed[|keyPair.publicKey|..] == Cipher(nacl, keyPair, recipientKey, message)
  {
    keyPair.publicKey + Cipher(nacl, keyPair, recipientKey, message)
  }

  /**
   * The recipient's side of the layout: knowing the public-key length, it splits the box into
   * the sender's ephemeral key and the ciphertext, and rederives the very nonce the sender used.
   */
  lemma SealedBoxOpensAtKeyLength(nacl: NaCl, keyPair: KeyPair, recipientKey: seq<byte>, message: seq<byte>, keyLength: nat)
    requires |keyPair.publicKey| == keyLength
    ensures var sealed := Seal(nacl, keyPair, recipientKey, message);
            && keyLength <= |sealed|
            && Nonce(nacl, sealed[..keyLength], recipientKey) == Nonce(nacl, keyPair.publicKey, recipientKey)
            && sealed[keyLength..] == Cipher(nacl, keyPair, recipientKey, message)
  {
  }

  /** What `encryptSecret` resolves to: a failure of loading or of `atob` is thrown, otherwise the base64 of the sealed box. */
  function EncryptedValue(publicKey: string, secretValue: string, loaded: Result<NaCl>, browser: Browser, keyPair: KeyPair): (r: Result<string>)
    ensures loaded.Err? ==> r == Err(loaded.error)
    ensures loaded.Ok? && browser.atob(publicKey).Err? ==> r == Err(browser.atob(publicKey).error)
    ensures loaded.Ok? && browser.atob(publicKey).Ok? ==>
              r == Ok(browser.btoa(Latin1String(Seal(loaded.value, keyPair,
                Latin1Bytes(browser.atob(publicKey).value), browser.encodeUtf8(secretValue)))))
  {
    match loaded
    case Err(e) => Err(e)
    case Ok(nacl) =>
      match browser.atob(publicKey)
      case Err(e) => Err(e)
      case Ok(binary) =>
        var recipientKey := Latin1Bytes(binary);
        Ok(browser.btoa(Latin1String(Seal(nacl, keyPair, recipientKey, browser.encodeUtf8(secretValue)))))
  }

  /** `encryptSecret`, with its `Uint8Array` buffers filled by `set` as the source does. */
  method EncryptSecret(publicKey: string, secretValue: string, loaded: Result<NaCl>, browser: Browser, keyPair: KeyPair)
    returns (r: Result<string>)
    ensures r == EncryptedValue(publicKey, secretValue, loaded, browser, keyPair)
  {
    if loaded.Err? {
      return Err(loaded.error);
    }
    var nacl := loaded.value;
    var decoded := browser.atob(publicKey);
    if decoded.Err? {
      return Err(decoded.error);
    }
    var publicKeyArray := BinaryToBytes(decoded.value);
    var publicKeyBytes := publicKeyArray[..];
    var messageBytes := browser.encodeUtf8(secretValue);
    var sharedKey := nacl.before(publicKeyBytes, keyPair.secretKey);

    var nonceInput := Concat(keyPair.publicKey, publicKeyBytes);

    var digest := nacl.hash(nonceInput[..]);
    var nonce := Take(digest, nacl.nonceLength);

    var cipher := nacl.after(messageBytes, nonce, sharedKey);
    var sealed := Concat(keyPair.publicKey, cipher);
    assert sealed[..] == Seal(nacl, keyPair, publicKeyBytes, messageBytes);

    var binary := BytesToBinary(sealed);
    return Ok(browser.btoa(binary));
  }

  /** `{ key_id, key }` of the repository's public key. */
  datatype PublicKey = PublicKey(keyId: string, key: string)

  /** The requests `upsertGitHubSecret` issues, in order. */
  datatype GitHubCall =
    | GetPublicKey(url: string)
    | PutSecret(url: string, encryptedValue: string, keyId: string)

  datatype SecretInput = SecretInput(owner: string, repo: string, name: string, value: string, token: string, baseUrl: Option<string>)

  /** The repository's Actions public-key endpoint under the resolved API base. */
  function PublicKeyUrl(input: SecretInput): (url: string)
    ensures StartsWith(url, StripTrailingSlash(input.baseUrl.GetOr(DefaultApi)) + "/")
    ensures EndsWith(url, "repos/" + input.owner + "/" + input.repo + "/actions/secrets/public-key")
    ensures |url| == |StripTrailingSlash(input.baseUrl.GetOr(DefaultApi))| + 1
                     + |"repos/" + input.owner + "/" + input.repo + "/actions/secrets/public-key"|
  {
    var relative := "repos/" + input.owner + "/" + input.repo + "/actions/secrets/public-key";
    assert StripLeadingSlash("/" + relative) == relative;
    assert StripTrailingSlash(DefaultApi) == DefaultApi;
    RequestUrl(input.baseUrl, "/" + relative)
  }

  /** The endpoint of the named secret in the repository's Actions secrets, under the resolved API base. */
  function SecretUrl(input: SecretInput): (url: string)
    ensures StartsWith(url, StripTrailingSlash(input.baseUrl.GetOr(DefaultApi)) + "/")
    ensures EndsWith(url, "repos/" + input.owner + "/" + input.repo + "/actions/secrets/" + input.name)
    ensures |url| == |StripTrailingSlash(input.baseUrl.GetOr(DefaultApi))| + 1
                     + |"repos/" + input.owner + "/" + input.repo + "/actions/secrets/" + input.name|
  {
    var relative := "repos/" + input.owner + "/" + input.repo + "/actions/secrets/" + input.name;
    assert StripLeadingSlash("/" + relative) == relative;
    assert StripTrailingSlash(DefaultApi) == DefaultApi;
    RequestUrl(input.baseUrl, "/" + relative)
  }

  /**
   * `upsertGitHubSecret`: fetch the public key, encrypt with it, then PUT the ciphertext with
   * that same key's id. `keyFetch` and `putOutcome` are the outcomes of the two requests.
   */
  method UpsertGitHubSecret(input: SecretInput, keyFetch: Result<PublicKey>, loaded: Result<NaCl>, browser: Browser,
                            keyPair: KeyPair, putOutcome: Outcome)
    returns (calls: seq<GitHubCall>, r: Outcome)
    ensures 1 <= |calls| <= 2 && calls[0] == GetPublicKey(PublicKeyUrl(input))
    ensures |calls| == 2 <==> keyFetch.Ok? && loaded.Ok? && browser.atob(keyFetch.value.key).Ok?
    ensures keyFetch.Err? ==> |calls| == 1 && r == Failed(keyFetch.error)
    ensures keyFetch.Ok? ==>
              var encrypted := EncryptedValue(keyFetch.value.key, input.value, loaded, browser, keyPair);
              && (encrypted.Err? ==> |calls| == 1 && r == Failed(encrypted.error))
              && (encrypted.Ok? ==> calls == [calls[0], PutSecret(SecretUrl(input), encrypted.value, keyFetch.value.keyId)]
                                    && r == putOutcome)
  {
    var first := GetPublicKey(PublicKeyUrl(input));
    match keyFetch {
      case Err(e) =>
        calls, r := [first], Failed(e);
      case Ok(publicKey) =>
        var encrypted := EncryptSecret(publicKey.key, input.value, loaded, browser, keyPair);
        match encrypted {
          case Err(e) =>
            calls, r := [first], Failed(e);
          case Ok(value) =>
            calls, r := [first, PutSecret(SecretUrl(input), value, publicKey.keyId)], putOutcome;
        }
    }
  }
}
