/**
 * The gate-open flow: the inbound request is signed over salt ‖ fail URL ‖
 * success URL ‖ price; a request that verifies is acknowledged with 200 and
 * one callback is dispatched to the success URL, carrying a hash signed over
 * price ‖ success URL ‖ fail URL ‖ salt. The dispatch is modelled as the
 * post it would make (which URL, which payload), not as a network call.
 */
module OpenGate {
  import opened Wrappers
  import opened Hex
  import opened Helpers
  import opened Http

  datatype OpenGateRequest = OpenGateRequest(
    price: GoString,
    point: GoString,
    refCode: GoString,
    userId: GoString,
    orderId: GoString,
    callbackSuccessUrl: GoString,
    callbackFailUrl: GoString,
    hash: GoString)

  datatype OpenGateResponse = OpenGateResponse(message: string)

  /** The callback body: the signature and nothing else. */
  datatype CallbackRequest = CallbackRequest(hash: GoString)

  /** One `http.Post(url, contentType, body)`. */
  datatype Post = Post(url: GoString, contentType: string, body: CallbackRequest)

  /** The response the handler writes and the callback it dispatches, if any. */
  datatype GateReply = GateReply(status: int, body: OpenGateResponse, callback: Option<Post>)

  const JsonContentType: string := "application/json"
  const SuccessMessage: string := "Success"

  /** The signed fields of an inbound gate request, in protocol order. */
  function RequestFields(salt: GoString, r: OpenGateRequest): seq<GoString> {
    [salt, r.callbackFailUrl, r.callbackSuccessUrl, r.price]
  }

  /** The signed fields of the outbound callback, in protocol order. */
  function CallbackFields(salt: GoString, r: OpenGateRequest): seq<GoString> {
    [r.price, r.callbackSuccessUrl, r.callbackFailUrl, salt]
  }

  /**
   * `verifyRequestHash`: accepted exactly when the supplied hash is the
   * lowercase rendering of the digest of salt ‖ fail URL ‖ success URL ‖ price;
   * a hash of any length other than 40 never passes.
   */
  function VerifyRequestHash(salt: GoString, sha1: Sha1, r: OpenGateRequest): (ok: bool)
    ensures ok <==> IsLowerHex(r.hash)
                    && Decode(r.hash) == Some(sha1(salt + r.callbackFailUrl + r.callbackSuccessUrl + r.price))
    ensures |r.hash| != 2 * Size ==> !ok
  {
    JoinFour(salt, r.callbackFailUrl, r.callbackSuccessUrl, r.price);
    IsEncodingIff(r.hash, sha1(salt + r.callbackFailUrl + r.callbackSuccessUrl + r.price));
    r.hash == Hash(sha1, RequestFields(salt, r))
  }

  /**
   * `callbackPostData`: the payload's hash is 40 lowercase digits rendering
   * the digest of price ‖ success URL ‖ fail URL ‖ salt.
   */
  function CallbackPostData(salt: GoString, sha1: Sha1, r: OpenGateRequest): (c: CallbackRequest)
    ensures |c.hash| == 2 * Size && IsLowerHex(c.hash)
    ensures Decode(c.hash) == Some(sha1(r.price + r.callbackSuccessUrl + r.callbackFailUrl + salt))
  {
    JoinFour(r.price, r.callbackSuccessUrl, r.callbackFailUrl, salt);
    CallbackRequest(Hash(sha1, CallbackFields(salt, r)))
  }

  /**
   * `pingCallbackSuccess`: a JSON post to the success URL whose payload hash is
   * exactly the lowercase rendering of the outbound digest (by `IsEncodingIff`
   * no other hash meets these clauses).
   */
  function PingCallbackSuccess(salt: GoString, sha1: Sha1, r: OpenGateRequest): (p: Post)
    ensures p.url == r.callbackSuccessUrl && p.contentType == JsonContentType
    ensures |p.body.hash| == 2 * Size && IsLowerHex(p.body.hash)
    ensures Decode(p.body.hash) == Some(sha1(r.price + r.callbackSuccessUrl + r.callbackFailUrl + salt))
  {
    Post(r.callbackSuccessUrl, JsonContentType, CallbackPostData(salt, sha1, r))
  }

  /**
   * `pingCallbackFail`: a JSON post to the fail URL whose payload hash is
   * exactly the lowercase rendering of the outbound digest (by `IsEncodingIff`
   * no other hash meets these clauses).
   */
  function PingCallbackFail(salt: GoString, sha1: Sha1, r: OpenGateRequest): (p: Post)
    ensures p.url == r.callbackFailUrl && p.contentType == JsonContentType
    ensures |p.body.hash| == 2 * Size && IsLowerHex(p.body.hash)
    ensures Decode(p.body.hash) == Some(sha1(r.price + r.callbackSuccessUrl + r.callbackFailUrl + salt))
  {
    Post(r.callbackFailUrl, JsonContentType, CallbackPostData(salt, sha1, r))
  }

  /**
   * `OpenGate` once the body is parsed: a request that does not verify gets
   * 403 with the fixed message and no callback; one that verifies gets 200
   * with "Success" and exactly one callback, to the success URL. The last
   * clause follows from the first two; it is kept to say outright that a
   * callback is only ever sent with a 200 and only to the success URL.
   */
  function OpenGate(salt: GoString, sha1: Sha1, r: OpenGateRequest): (rep: GateReply)
    ensures !VerifyRequestHash(salt, sha1, r) ==>
              rep == GateReply(StatusForbidden, OpenGateResponse(HashInvalid), None)
    ensures VerifyRequestHash(salt, sha1, r) ==>
              && rep.status == StatusOK
              && rep.body == OpenGateResponse(SuccessMessage)
              && rep.callback == Some(PingCallbackSuccess(salt, sha1, r))
    ensures rep.callback.Some? ==> rep.status == StatusOK && rep.callback.value.url == r.callbackSuccessUrl
  {
    if !VerifyRequestHash(salt, sha1, r) then
      GateReply(StatusForbidden, OpenGateResponse(HashInvalid), None)
    else
      GateReply(StatusOK, OpenGateResponse(SuccessMessage), Some(PingCallbackSuccess(salt, sha1, r)))
  }

  /** The fail path posts exactly the payload the success path would, to the other URL. */
  lemma FailPathDiffersOnlyInUrl(salt: GoString, sha1: Sha1, r: OpenGateRequest)
    ensures PingCallbackFail(salt, sha1, r) == PingCallbackSuccess(salt, sha1, r).(url := r.callbackFailUrl)
  {
  }

  /**
   * Point, reference code, user id and order id are neither signed nor used:
   * changing them never changes the handler's outcome, callback included.
   */
  lemma OpenGateIgnoresUnsignedFields(salt: GoString, sha1: Sha1, r: OpenGateRequest,
                                      point: GoString, refCode: GoString, userId: GoString, orderId: GoString)
    ensures var r' := r.(point := point, refCode := refCode, userId := userId, orderId := orderId);
            && VerifyRequestHash(salt, sha1, r') == VerifyRequestHash(salt, sha1, r)
            && OpenGate(salt, sha1, r') == OpenGate(salt, sha1, r)
  {
  }

  /**
   * The comparison is exact: upper-casing a valid hash that holds a letter
   * makes it fail, although it still decodes to the same digest.
   */
  lemma UpperCaseHashRejected(salt: GoString, sha1: Sha1, r: OpenGateRequest, i: nat)
    requires VerifyRequestHash(salt, sha1, r)
    requires i < |r.hash| && LowerA <= r.hash[i]
    ensures Decode(ToUpper(r.hash)) == Decode(r.hash)
    ensures !VerifyRequestHash(salt, sha1, r.(hash := ToUpper(r.hash)))
  {
    DecodeToUpper(r.hash);
    assert IsLowerHexDigit(r.hash[i]);
    assert !IsLowerHex(ToUpper(r.hash)) by {
      assert ToUpper(r.hash)[i] == r.hash[i] - 32;
    }
  }

  /**
   * Changing any signed field while keeping its length, and keeping the hash,
   * makes a verified request fail, provided the digest tells the two signed
   * inputs apart.
   */
  lemma TamperedRequestRejected(salt: GoString, sha1: Sha1, r: OpenGateRequest, r': OpenGateRequest)
    requires VerifyRequestHash(salt, sha1, r)
    requires r'.hash == r.hash
    requires |r'.callbackFailUrl| == |r.callbackFailUrl|
    requires |r'.callbackSuccessUrl| == |r.callbackSuccessUrl|
    requires |r'.price| == |r.price|
    requires RequestFields(salt, r') != RequestFields(salt, r)
    requires Join(RequestFields(salt, r')) != Join(RequestFields(salt, r)) ==>
               sha1(Join(RequestFields(salt, r'))) != sha1(Join(RequestFields(salt, r)))
    ensures !VerifyRequestHash(salt, sha1, r')
  {
    var a, b := RequestFields(salt, r'), RequestFields(salt, r);
    if Join(a) == Join(b) {
      JoinInjectiveOnShape(a, b);
    }
    HashEqualIff(sha1, a, b);
  }

  /**
   * The callback does not echo the inbound hash: the two directions sign the
   * same fields in different orders, so they differ whenever the digest tells
   * the two orders apart.
   */
  lemma CallbackIsNotEcho(salt: GoString, sha1: Sha1, r: OpenGateRequest)
    requires VerifyRequestHash(salt, sha1, r)
    requires sha1(salt + r.callbackFailUrl + r.callbackSuccessUrl + r.price)
             != sha1(r.price + r.callbackSuccessUrl + r.callbackFailUrl + salt)
    ensures CallbackPostData(salt, sha1, r).hash != r.hash
  {
  }
}
