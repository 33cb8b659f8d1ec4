/**
 * The price lookup: the caller signs reference code, user id and order id
 * followed by the shared salt; a request whose hash does not match is refused
 * with 403, any other is answered with a price.
 */
module Price {
  import opened Wrappers
  import opened Hex
  import opened Helpers
  import opened Http

  datatype PriceRequest = PriceRequest(refCode: GoString, hash: GoString, userId: GoString, orderId: GoString)

  /** The two bodies the handler can send; the price itself is opaque here. */
  datatype PriceResponse<P> =
    | PriceSuccessResponse(price: P)
    | PriceFailResponse(message: string, userMessage: string)

  datatype Reply<P> = Reply(status: int, body: PriceResponse<P>)

  /** The signed fields of a price request, in protocol order. */
  function PriceFields(salt: GoString, r: PriceRequest): seq<GoString> {
    [r.refCode, r.userId, r.orderId, salt]
  }

  /**
   * `verifyHash`: accepted exactly when the supplied hash is the lowercase
   * rendering of the digest of refCode ‖ userId ‖ orderId ‖ salt; in
   * particular an empty, truncated or over-long hash never passes.
   */
  function VerifyHash(salt: GoString, sha1: Sha1, r: PriceRequest): (ok: bool)
    ensures ok <==> IsLowerHex(r.hash) && Decode(r.hash) == Some(sha1(r.refCode + r.userId + r.orderId + salt))
    ensures |r.hash| != 2 * Size ==> !ok
  {
    JoinFour(r.refCode, r.userId, r.orderId, salt);
    IsEncodingIff(r.hash, sha1(r.refCode + r.userId + r.orderId + salt));
    r.hash == Hash(sha1, PriceFields(salt, r))
  }

  /**
   * `GetPrice` once the body is parsed: 200 with the quoted price when the hash
   * verifies, otherwise 403 with the fixed message and no price, whatever the
   * quote would have been. `quote` stands for the value `calcPrice` draws.
   */
  function GetPrice<P>(salt: GoString, sha1: Sha1, r: PriceRequest, quote: P): (rep: Reply<P>)
    ensures rep.status == StatusOK <==> VerifyHash(salt, sha1, r)
    ensures rep.status == StatusOK ==> rep.body == PriceSuccessResponse(quote)
    ensures rep.status != StatusOK ==> rep == Reply(StatusForbidden, PriceFailResponse(HashInvalid, ""))
  {
    if !VerifyHash(salt, sha1, r) then
      Reply(StatusForbidden, PriceFailResponse(HashInvalid, ""))
    else
      Reply(StatusOK, PriceSuccessResponse(quote))
  }

  /**
   * The verdict depends on the request only through its hash and the
   * concatenation of the three signed fields: moving bytes across a field
   * boundary keeps a signature valid.
   */
  lemma VerifyHashSeesOnlyConcatenation(salt: GoString, sha1: Sha1, r: PriceRequest, r': PriceRequest)
    requires r'.hash == r.hash
    requires r'.refCode + r'.userId + r'.orderId == r.refCode + r.userId + r.orderId
    ensures VerifyHash(salt, sha1, r') == VerifyHash(salt, sha1, r)
  {
  }

  /**
   * With secret "abc" and reference code "R1", user id "U1", order id "O1",
   * the hash of ["R1", "U1", "O1", "abc"] is answered with 200 and the price;
   * every other hash with 403.
   */
  lemma PriceExample<P>(sha1: Sha1, h: GoString, quote: P)
    ensures var salt: GoString := [97, 98, 99];
            var r := PriceRequest([82, 49], h, [85, 49], [79, 49]);
            var expected := Hash(sha1, [[82, 49], [85, 49], [79, 49], salt]);
            GetPrice(salt, sha1, r, quote) ==
              if h == expected then Reply(StatusOK, PriceSuccessResponse(quote))
              else Reply(StatusForbidden, PriceFailResponse(HashInvalid, ""))
  {
  }
}
