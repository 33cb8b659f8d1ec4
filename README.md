# Tag-QR example service: request authentication, modelled in Dafny

This project models the authentication scheme of a small webhook receiver for
Tag-QR payments. The receiver handles two inbound calls from the SuperApp
platform:

- **price lookup** (`GetPrice`): answers with a price.
- **gate open** (`OpenGate`): acknowledges the request and sends a signed callback.

Each call is authenticated by a hash in the request body. The hash covers a
fixed, call-specific list of fields plus a shared salt. The fields are joined
with no separator, hashed with SHA-1, and the 20-byte digest is written as
lowercase hexadecimal. There are three field orders, and they differ on purpose:

| message | signed fields, in order |
|---|---|
| price request | ref code, user id, order id, salt |
| gate request (inbound) | salt, fail URL, success URL, price |
| gate callback (outbound) | price, success URL, fail URL, salt |

Modules, one per source file plus two library stand-ins:

- `Hex` (`hex.dfy`): lowercase hex encoding as Go's `hex.EncodeToString` does it,
  with a decoder as its partner. This is the Base16 encoding of section 8 of
  RFC 4648, with a lowercase alphabet.
- `Helpers` (`helpers.dfy`): `Join` and `Hash`. SHA-1 is a parameter `sha1: seq<byte> -> Digest`
  (`|Digest| == 20`). So every property holds for any 20-byte digest function.
- `Price` (`price.dfy`): `verifyHash` and the accept/reject decision of `GetPrice`.
- `OpenGate` (`open_gate.dfy`): `verifyRequestHash`, `callbackPostData`, the two
  callback targets, and the decision of `OpenGate`.
- `Http` (`http.dfy`) holds the status codes and the rejection message.
- `Wrappers` (`wrappers.dfy`) holds `Option`.

Modelling choices:

- Go strings are byte strings, so every request field is a `seq<byte>` (`GoString`).
  `[]byte(s)` is the identity on them.
- The salt, which the service reads with `os.Getenv("SALT")`, is an explicit parameter.
- A handler is a pure function from a parsed request to a reply record. The
  record holds the status, the body and, for `OpenGate`, the one post it would
  dispatch (URL, content type, payload).

Two behaviours of the code worth noting:

- The 403 body of `GetPrice` has an empty user message. The JSON encoder omits it.
- `OpenGate` only ever dispatches the success callback. `PingCallbackFail` is
  modelled, but nothing calls it, as in the source.

## Model

| member | source | states |
|---|---|---|
| `Hex.Encode` | routes/helpers.go:15 | the rendering of n bytes is 2n characters, each one of '0'-'9' or 'a'-'f' |
| `Hex.Decode` | routes/helpers.go:15 | reference decoder: a successful decode halves the length, so an odd length fails; any byte that is not a hex digit of either case makes it fail |
| `Hex.DecodeEncode` | routes/helpers.go:15 | decoding the rendering of any bytes gives those bytes back |
| `Hex.EncodeInjective` | routes/helpers.go:15 | two byte strings with the same rendering are equal |
| `Hex.EncodeDecode` | routes/helpers.go:15 | every even-length lowercase hex string is the rendering of what it decodes to |
| `Hex.IsEncodingIff` | routes/helpers.go:15 | s renders bs exactly when s is lowercase hex and decodes to bs |
| `Hex.DecodeToUpper` | routes/helpers.go:15 | ASCII upper-casing never changes what a string decodes to |
| `Helpers.Join` | routes/helpers.go:10 | the first field is a prefix of the join, every field fits inside it, and the join is empty exactly when every field is empty, so no separator is added |
| `Helpers.JoinAppend` | routes/helpers.go:10 | joining with "" distributes over appending field lists |
| `Helpers.JoinFour` | routes/helpers.go:10 | the join of four fields is their plain concatenation: no separator is inserted |
| `Helpers.JoinInjectiveOnShape` | routes/helpers.go:10 | for lists with matching field lengths, equal joins mean equal lists, so a changed byte in any field changes the digest input |
| `Helpers.Hash` | routes/helpers.go:9-16 | the hash is 40 lowercase hex characters that decode to the digest of the joined fields; it is a function of the ordered fields and so is deterministic |
| `Helpers.HashEqualIff` | routes/helpers.go:12-15 | two hashes are equal exactly when the digests of the two joins are equal |
| `Helpers.HashIgnoresFieldBoundaries` | routes/helpers.go:10 | ["ab","c"] and ["a","bc"] hash the same |
| `Price.VerifyHash` | routes/price.go:53-67 | accepted iff the hash is lowercase hex decoding to the digest of refCode, userId, orderId and salt, concatenated in that order; any hash whose length is not 40 is rejected |
| `Price.GetPrice` | routes/price.go:28-50 | status is 200 iff verification passes, and then the body carries the price; otherwise 403 with "Hash is invalid", no price, and the same reply whatever the quote |
| `Price.VerifyHashSeesOnlyConcatenation` | routes/price.go:54-66 | the verdict depends only on the hash, the salt and the concatenation of the three signed fields |
| `Price.PriceExample` | routes/price.go:53-67 | with salt "abc" and R1/U1/O1, the hash of ["R1","U1","O1","abc"] gives 200 with the price, any other hash gives 403 |
| `OpenGate.VerifyRequestHash` | routes/open_gate.go:65-79 | accepted iff the hash is lowercase hex decoding to the digest of salt, fail URL, success URL and price, concatenated in that order; any hash whose length is not 40 is rejected |
| `OpenGate.CallbackPostData` | routes/open_gate.go:81-96 | the payload's hash is 40 lowercase hex characters decoding to the digest of price, success URL, fail URL and salt, concatenated in that order; the payload has no other field |
| `OpenGate.PingCallbackSuccess` | routes/open_gate.go:98-102 | posts JSON to the success URL; the payload hash is 40 lowercase hex characters decoding to the digest of price, success URL, fail URL and salt, which fixes it exactly |
| `OpenGate.PingCallbackFail` | routes/open_gate.go:105-109 | posts JSON to the fail URL; the payload hash is 40 lowercase hex characters decoding to the digest of price, success URL, fail URL and salt, which fixes it exactly |
| `OpenGate.FailPathDiffersOnlyInUrl` | routes/open_gate.go:98-109 | the fail post is the success post with only the URL changed |
| `OpenGate.OpenGate` | routes/open_gate.go:33-62 | if the request does not verify: 403, "Hash is invalid", no callback; if it does: 200, "Success" and exactly one callback, to the success URL |
| `OpenGate.OpenGateIgnoresUnsignedFields` | routes/open_gate.go:65-71 | changing point, ref code, user id or order id changes neither the verdict nor anything in the reply |
| `OpenGate.UpperCaseHashRejected` | routes/open_gate.go:78 | upper-casing a valid hash that contains a letter makes it fail, although it decodes to the same digest |
| `OpenGate.TamperedRequestRejected` | routes/open_gate.go:65-79 | changing a signed field of a verified request, keeping lengths and hash, makes it fail, provided the digest tells the two inputs apart |
| `OpenGate.CallbackIsNotEcho` | routes/open_gate.go:81-93 | the callback hash differs from the accepted inbound hash whenever the digest tells the two field orders apart |

`Hex.ToUpper` (ASCII upper-casing of any byte string) does not model anything
the service does: the service never upper-cases. It exists only to state that
the hash comparison is case-sensitive (`OpenGate.UpperCaseHashRejected`) while
decoding is not (`Hex.DecodeToUpper`).

## Left out

- Routing, CORS, the 404 fallback, `.env` loading and the port flag (main.go): framework and I/O setup.
- Body parsing: a body that does not parse makes either handler return the parser's error. The model starts from a parsed request.
- JSON encoding of responses and of the callback body: each is a record.
- SHA-1 internals: the digest function is a parameter. Its collision resistance cannot be proved, so lemmas that need two digests to differ take that as a precondition on those two inputs only.
- `os.Getenv("SALT")`: the salt is a parameter.
- The goroutine and `http.Post`: the model records which URL and which payload would be posted. Asynchrony, transport errors, the missing timeout and the discarded response are not modelled.
- `calcPrice`: a float32 drawn from a global random generator. The price is an opaque value of a type parameter, passed in as `quote`, and its range [1, 10) is not modelled.
