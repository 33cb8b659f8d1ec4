/** The HTTP status codes the two handlers answer with (`fiber.StatusOK`, `fiber.StatusForbidden`). */
module Http {

  const StatusOK: int := 200
  const StatusForbidden: int := 403

  /** The rejection message both handlers send when the signature does not match. */
  const HashInvalid: string := "Hash is invalid"
}
