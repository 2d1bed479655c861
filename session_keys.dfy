/** The storage key of a session's chat history: a name-based UUID
    (version 5 of RFC 4122, section 4.3) of the session id under the DNS
    namespace. The SHA-1 hashing inside is the `NameUuid` parameter, so the
    model keeps only that the key is a function of the session id. */
module SessionKeys {

  /** `uuid.NAMESPACE_DNS`, from appendix C of RFC 4122. */
  const NamespaceDns := "6ba7b810-9dad-11d1-80b4-00c04fd430c8"

  /** `uuid.uuid5(namespace, name)`, rendered as its string form. */
  type NameUuid = (string, string) -> string

  function SessionKey(uuid5: NameUuid, sessionId: string): (key: string)
    ensures key == uuid5(NamespaceDns, sessionId)
  {
    uuid5(NamespaceDns, sessionId)
  }
}
