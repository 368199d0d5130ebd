/** Wire and storage records of the synchronization protocol. Revisions and sequences are unbounded here. */
module Protocol {
  import opened Text

  const ENVELOPE_VERSION_V1: nat := 1

  datatype Container = Container(nonce: string, ciphertext: string)

  datatype Envelope = Envelope(
    version: nat,
    objectId: string,
    objectKind: nat,
    wrappedKey: Container,
    payload: Container)

  datatype PushRequest = PushRequest(
    mutationId: string,
    objectId: string,
    expectedRevision: nat,
    objectKind: nat,
    envelope: Envelope,
    isDeleted: bool)

  datatype PushResponse = PushResponse(objectId: string, revision: nat, serverSeq: nat)

  datatype ConflictResponse = ConflictResponse(
    objectId: string,
    expectedRevision: nat,
    currentRevision: nat,
    currentServerSeq: nat,
    currentEnvelope: Envelope,
    isDeleted: bool)

  datatype ObjectChange = ObjectChange(
    serverSeq: nat,
    objectId: string,
    revision: nat,
    objectKind: nat,
    isDeleted: bool,
    envelope: Envelope)

  datatype NetworkError =
    | Conflict(response: ConflictResponse)
    | ReplayMismatch
    | ConnectionFailed
    | ServerError(status: nat)
    | Fatal(code: nat)

  datatype Outcome<+T> = Ok(value: T) | Err(error: NetworkError)
}
