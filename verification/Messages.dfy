/** The signalling messages that name a file, as the program reads their JSON members. */
module Messages {
  import opened Wrappers

  datatype FileInfo = FileInfo(name: string, size: int, mimeType: string, crc: Option<nat>)

  datatype Kind = FileOffer | FileAccept | FileReject | FileComplete | Offer

  /** A member is None when it is missing or not of the type the handlers ask for. */
  datatype Doc = Doc(kind: Kind, peer: Option<string>, room: Option<string>, uuid: Option<string>,
                     file: Option<FileInfo>)

  /** The answer that accepts an offer: the offer itself, turned round; nothing without a sender. */
  function AcceptReply(offer: Doc): Option<Doc> {
    if offer.peer.None? then None else Some(offer.(kind := FileAccept))
  }

  /** The answer that refuses an offer also needs the offer's uuid. */
  function RejectReply(offer: Doc): Option<Doc> {
    if offer.peer.None? || offer.uuid.None? then None else Some(offer.(kind := FileReject))
  }

  /** What the client's own thread is waiting for or doing. */
  datatype ClientState = INIT | WAITING_FOR_JOIN | JOINED | RUN | PING | WAIT_FOR_PONG | WAIT_FOR_FILE_ACCEPT | EXIT
}
