/** Protocol values the indexer receives from a Farcaster hub: decoded
    messages, their bodies and the message-type codes, together with the
    shape predicates that decide which family a message belongs to. */
module Protocol {

  datatype Option<T> = None | Some(value: T) {
    /** The wrapped value, or `default` when there is none. */
    function GetOr(default: T): T {
      match this
      case Some(v) => v
      case None => default
    }
  }

  datatype Result<T, E> = Ok(value: T) | Err(error: E)

  datatype Outcome<E> = Pass | Fail(error: E)

  type Bytes = seq<bv8>

  /** A Farcaster identity id. */
  type Fid = nat

  /** A point in time, in milliseconds since the Unix epoch. */
  type Date = int

  // Message-type codes of the Farcaster protocol.
  const CAST_ADD: nat := 1
  const CAST_REMOVE: nat := 2
  const REACTION_ADD: nat := 3
  const REACTION_REMOVE: nat := 4
  const LINK_ADD: nat := 5
  const LINK_REMOVE: nat := 6
  const VERIFICATION_ADD_ETH_ADDRESS: nat := 7
  const VERIFICATION_REMOVE: nat := 8
  const USER_DATA_ADD: nat := 11

  datatype CastId = CastId(fid: Fid, hash: Bytes)

  datatype Embed = UrlEmbed(url: string) | CastIdEmbed(castId: CastId)

  /** The body a message carries; the variant tells which body field of the
      protocol's message data is set. */
  datatype Body =
    | CastAddBody(embeds: seq<Embed>, mentions: seq<Fid>, parentCastId: Option<CastId>,
                  parentUrl: Option<string>, text: string, mentionsPositions: seq<nat>)
    | CastRemoveBody(targetHash: Bytes)
    | ReactionBody(reactionType: nat, targetCastId: Option<CastId>, targetUrl: Option<string>)
    | LinkBody(linkType: string, displayTimestamp: Option<nat>, targetFid: Option<Fid>)
    | UserDataBody(userDataType: nat, value: string)
    | VerificationAddAddressBody(address: Bytes, claimSignature: Bytes, blockHash: Bytes)
    | VerificationRemoveBody(address: Bytes)
    | OtherBody

  /** `timestamp` is Farcaster time: seconds since the Farcaster epoch. */
  datatype MessageData = MessageData(messageType: nat, fid: Fid, timestamp: nat, body: Body)

  datatype Message = Message(data: Option<MessageData>, hash: Bytes)

  /** The state the hub reports for a merged message. */
  datatype MessageState = Created | Deleted

  /** The two time conversions the models rely on: `fromFarcasterTime` turns
      Farcaster time into a date; `farcasterTimeToDate` does the same but may
      yield nothing. */
  datatype TimeConversion = TimeConversion(fromFarcasterTime: nat -> Date,
                                           farcasterTimeToDate: nat -> Option<Date>)

  /** The date a soft-delete with a fallback stores: the converted
      timestamp of the remove message, or `now` when the conversion yields
      nothing. */
  function DeletedAt(message: Message, conv: TimeConversion, now: Date): Date
    requires message.data.Some?
  {
    conv.farcasterTimeToDate(message.data.value.timestamp).GetOr(now)
  }

  /** A message has a given shape when it carries data with that type code
      and the body that goes with it. */
  predicate HasShape(m: Message, code: nat, body: Body -> bool)
  {
    m.data.Some? && m.data.value.messageType == code && body(m.data.value.body)
  }

  predicate IsCastAddMessage(m: Message) { HasShape(m, CAST_ADD, (b: Body) => b.CastAddBody?) }
  predicate IsCastRemoveMessage(m: Message) { HasShape(m, CAST_REMOVE, (b: Body) => b.CastRemoveBody?) }
  predicate IsReactionAddMessage(m: Message) { HasShape(m, REACTION_ADD, (b: Body) => b.ReactionBody?) }
  predicate IsReactionRemoveMessage(m: Message) { HasShape(m, REACTION_REMOVE, (b: Body) => b.ReactionBody?) }
  predicate IsLinkAddMessage(m: Message) { HasShape(m, LINK_ADD, (b: Body) => b.LinkBody?) }
  predicate IsLinkRemoveMessage(m: Message) { HasShape(m, LINK_REMOVE, (b: Body) => b.LinkBody?) }
  predicate IsUserDataAddMessage(m: Message) { HasShape(m, USER_DATA_ADD, (b: Body) => b.UserDataBody?) }
  predicate IsVerificationAddAddressMessage(m: Message)
  {
    HasShape(m, VERIFICATION_ADD_ETH_ADDRESS, (b: Body) => b.VerificationAddAddressBody?)
  }
  predicate IsVerificationRemoveMessage(m: Message)
  {
    HasShape(m, VERIFICATION_REMOVE, (b: Body) => b.VerificationRemoveBody?)
  }
}
