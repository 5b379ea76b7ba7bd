/** The application database: the record each of the five entity tables
    stores, the conflict keys its statements use, and the `AppDb` object the
    models write through. */
module Db {
  import opened Protocol
  import opened Table

  datatype CastRecord = CastRecord(
    timestamp: Date, fid: Fid, parentFid: Option<Fid>, hash: Bytes, parentHash: Option<Bytes>,
    parentUrl: Option<string>, text: string, embeds: seq<Embed>, mentions: seq<Fid>,
    mentionsPositions: seq<nat>)

  datatype ReactionRecord = ReactionRecord(
    timestamp: Date, fid: Fid, targetCastFid: Option<Fid>, reactionType: nat, hash: Bytes,
    targetCastHash: Option<Bytes>, targetUrl: Option<string>)

  datatype LinkRecord = LinkRecord(
    timestamp: Date, fid: Fid, targetFid: Option<Fid>, displayTimestamp: Option<Date>,
    linkType: string, hash: Bytes)

  datatype UserDataRecord = UserDataRecord(
    timestamp: Date, fid: Fid, userDataType: nat, hash: Bytes, value: string)

  datatype VerificationRecord = VerificationRecord(
    timestamp: Date, fid: Fid, hash: Bytes, signerAddress: Bytes, blockHash: Bytes,
    signature: Bytes)

  function CastHash(c: CastRecord): Bytes { c.hash }
  function ReactionHash(r: ReactionRecord): Bytes { r.hash }
  function LinkHash(l: LinkRecord): Bytes { l.hash }
  function UserDataHash(u: UserDataRecord): Bytes { u.hash }
  function VerificationHash(v: VerificationRecord): Bytes { v.hash }

  /** The conflict key of userDatas: (fid, type). */
  function UserDataKey(u: UserDataRecord): (Fid, nat) { (u.fid, u.userDataType) }

  /** The conflict key of verifications: (fid, signerAddress). */
  function VerificationKey(v: VerificationRecord): (Fid, Bytes) { (v.fid, v.signerAddress) }

  /** The contents of the five tables at one moment. */
  datatype Tables = Tables(
    casts: seq<Row<CastRecord>>,
    reactions: seq<Row<ReactionRecord>>,
    links: seq<Row<LinkRecord>>,
    userDatas: seq<Row<UserDataRecord>>,
    verifications: seq<Row<VerificationRecord>>)

  /** Each table holds at most one row per conflict key: per hash for
      casts, reactions and links, per (fid, type) for userDatas and per
      (fid, signerAddress) for verifications. */
  predicate Valid(t: Tables)
  {
    && UniqueBy(t.casts, CastHash)
    && UniqueBy(t.reactions, ReactionHash)
    && UniqueBy(t.links, LinkHash)
    && UniqueBy(t.userDatas, UserDataKey)
    && UniqueBy(t.verifications, VerificationKey)
  }

  /** The database handle the models share; each table is a field that the
      models' statements reassign. */
  class AppDb {
    var casts: seq<Row<CastRecord>>
    var reactions: seq<Row<ReactionRecord>>
    var links: seq<Row<LinkRecord>>
    var userDatas: seq<Row<UserDataRecord>>
    var verifications: seq<Row<VerificationRecord>>

    /** The current contents of all five tables. */
    function Snapshot(): Tables
      reads this
    {
      Tables(casts, reactions, links, userDatas, verifications)
    }
  }
}
