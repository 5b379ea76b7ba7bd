/** The verifications table: one row per (fid, signerAddress); a
    verification-remove soft-deletes the rows carrying its own hash, with
    no fallback date. */
module VerificationsModel {
  import opened Protocol
  import opened Table
  import opened Db

  /** The record insertOne writes for a verification-add-address message:
      the address becomes signerAddress, the claim signature becomes
      signature. */
  function FormatVerificationAddAddressMessage(message: Message, conv: TimeConversion): (v: VerificationRecord)
    requires IsVerificationAddAddressMessage(message)
    ensures v.fid == message.data.value.fid && v.hash == message.hash
    ensures v.signerAddress == message.data.value.body.address
    ensures v.signature == message.data.value.body.claimSignature
    ensures v.blockHash == message.data.value.body.blockHash
    ensures v.timestamp == conv.fromFarcasterTime(message.data.value.timestamp)
  {
    var data := message.data.value;
    VerificationRecord(
      timestamp := conv.fromFarcasterTime(data.timestamp),
      fid := data.fid,
      hash := message.hash,
      signerAddress := data.body.address,
      blockHash := data.body.blockHash,
      signature := data.body.claimSignature)
  }

  /** The conflict key of a verification-add-address message. */
  function KeyOf(message: Message): (Fid, Bytes)
    requires IsVerificationAddAddressMessage(message)
  {
    (message.data.value.fid, message.data.value.body.address)
  }

  /** The verifications table after insertOne (ON CONFLICT (fid,
      signerAddress) DO NOTHING): a row for a new key is appended; a known
      key leaves the table as it was, whatever the incoming hash. */
  function AfterInsertOne(t: seq<Row<VerificationRecord>>, message: Message, conv: TimeConversion)
    : (u: seq<Row<VerificationRecord>>)
    requires IsVerificationAddAddressMessage(message)
    ensures Has(t, VerificationKey, KeyOf(message)) ==> u == t
    ensures !Has(t, VerificationKey, KeyOf(message)) ==>
              |u| == |t| + 1 && u[..|t|] == t &&
              u[|t|] == Row(FormatVerificationAddAddressMessage(message, conv), None)
    ensures Has(u, VerificationKey, KeyOf(message))
  {
    InsertOrIgnore(t, FormatVerificationAddAddressMessage(message, conv), VerificationKey)
  }

  /** The verifications table after deleteOne: rows whose hash is the
      remove message's own hash get whatever the conversion of the remove
      timestamp yields, null included; nothing else changes. */
  function AfterDeleteOne(t: seq<Row<VerificationRecord>>, message: Message, conv: TimeConversion)
    : (u: seq<Row<VerificationRecord>>)
    requires IsVerificationRemoveMessage(message)
    ensures |u| == |t|
    ensures forall i :: 0 <= i < |t| ==> u[i].record == t[i].record
    ensures forall i :: 0 <= i < |t| ==>
              u[i].deletedAt == if t[i].record.hash == message.hash
                                then conv.farcasterTimeToDate(message.data.value.timestamp)
                                else t[i].deletedAt
  {
    SoftDelete(t, VerificationHash, message.hash, conv.farcasterTimeToDate(message.data.value.timestamp))
  }

  /** The table keeps at most one row per (fid, signerAddress). */
  lemma InsertOneKeepsUnique(t: seq<Row<VerificationRecord>>, message: Message, conv: TimeConversion)
    requires IsVerificationAddAddressMessage(message) && UniqueBy(t, VerificationKey)
    ensures UniqueBy(AfterInsertOne(t, message, conv), VerificationKey)
  {
    InsertOrIgnoreKeepsUnique(t, FormatVerificationAddAddressMessage(message, conv), VerificationKey);
  }

  /** An add for a known (fid, signerAddress) under a hash the table does
      not hold is dropped: its hash is not recorded anywhere. */
  lemma InsertOneDropsNewHashForKnownKey(t: seq<Row<VerificationRecord>>, message: Message, conv: TimeConversion)
    requires IsVerificationAddAddressMessage(message)
    requires Has(t, VerificationKey, KeyOf(message)) && !Has(t, VerificationHash, message.hash)
    ensures !Has(AfterInsertOne(t, message, conv), VerificationHash, message.hash)
  {
  }

  /** Deleting twice with the same message is deleting once. */
  lemma DeleteOneIdempotent(t: seq<Row<VerificationRecord>>, message: Message, conv: TimeConversion)
    requires IsVerificationRemoveMessage(message)
    ensures AfterDeleteOne(AfterDeleteOne(t, message, conv), message, conv) == AfterDeleteOne(t, message, conv)
  {
    SoftDeleteIdempotent(t, VerificationHash, message.hash, conv.farcasterTimeToDate(message.data.value.timestamp));
  }

  /** deleteOne never creates a row: with no row carrying the remove's
      hash, the table is unchanged. */
  lemma DeleteOneWithoutMatch(t: seq<Row<VerificationRecord>>, message: Message, conv: TimeConversion)
    requires IsVerificationRemoveMessage(message) && !Has(t, VerificationHash, message.hash)
    ensures AfterDeleteOne(t, message, conv) == t
  {
    SoftDeleteMissingHash(t, VerificationHash, message.hash, conv.farcasterTimeToDate(message.data.value.timestamp));
  }

  /** The model object of the verifications table. */
  class Verifications {
    const appDb: AppDb

    constructor (appDb: AppDb)
      ensures this.appDb == appDb
    {
      this.appDb := appDb;
    }

    method InsertOne(message: Message, conv: TimeConversion)
      requires IsVerificationAddAddressMessage(message)
      modifies appDb`verifications
      ensures appDb.verifications == AfterInsertOne(old(appDb.verifications), message, conv)
    {
      appDb.verifications := AfterInsertOne(appDb.verifications, message, conv);
    }

    method DeleteOne(message: Message, conv: TimeConversion)
      requires IsVerificationRemoveMessage(message)
      modifies appDb`verifications
      ensures appDb.verifications == AfterDeleteOne(old(appDb.verifications), message, conv)
    {
      appDb.verifications := AfterDeleteOne(appDb.verifications, message, conv);
    }
  }
}
