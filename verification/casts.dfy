/** The casts table: a cast-add becomes a row by a plain insert, and a
    cast-remove soft-deletes the rows whose hash is the remove's hash. */
module CastsModel {
  import opened Protocol
  import opened Table
  import opened Db

  /** The record insertOne writes for a cast-add message. Embeds, mentions
      and mention positions are kept as values (the JSON text they are
      stored as is not modelled). */
  function FormatCastAddMessage(message: Message, conv: TimeConversion): (c: CastRecord)
    requires IsCastAddMessage(message)
    ensures c.fid == message.data.value.fid && c.hash == message.hash
    ensures c.text == message.data.value.body.text
    ensures c.timestamp == conv.fromFarcasterTime(message.data.value.timestamp)
    ensures message.data.value.body.parentCastId.None? ==> c.parentFid.None? && c.parentHash.None?
    ensures message.data.value.body.parentCastId.Some? ==>
              var parent := message.data.value.body.parentCastId.value;
              c.parentFid == Some(parent.fid) && c.parentHash == Some(parent.hash)
    ensures c.parentUrl == message.data.value.body.parentUrl
    ensures c.embeds == message.data.value.body.embeds && c.mentions == message.data.value.body.mentions
    ensures c.mentionsPositions == message.data.value.body.mentionsPositions
  {
    var data := message.data.value;
    var body := data.body;
    CastRecord(
      timestamp := conv.fromFarcasterTime(data.timestamp),
      fid := data.fid,
      parentFid := if body.parentCastId.Some? then Some(body.parentCastId.value.fid) else None,
      hash := message.hash,
      parentHash := if body.parentCastId.Some? then Some(body.parentCastId.value.hash) else None,
      parentUrl := body.parentUrl,
      text := body.text,
      embeds := body.embeds,
      mentions := body.mentions,
      mentionsPositions := body.mentionsPositions)
  }

  /** The casts table after insertOne: one row more, for this cast, and
      every earlier row as it was. */
  function AfterInsertOne(t: seq<Row<CastRecord>>, message: Message, conv: TimeConversion): (u: seq<Row<CastRecord>>)
    requires IsCastAddMessage(message)
    ensures |u| == |t| + 1 && u[..|t|] == t
    ensures u[|t|] == Row(FormatCastAddMessage(message, conv), None)
    ensures Has(u, CastHash, message.hash)
  {
    var u := Insert(t, FormatCastAddMessage(message, conv));
    assert CastHash(u[|t|].record) == message.hash;
    u
  }

  /** The casts table after deleteOne: rows whose hash is the remove
      message's own hash get `deletedAt`; nothing else changes. */
  function AfterDeleteOne(t: seq<Row<CastRecord>>, message: Message, conv: TimeConversion, now: Date): (u: seq<Row<CastRecord>>)
    requires IsCastRemoveMessage(message)
    ensures |u| == |t|
    ensures forall i :: 0 <= i < |t| ==> u[i].record == t[i].record
    ensures forall i :: 0 <= i < |t| ==>
              u[i].deletedAt == if t[i].record.hash == message.hash
                                then Some(DeletedAt(message, conv, now)) else t[i].deletedAt
  {
    SoftDelete(t, CastHash, message.hash, Some(DeletedAt(message, conv, now)))
  }

  /** A new hash keeps the casts table at one row per hash. */
  lemma InsertOneKeepsUnique(t: seq<Row<CastRecord>>, message: Message, conv: TimeConversion)
    requires IsCastAddMessage(message)
    requires UniqueBy(t, CastHash) && !Has(t, CastHash, message.hash)
    ensures UniqueBy(AfterInsertOne(t, message, conv), CastHash)
  {
    InsertKeepsUnique(t, FormatCastAddMessage(message, conv), CastHash);
  }

  /** Deleting twice with the same message and the same `now` is deleting once. */
  lemma DeleteOneIdempotent(t: seq<Row<CastRecord>>, message: Message, conv: TimeConversion, now: Date)
    requires IsCastRemoveMessage(message)
    ensures AfterDeleteOne(AfterDeleteOne(t, message, conv, now), message, conv, now) == AfterDeleteOne(t, message, conv, now)
  {
    SoftDeleteIdempotent(t, CastHash, message.hash, Some(DeletedAt(message, conv, now)));
  }

  /** When no row carries the remove's hash, deleteOne changes nothing: it
      never creates a row. */
  lemma DeleteOneWithoutMatch(t: seq<Row<CastRecord>>, message: Message, conv: TimeConversion, now: Date)
    requires IsCastRemoveMessage(message) && !Has(t, CastHash, message.hash)
    ensures AfterDeleteOne(t, message, conv, now) == t
  {
    SoftDeleteMissingHash(t, CastHash, message.hash, Some(DeletedAt(message, conv, now)));
  }

  /** The update matches on the remove message's own hash, not on the
      target hash its body names: the row of the removed cast keeps its
      `deletedAt` whenever the two hashes differ. */
  lemma DeleteOneMissesTarget(t: seq<Row<CastRecord>>, message: Message, conv: TimeConversion, now: Date, i: nat)
    requires IsCastRemoveMessage(message)
    requires i < |t| && t[i].record.hash == message.data.value.body.targetHash
    requires message.hash != message.data.value.body.targetHash
    ensures AfterDeleteOne(t, message, conv, now)[i] == t[i]
  {
  }

  /** The model object of the casts table. */
  class Casts {
    const appDb: AppDb

    constructor (appDb: AppDb)
      ensures this.appDb == appDb
    {
      this.appDb := appDb;
    }

    /** The plain insert; the hash must be new, as the caller's isNew gate
        ensures. */
    method InsertOne(message: Message, conv: TimeConversion)
      requires IsCastAddMessage(message)
      requires !Has(appDb.casts, CastHash, message.hash)
      modifies appDb`casts
      ensures appDb.casts == AfterInsertOne(old(appDb.casts), message, conv)
    {
      appDb.casts := AfterInsertOne(appDb.casts, message, conv);
    }

    method DeleteOne(message: Message, conv: TimeConversion, now: Date)
      requires IsCastRemoveMessage(message)
      modifies appDb`casts
      ensures appDb.casts == AfterDeleteOne(old(appDb.casts), message, conv, now)
    {
      appDb.casts := AfterDeleteOne(appDb.casts, message, conv, now);
    }
  }
}
