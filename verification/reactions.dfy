/** The reactions table: a reaction-add is inserted unless a row with the
    same hash exists. The model object has no deleteOne. */
module ReactionsModel {
  import opened Protocol
  import opened Table
  import opened Db

  /** The record insertOne writes for a reaction-add message. */
  function FormatReactionAddMessage(message: Message, conv: TimeConversion): (r: ReactionRecord)
    requires IsReactionAddMessage(message)
    ensures r.fid == message.data.value.fid && r.hash == message.hash
    ensures r.reactionType == message.data.value.body.reactionType
    ensures r.timestamp == conv.fromFarcasterTime(message.data.value.timestamp)
    ensures message.data.value.body.targetCastId.None? ==> r.targetCastFid.None? && r.targetCastHash.None?
    ensures message.data.value.body.targetCastId.Some? ==>
              var target := message.data.value.body.targetCastId.value;
              r.targetCastFid == Some(target.fid) && r.targetCastHash == Some(target.hash)
    ensures r.targetUrl == message.data.value.body.targetUrl
  {
    var data := message.data.value;
    var body := data.body;
    ReactionRecord(
      timestamp := conv.fromFarcasterTime(data.timestamp),
      fid := data.fid,
      targetCastFid := if body.targetCastId.Some? then Some(body.targetCastId.value.fid) else None,
      reactionType := body.reactionType,
      hash := message.hash,
      targetCastHash := if body.targetCastId.Some? then Some(body.targetCastId.value.hash) else None,
      targetUrl := body.targetUrl)
  }

  /** The reactions table after insertOne (ON CONFLICT (hash) DO NOTHING):
      a row for a new hash is appended; a known hash leaves every row,
      its deletedAt included, as it was. */
  function AfterInsertOne(t: seq<Row<ReactionRecord>>, message: Message, conv: TimeConversion)
    : (u: seq<Row<ReactionRecord>>)
    requires IsReactionAddMessage(message)
    ensures Has(t, ReactionHash, message.hash) ==> u == t
    ensures !Has(t, ReactionHash, message.hash) ==>
              |u| == |t| + 1 && u[..|t|] == t && u[|t|] == Row(FormatReactionAddMessage(message, conv), None)
    ensures Has(u, ReactionHash, message.hash)
  {
    InsertOrIgnore(t, FormatReactionAddMessage(message, conv), ReactionHash)
  }

  /** insertOne applied n times in a row. */
  function InsertedTimes(t: seq<Row<ReactionRecord>>, message: Message, conv: TimeConversion, n: nat)
    : seq<Row<ReactionRecord>>
    requires IsReactionAddMessage(message)
  {
    if n == 0 then t else AfterInsertOne(InsertedTimes(t, message, conv, n - 1), message, conv)
  }

  /** Delivering the same reaction-add n >= 1 times gives the table one
      delivery gives. */
  lemma {:induction false} InsertOneRepeated(t: seq<Row<ReactionRecord>>, message: Message, conv: TimeConversion, n: nat)
    requires IsReactionAddMessage(message) && n >= 1
    ensures InsertedTimes(t, message, conv, n) == AfterInsertOne(t, message, conv)
  {
    if n > 1 {
      InsertOneRepeated(t, message, conv, n - 1);
      InsertOrIgnoreIdempotent(t, FormatReactionAddMessage(message, conv), ReactionHash);
    }
  }

  /** The table keeps at most one row per hash. */
  lemma InsertOneKeepsUnique(t: seq<Row<ReactionRecord>>, message: Message, conv: TimeConversion)
    requires IsReactionAddMessage(message) && UniqueBy(t, ReactionHash)
    ensures UniqueBy(AfterInsertOne(t, message, conv), ReactionHash)
  {
    InsertOrIgnoreKeepsUnique(t, FormatReactionAddMessage(message, conv), ReactionHash);
  }

  /** The model object of the reactions table. */
  class Reactions {
    const appDb: AppDb

    constructor (appDb: AppDb)
      ensures this.appDb == appDb
    {
      this.appDb := appDb;
    }

    method InsertOne(message: Message, conv: TimeConversion)
      requires IsReactionAddMessage(message)
      modifies appDb`reactions
      ensures appDb.reactions == AfterInsertOne(old(appDb.reactions), message, conv)
    {
      appDb.reactions := AfterInsertOne(appDb.reactions, message, conv);
    }
  }
}
