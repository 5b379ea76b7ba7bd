/** The links table: a link-add is inserted unless a row with the same
    hash exists; a link-remove soft-deletes the rows carrying its own hash. */
module LinksModel {
  import opened Protocol
  import opened Table
  import opened Db

  /** The display timestamp of a link row: null when the body has none or
      has zero, the converted time otherwise. */
  function DisplayTimestamp(displayTimestamp: Option<nat>, conv: TimeConversion): (d: Option<Date>)
    ensures d.None? <==> displayTimestamp.None? || displayTimestamp.value == 0
    ensures d.Some? ==> d.value == conv.fromFarcasterTime(displayTimestamp.value)
  {
    if displayTimestamp.Some? && displayTimestamp.value != 0
    then Some(conv.fromFarcasterTime(displayTimestamp.value))
    else None
  }

  /** The record insertOne writes for a link-add message. */
  function FormatLinkAddMessage(message: Message, conv: TimeConversion): (l: LinkRecord)
    requires IsLinkAddMessage(message)
    ensures l.fid == message.data.value.fid && l.hash == message.hash
    ensures l.targetFid == message.data.value.body.targetFid
    ensures l.linkType == message.data.value.body.linkType
    ensures l.timestamp == conv.fromFarcasterTime(message.data.value.timestamp)
    ensures l.displayTimestamp == DisplayTimestamp(message.data.value.body.displayTimestamp, conv)
  {
    var data := message.data.value;
    var body := data.body;
    LinkRecord(
      timestamp := conv.fromFarcasterTime(data.timestamp),
      fid := data.fid,
      targetFid := body.targetFid,
      displayTimestamp := DisplayTimestamp(body.displayTimestamp, conv),
      linkType := body.linkType,
      hash := message.hash)
  }

  /** The links table after insertOne (ON CONFLICT (hash) DO NOTHING): a
      row for a new hash is appended; a known hash changes nothing, so a
      row that was soft-deleted stays so. */
  function AfterInsertOne(t: seq<Row<LinkRecord>>, message: Message, conv: TimeConversion)
    : (u: seq<Row<LinkRecord>>)
    requires IsLinkAddMessage(message)
    ensures Has(t, LinkHash, message.hash) ==> u == t
    ensures !Has(t, LinkHash, message.hash) ==>
              |u| == |t| + 1 && u[..|t|] == t && u[|t|] == Row(FormatLinkAddMessage(message, conv), None)
    ensures Has(u, LinkHash, message.hash)
  {
    InsertOrIgnore(t, FormatLinkAddMessage(message, conv), LinkHash)
  }

  /** The links table after deleteOne: rows whose hash is the remove
      message's own hash get the converted remove time, or `now` when the
      conversion yields nothing; no other row and no other field changes. */
  function AfterDeleteOne(t: seq<Row<LinkRecord>>, message: Message, conv: TimeConversion, now: Date)
    : (u: seq<Row<LinkRecord>>)
    requires IsLinkRemoveMessage(message)
    ensures |u| == |t|
    ensures forall i :: 0 <= i < |t| ==> u[i].record == t[i].record
    ensures forall i :: 0 <= i < |t| ==>
              u[i].deletedAt ==
                if t[i].record.hash == message.hash
                then Some(DeletedAt(message, conv, now))
                else t[i].deletedAt
  {
    SoftDelete(t, LinkHash, message.hash,
               Some(DeletedAt(message, conv, now)))
  }

  /** Applying the same link-add twice is applying it once. */
  lemma InsertOneIdempotent(t: seq<Row<LinkRecord>>, message: Message, conv: TimeConversion)
    requires IsLinkAddMessage(message)
    ensures AfterInsertOne(AfterInsertOne(t, message, conv), message, conv) == AfterInsertOne(t, message, conv)
  {
    InsertOrIgnoreIdempotent(t, FormatLinkAddMessage(message, conv), LinkHash);
  }

  /** The table keeps at most one row per hash. */
  lemma InsertOneKeepsUnique(t: seq<Row<LinkRecord>>, message: Message, conv: TimeConversion)
    requires IsLinkAddMessage(message) && UniqueBy(t, LinkHash)
    ensures UniqueBy(AfterInsertOne(t, message, conv), LinkHash)
  {
    InsertOrIgnoreKeepsUnique(t, FormatLinkAddMessage(message, conv), LinkHash);
  }

  /** Deleting twice with the same message and the same `now` is deleting once. */
  lemma DeleteOneIdempotent(t: seq<Row<LinkRecord>>, message: Message, conv: TimeConversion, now: Date)
    requires IsLinkRemoveMessage(message)
    ensures AfterDeleteOne(AfterDeleteOne(t, message, conv, now), message, conv, now)
         == AfterDeleteOne(t, message, conv, now)
  {
    SoftDeleteIdempotent(t, LinkHash, message.hash,
                         Some(DeletedAt(message, conv, now)));
  }

  /** deleteOne never creates a row: with no row carrying the remove's
      hash, the table is unchanged. */
  lemma DeleteOneWithoutMatch(t: seq<Row<LinkRecord>>, message: Message, conv: TimeConversion, now: Date)
    requires IsLinkRemoveMessage(message) && !Has(t, LinkHash, message.hash)
    ensures AfterDeleteOne(t, message, conv, now) == t
  {
    SoftDeleteMissingHash(t, LinkHash, message.hash,
                          Some(DeletedAt(message, conv, now)));
  }

  /** A remove applied before the add it removes leaves no trace: the add
      that arrives afterwards produces a row that is not soft-deleted. */
  lemma RemoveBeforeAddLeavesRowLive(t: seq<Row<LinkRecord>>, remove: Message, add: Message,
                                     conv: TimeConversion, now: Date)
    requires IsLinkRemoveMessage(remove) && IsLinkAddMessage(add)
    requires !Has(t, LinkHash, add.hash)
    ensures var u := AfterInsertOne(AfterDeleteOne(t, remove, conv, now), add, conv);
            |u| == |t| + 1 && u[|t|].record.hash == add.hash && u[|t|].deletedAt.None?
  {
    var d := AfterDeleteOne(t, remove, conv, now);
    assert !Has(d, LinkHash, add.hash) by {
      assert forall i :: 0 <= i < |d| ==> LinkHash(d[i].record) == LinkHash(t[i].record);
    }
  }

  /** The model object of the links table. */
  class Links {
    const appDb: AppDb

    constructor (appDb: AppDb)
      ensures this.appDb == appDb
    {
      this.appDb := appDb;
    }

    method InsertOne(message: Message, conv: TimeConversion)
      requires IsLinkAddMessage(message)
      modifies appDb`links
      ensures appDb.links == AfterInsertOne(old(appDb.links), message, conv)
    {
      appDb.links := AfterInsertOne(appDb.links, message, conv);
    }

    method DeleteOne(message: Message, conv: TimeConversion, now: Date)
      requires IsLinkRemoveMessage(message)
      modifies appDb`links
      ensures appDb.links == AfterDeleteOne(old(appDb.links), message, conv, now)
    {
      appDb.links := AfterDeleteOne(appDb.links, message, conv, now);
    }
  }
}
