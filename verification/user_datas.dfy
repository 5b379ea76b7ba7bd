/** The userDatas table: one row per (fid, type). An add for a new key
    inserts a row; an add for a known key overwrites only that row's value.
    The model object has no deleteOne. */
module UserDatasModel {
  import opened Protocol
  import opened Table
  import opened Db

  /** The record insertOne writes for a user-data-add message. */
  function FormatUserDataAddMessage(message: Message, conv: TimeConversion): (u: UserDataRecord)
    requires IsUserDataAddMessage(message)
    ensures u.fid == message.data.value.fid && u.hash == message.hash
    ensures u.userDataType == message.data.value.body.userDataType
    ensures u.value == message.data.value.body.value
    ensures u.timestamp == conv.fromFarcasterTime(message.data.value.timestamp)
  {
    var data := message.data.value;
    UserDataRecord(
      timestamp := conv.fromFarcasterTime(data.timestamp),
      fid := data.fid,
      userDataType := data.body.userDataType,
      hash := message.hash,
      value := data.body.value)
  }

  /** The conflict key of a user-data-add message. */
  function KeyOf(message: Message): (Fid, nat)
    requires IsUserDataAddMessage(message)
  {
    (message.data.value.fid, message.data.value.body.userDataType)
  }

  /** DO UPDATE SET value = excluded.value: the stored record with the
      incoming value. */
  function MergeValue(stored: UserDataRecord, excluded: UserDataRecord): UserDataRecord
  {
    stored.(value := excluded.value)
  }

  /** The userDatas table after insertOne. For a new (fid, type) one row
      is appended; for a known one only the value of the rows with that key
      becomes the incoming value, and their fid, type, hash, timestamp and
      deletedAt stay as stored. No timestamp is compared. */
  function AfterInsertOne(t: seq<Row<UserDataRecord>>, message: Message, conv: TimeConversion)
    : (u: seq<Row<UserDataRecord>>)
    requires IsUserDataAddMessage(message)
    ensures !Has(t, UserDataKey, KeyOf(message)) ==>
              |u| == |t| + 1 && u[..|t|] == t && u[|t|] == Row(FormatUserDataAddMessage(message, conv), None)
    ensures Has(t, UserDataKey, KeyOf(message)) ==>
              |u| == |t| &&
              forall i :: 0 <= i < |t| ==>
                u[i].deletedAt == t[i].deletedAt &&
                u[i].record == if UserDataKey(t[i].record) == KeyOf(message)
                               then t[i].record.(value := message.data.value.body.value)
                               else t[i].record
    ensures Has(u, UserDataKey, KeyOf(message))
  {
    var r := FormatUserDataAddMessage(message, conv);
    var u := InsertOrUpdate(t, r, UserDataKey, MergeValue);
    if Has(t, UserDataKey, KeyOf(message)) then
      var i :| 0 <= i < |t| && UserDataKey(t[i].record) == KeyOf(message);
      assert UserDataKey(u[i].record) == KeyOf(message);
      u
    else
      assert UserDataKey(u[|t|].record) == KeyOf(message);
      u
  }

  /** The table keeps at most one row per (fid, type). */
  lemma InsertOneKeepsUnique(t: seq<Row<UserDataRecord>>, message: Message, conv: TimeConversion)
    requires IsUserDataAddMessage(message) && UniqueBy(t, UserDataKey)
    ensures UniqueBy(AfterInsertOne(t, message, conv), UserDataKey)
  {
    var u := AfterInsertOne(t, message, conv);
    if Has(t, UserDataKey, KeyOf(message)) {
      assert forall i :: 0 <= i < |t| ==> UserDataKey(u[i].record) == UserDataKey(t[i].record);
    } else {
      InsertKeepsUnique(t, FormatUserDataAddMessage(message, conv), UserDataKey);
    }
  }

  /** Of two adds for the same (fid, type), the one applied last decides
      the stored value, whatever their timestamps; the second adds no row. */
  lemma LastAddWins(t: seq<Row<UserDataRecord>>, first: Message, second: Message, conv: TimeConversion)
    requires IsUserDataAddMessage(first) && IsUserDataAddMessage(second)
    requires KeyOf(first) == KeyOf(second)
    ensures var mid := AfterInsertOne(t, first, conv);
            var u := AfterInsertOne(mid, second, conv);
            |u| == |mid| &&
            forall i :: 0 <= i < |u| && UserDataKey(u[i].record) == KeyOf(second) ==>
              u[i].record.value == second.data.value.body.value
  {
  }

  /** Applying the same add twice gives the table it gives once. */
  lemma InsertOneIdempotent(t: seq<Row<UserDataRecord>>, message: Message, conv: TimeConversion)
    requires IsUserDataAddMessage(message)
    ensures AfterInsertOne(AfterInsertOne(t, message, conv), message, conv) == AfterInsertOne(t, message, conv)
  {
    var u := AfterInsertOne(t, message, conv);
    var v := AfterInsertOne(u, message, conv);
    assert |v| == |u|;
    forall i | 0 <= i < |u| ensures v[i] == u[i] {
      if i < |t| && !Has(t, UserDataKey, KeyOf(message)) {
        assert u[i] == t[i];
      }
    }
  }

  /** The model object of the userDatas table. */
  class UserDatas {
    const appDb: AppDb

    constructor (appDb: AppDb)
      ensures this.appDb == appDb
    {
      this.appDb := appDb;
    }

    method InsertOne(message: Message, conv: TimeConversion)
      requires IsUserDataAddMessage(message)
      modifies appDb`userDatas
      ensures appDb.userDatas == AfterInsertOne(old(appDb.userDatas), message, conv)
    {
      appDb.userDatas := AfterInsertOne(appDb.userDatas, message, conv);
    }
  }
}
