/** writeMessage: picks the family of a message from a fixed chain of shape
    predicates and applies one statement of that family's model, or fails. */
module Messages {
  import opened Protocol
  import opened Table
  import opened Db
  import CastsModel
  import ReactionsModel
  import LinksModel
  import UserDatasModel
  import VerificationsModel

  /** The branch writeMessage takes. */
  datatype Kind =
    | CastAdd | CastRemove | ReactionAdd | ReactionRemove | LinkAdd | LinkRemove
    | UserDataAdd | VerificationAddAddress | VerificationRemove | Unknown

  datatype WriteError =
    | UnmappedMessageType(messageType: Option<nat>)  // no predicate matched
    | ReactionDeleteUndefined                        // the reactions model has no deleteOne

  /** The shape predicate that selects branch `k`; Unknown has none. */
  predicate Matches(m: Message, k: Kind)
  {
    match k
    case CastAdd => IsCastAddMessage(m)
    case CastRemove => IsCastRemoveMessage(m)
    case ReactionAdd => IsReactionAddMessage(m)
    case ReactionRemove => IsReactionRemoveMessage(m)
    case LinkAdd => IsLinkAddMessage(m)
    case LinkRemove => IsLinkRemoveMessage(m)
    case UserDataAdd => IsUserDataAddMessage(m)
    case VerificationAddAddress => IsVerificationAddAddressMessage(m)
    case VerificationRemove => IsVerificationRemoveMessage(m)
    case Unknown => false
  }

  /** The first predicate of the chain that holds. */
  function Classify(m: Message): (k: Kind)
    ensures k != Unknown ==> Matches(m, k)
    ensures k == Unknown ==> forall k' :: !Matches(m, k')
  {
    if IsCastAddMessage(m) then CastAdd
    else if IsCastRemoveMessage(m) then CastRemove
    else if IsReactionAddMessage(m) then ReactionAdd
    else if IsReactionRemoveMessage(m) then ReactionRemove
    else if IsLinkAddMessage(m) then LinkAdd
    else if IsLinkRemoveMessage(m) then LinkRemove
    else if IsUserDataAddMessage(m) then UserDataAdd
    else if IsVerificationAddAddressMessage(m) then VerificationAddAddress
    else if IsVerificationRemoveMessage(m) then VerificationRemove
    else Unknown
  }

  /** At most one shape predicate holds of a message, so the order of the
      chain does not matter: the branch taken is the one whose predicate
      holds. */
  lemma ClassifyIsTheMatchingShape(m: Message, k: Kind)
    requires k != Unknown
    ensures Classify(m) == k <==> Matches(m, k)
  {
  }

  /** The tables and the outcome after one writeMessage. */
  datatype Written = Written(tables: Tables, outcome: Outcome<WriteError>)

  /** The data type code the error message reports. */
  function TypeOf(m: Message): Option<nat>
  {
    if m.data.Some? then Some(m.data.value.messageType) else None
  }

  /** writeMessage on table contents: cast adds are applied only in state
      Created, cast removes only in state Deleted, every other family
      whatever the state; a reaction-remove and an unmatched shape fail. */
  function Write(t: Tables, m: Message, state: MessageState, conv: TimeConversion, now: Date): (w: Written)
    ensures w.outcome.Fail? <==> Classify(m) == ReactionRemove || Classify(m) == Unknown
    ensures w.outcome.Fail? ==> w.tables == t
    ensures w.outcome == Fail(UnmappedMessageType(TypeOf(m))) <==> forall k :: !Matches(m, k)
  {
    match Classify(m)
    case CastAdd =>
      Written(if state == Created then t.(casts := CastsModel.AfterInsertOne(t.casts, m, conv)) else t, Pass)
    case CastRemove =>
      Written(if state == Deleted then t.(casts := CastsModel.AfterDeleteOne(t.casts, m, conv, now)) else t, Pass)
    case ReactionAdd =>
      Written(t.(reactions := ReactionsModel.AfterInsertOne(t.reactions, m, conv)), Pass)
    case ReactionRemove =>
      Written(t, Fail(ReactionDeleteUndefined))
    case LinkAdd =>
      Written(t.(links := LinksModel.AfterInsertOne(t.links, m, conv)), Pass)
    case LinkRemove =>
      Written(t.(links := LinksModel.AfterDeleteOne(t.links, m, conv, now)), Pass)
    case UserDataAdd =>
      Written(t.(userDatas := UserDatasModel.AfterInsertOne(t.userDatas, m, conv)), Pass)
    case VerificationAddAddress =>
      Written(t.(verifications := VerificationsModel.AfterInsertOne(t.verifications, m, conv)), Pass)
    case VerificationRemove =>
      Written(t.(verifications := VerificationsModel.AfterDeleteOne(t.verifications, m, conv)), Pass)
    case Unknown =>
      Written(t, Fail(UnmappedMessageType(TypeOf(m))))
  }

  /** What the plain cast insert needs: a cast-add applied in state
      Created brings a hash the casts table does not hold. */
  predicate CastHashIsNew(t: Tables, m: Message, state: MessageState)
  {
    IsCastAddMessage(m) && state == Created ==> !Has(t.casts, CastHash, m.hash)
  }

  /** A cast-add changes the casts table only in state Created, and then
      by exactly the insert; in any other state no table changes. */
  lemma CastAddIsGatedOnCreated(t: Tables, m: Message, state: MessageState, conv: TimeConversion, now: Date)
    requires IsCastAddMessage(m)
    ensures var w := Write(t, m, state, conv, now);
            w.outcome == Pass &&
            w.tables == if state == Created then t.(casts := CastsModel.AfterInsertOne(t.casts, m, conv)) else t
  {
  }

  /** A cast-remove soft-deletes only in state Deleted; in any other state
      no table changes. */
  lemma CastRemoveIsGatedOnDeleted(t: Tables, m: Message, state: MessageState, conv: TimeConversion, now: Date)
    requires IsCastRemoveMessage(m)
    ensures var w := Write(t, m, state, conv, now);
            w.outcome == Pass &&
            w.tables == if state == Deleted then t.(casts := CastsModel.AfterDeleteOne(t.casts, m, conv, now)) else t
  {
    ClassifyIsTheMatchingShape(m, CastRemove);
  }

  /** Reaction, link, user-data and verification messages are handled the
      same way whatever the state. */
  lemma OtherFamiliesIgnoreState(t: Tables, m: Message, conv: TimeConversion, now: Date)
    requires !IsCastAddMessage(m) && !IsCastRemoveMessage(m)
    ensures Write(t, m, Created, conv, now) == Write(t, m, Deleted, conv, now)
  {
  }

  /** One call changes at most one table: the table of the branch taken. */
  lemma WriteTouchesOneTable(t: Tables, m: Message, state: MessageState, conv: TimeConversion, now: Date)
    ensures var w := Write(t, m, state, conv, now);
            var k := Classify(m);
            && (k != CastAdd && k != CastRemove ==> w.tables.casts == t.casts)
            && (k != ReactionAdd ==> w.tables.reactions == t.reactions)
            && (k != LinkAdd && k != LinkRemove ==> w.tables.links == t.links)
            && (k != UserDataAdd ==> w.tables.userDatas == t.userDatas)
            && (k != VerificationAddAddress && k != VerificationRemove ==> w.tables.verifications == t.verifications)
  {
  }

  /** Every family other than the casts is routed whatever the state: a
      successful reaction, link, user-data or verification message applies
      its model object's statement to that model's table and to no other. */
  lemma WriteRoutesByFamily(t: Tables, m: Message, state: MessageState, conv: TimeConversion, now: Date)
    ensures Classify(m) == ReactionAdd ==>
              Write(t, m, state, conv, now) == Written(t.(reactions := ReactionsModel.AfterInsertOne(t.reactions, m, conv)), Pass)
    ensures Classify(m) == LinkAdd ==>
              Write(t, m, state, conv, now) == Written(t.(links := LinksModel.AfterInsertOne(t.links, m, conv)), Pass)
    ensures Classify(m) == LinkRemove ==>
              Write(t, m, state, conv, now) == Written(t.(links := LinksModel.AfterDeleteOne(t.links, m, conv, now)), Pass)
    ensures Classify(m) == UserDataAdd ==>
              Write(t, m, state, conv, now) == Written(t.(userDatas := UserDatasModel.AfterInsertOne(t.userDatas, m, conv)), Pass)
    ensures Classify(m) == VerificationAddAddress ==>
              Write(t, m, state, conv, now)
              == Written(t.(verifications := VerificationsModel.AfterInsertOne(t.verifications, m, conv)), Pass)
    ensures Classify(m) == VerificationRemove ==>
              Write(t, m, state, conv, now)
              == Written(t.(verifications := VerificationsModel.AfterDeleteOne(t.verifications, m, conv)), Pass)
  {
  }

  /** A message matching none of the nine predicates fails with its type
      code and modifies no table. */
  lemma UnknownShapeFails(t: Tables, m: Message, state: MessageState, conv: TimeConversion, now: Date)
    requires forall k :: !Matches(m, k)
    ensures Write(t, m, state, conv, now) == Written(t, Fail(UnmappedMessageType(TypeOf(m))))
  {
    assert !Matches(m, CastAdd) && !Matches(m, CastRemove) && !Matches(m, ReactionAdd);
    assert !Matches(m, ReactionRemove) && !Matches(m, LinkAdd) && !Matches(m, LinkRemove);
    assert !Matches(m, UserDataAdd) && !Matches(m, VerificationAddAddress) && !Matches(m, VerificationRemove);
  }

  /** A reaction-remove reaches a deleteOne the reactions model does not
      have: the call fails and nothing is soft-deleted. */
  lemma ReactionRemoveFails(t: Tables, m: Message, state: MessageState, conv: TimeConversion, now: Date)
    requires IsReactionRemoveMessage(m)
    ensures Write(t, m, state, conv, now) == Written(t, Fail(ReactionDeleteUndefined))
  {
    ClassifyIsTheMatchingShape(m, ReactionRemove);
  }

  /** Only verification-add-address messages reach the verifications
      insert: a verification-add code with any other body fails. */
  lemma OnlyAddAddressReachesVerificationInsert(t: Tables, m: Message, state: MessageState,
                                                conv: TimeConversion, now: Date)
    requires m.data.Some? && m.data.value.messageType == VERIFICATION_ADD_ETH_ADDRESS
    requires !m.data.value.body.VerificationAddAddressBody?
    ensures Write(t, m, state, conv, now).outcome == Fail(UnmappedMessageType(Some(VERIFICATION_ADD_ETH_ADDRESS)))
    ensures Write(t, m, state, conv, now).tables == t
  {
  }

  /** Every write keeps each table at one row per conflict key, given that
      a cast insert brings a new hash. */
  lemma WriteKeepsValid(t: Tables, m: Message, state: MessageState, conv: TimeConversion, now: Date)
    requires Valid(t) && CastHashIsNew(t, m, state)
    ensures Valid(Write(t, m, state, conv, now).tables)
  {
    match Classify(m)
    case CastAdd =>
      if state == Created { CastsModel.InsertOneKeepsUnique(t.casts, m, conv); }
    case CastRemove =>
      if state == Deleted {
        SoftDeleteKeepsUnique(t.casts, CastHash, m.hash,
                              Some(DeletedAt(m, conv, now)), CastHash);
      }
    case ReactionAdd => ReactionsModel.InsertOneKeepsUnique(t.reactions, m, conv);
    case ReactionRemove =>
    case LinkAdd => LinksModel.InsertOneKeepsUnique(t.links, m, conv);
    case LinkRemove =>
      SoftDeleteKeepsUnique(t.links, LinkHash, m.hash,
                            Some(DeletedAt(m, conv, now)), LinkHash);
    case UserDataAdd => UserDatasModel.InsertOneKeepsUnique(t.userDatas, m, conv);
    case VerificationAddAddress => VerificationsModel.InsertOneKeepsUnique(t.verifications, m, conv);
    case VerificationRemove =>
      SoftDeleteKeepsUnique(t.verifications, VerificationHash, m.hash,
                            conv.farcasterTimeToDate(m.data.value.timestamp), VerificationKey);
    case Unknown =>
  }

  /** No message soft-deletes a userDatas row: the deletedAt of every
      stored row survives every write. */
  lemma UserDatasAreNeverSoftDeleted(t: Tables, m: Message, state: MessageState, conv: TimeConversion, now: Date)
    ensures var u := Write(t, m, state, conv, now).tables.userDatas;
            |u| >= |t.userDatas| &&
            forall i :: 0 <= i < |t.userDatas| ==> u[i].deletedAt == t.userDatas[i].deletedAt
  {
    if Classify(m) == UserDataAdd && !Has(t.userDatas, UserDataKey, UserDatasModel.KeyOf(m)) {
      var u := Write(t, m, state, conv, now).tables.userDatas;
      assert forall i :: 0 <= i < |t.userDatas| ==> u[..|t.userDatas|][i] == u[i];
    }
  }

  /** The message writer over a database handle. */
  class MessageWriter {
    const appDb: AppDb

    constructor (appDb: AppDb)
      ensures this.appDb == appDb
    {
      this.appDb := appDb;
    }

    method WriteMessage(message: Message, state: MessageState, conv: TimeConversion, now: Date)
      returns (r: Outcome<WriteError>)
      requires CastHashIsNew(appDb.Snapshot(), message, state)
      modifies appDb
      ensures appDb.Snapshot() == Write(old(appDb.Snapshot()), message, state, conv, now).tables
      ensures r == Write(old(appDb.Snapshot()), message, state, conv, now).outcome
    {
      r := Pass;
      if IsCastAddMessage(message) {
        if state == Created {
          var casts := new CastsModel.Casts(appDb);
          casts.InsertOne(message, conv);
        }
      } else if IsCastRemoveMessage(message) {
        if state == Deleted {
          var casts := new CastsModel.Casts(appDb);
          casts.DeleteOne(message, conv, now);
        }
      } else if IsReactionAddMessage(message) {
        var reactions := new ReactionsModel.Reactions(appDb);
        reactions.InsertOne(message, conv);
      } else if IsReactionRemoveMessage(message) {
        r := Fail(ReactionDeleteUndefined);
      } else if IsLinkAddMessage(message) {
        var links := new LinksModel.Links(appDb);
        links.InsertOne(message, conv);
      } else if IsLinkRemoveMessage(message) {
        var links := new LinksModel.Links(appDb);
        links.DeleteOne(message, conv, now);
      } else if IsUserDataAddMessage(message) {
        var userDatas := new UserDatasModel.UserDatas(appDb);
        userDatas.InsertOne(message, conv);
      } else if IsVerificationAddAddressMessage(message) {
        var verifications := new VerificationsModel.Verifications(appDb);
        verifications.InsertOne(message, conv);
      } else if IsVerificationRemoveMessage(message) {
        var verifications := new VerificationsModel.Verifications(appDb);
        verifications.DeleteOne(message, conv);
      } else {
        r := Fail(UnmappedMessageType(TypeOf(message)));
      }
    }
  }
}
