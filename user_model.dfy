/**
 * The user schema (Backend/Models/user.js): the record, its defaults, its
 * required and unique fields, and the pre-save hook that keeps
 * `biometricRegisteredAt` in step with `biometricHash`.  The users
 * collection itself is the class `UserStore`: a map from id to record plus
 * the unique index on `email`.
 */
module UserModel {
  import opened Primitives

  /** The `role` enum: 'user' or 'admin'. */
  datatype Role = User | Admin

  /** One document of the users collection (the schema's timestamps are not modelled). */
  datatype UserRecord = UserRecord(
    id: UserId,
    name: string,
    email: string,
    passwordHash: string,
    role: Role,
    biometricEnabled: bool,
    biometricHash: Option<string>,
    biometricRegisteredAt: Option<Time>,
    refreshToken: Option<string>)

  /** The object handed to `new UserModel(...)`; a field left out is `None`. */
  datatype UserFields = UserFields(
    name: string,
    email: string,
    password: string,
    role: Option<Role>,
    biometricEnabled: Option<bool>,
    biometricHash: Option<string>)

  /** A new document: the given fields, and the schema's default for every field left out. */
  function NewDocument(id: UserId, f: UserFields): (u: UserRecord)
    ensures u.id == id && u.name == f.name && u.email == f.email && u.passwordHash == f.password
    ensures f.role.None? ==> u.role == User
    ensures f.role.Some? ==> u.role == f.role.value
    ensures f.biometricEnabled.None? ==> !u.biometricEnabled
    ensures f.biometricEnabled.Some? ==> u.biometricEnabled == f.biometricEnabled.value
    ensures u.biometricHash == f.biometricHash
    ensures u.biometricRegisteredAt.None? && u.refreshToken.None?
  {
    UserRecord(
      id, f.name, f.email, f.password,
      match f.role case Some(r) => r case None => User,
      match f.biometricEnabled case Some(b) => b case None => false,
      f.biometricHash,
      None,
      None)
  }

  /** `required: true` on name, email and password: Mongoose's check rejects a missing or empty string. */
  predicate RequiredPresent(u: UserRecord): (b: bool)
    ensures b <==> |u.name| > 0 && |u.email| > 0 && |u.passwordHash| > 0
  {
    u.name != "" && u.email != "" && u.passwordHash != ""
  }

  /** The invariant the hook maintains: a registration time is recorded exactly while a hash is. */
  predicate Registered(u: UserRecord)
  {
    u.biometricRegisteredAt.Some? <==> Truthy(u.biometricHash)
  }

  /** The stored version of a document, if it has been saved before. */
  function Previous(users: map<UserId, UserRecord>, id: UserId): (r: Option<UserRecord>)
    ensures r.Some? <==> id in users
    ensures r.Some? ==> r.value == users[id]
  {
    if id in users then Some(users[id]) else None
  }

  /**
   * `isModified('biometricHash')`: the hash differs from the stored one; on a
   * new document, from the default value null.
   */
  function HashModified(prev: Option<UserRecord>, doc: UserRecord): (r: bool)
    ensures prev.None? ==> (r <==> doc.biometricHash.Some?)
    ensures prev.Some? ==> (r <==> prev.value.biometricHash != doc.biometricHash)
  {
    (if prev.Some? then prev.value.biometricHash else None) != doc.biometricHash
  }

  /**
   * The `pre('save')` hook: stamp the registration time when a hash is newly
   * set and no time is recorded yet; clear it whenever no hash is present.
   */
  function PreSave(doc: UserRecord, hashModified: bool, now: Time): (r: UserRecord)
    ensures r == doc.(biometricRegisteredAt := r.biometricRegisteredAt)
    ensures hashModified && Truthy(doc.biometricHash) && doc.biometricRegisteredAt.None? ==>
              r.biometricRegisteredAt == Some(now)
    ensures Truthy(doc.biometricHash) && doc.biometricRegisteredAt.Some? ==>
              r.biometricRegisteredAt == doc.biometricRegisteredAt
    ensures !hashModified && Truthy(doc.biometricHash) ==> r.biometricRegisteredAt == doc.biometricRegisteredAt
    ensures !Truthy(doc.biometricHash) ==> r.biometricRegisteredAt.None?
  {
    var stamped :=
      if hashModified && Truthy(doc.biometricHash) && doc.biometricRegisteredAt.None?
      then doc.(biometricRegisteredAt := Some(now))
      else doc;
    if !Truthy(stamped.biometricHash) then stamped.(biometricRegisteredAt := None) else stamped
  }

  /**
   * Saving through the hook keeps `Registered`, provided the handler left the
   * registration time as it was loaded (or at its default on a new document).
   */
  lemma PreSaveKeepsRegistered(prev: Option<UserRecord>, doc: UserRecord, now: Time)
    requires prev.Some? ==> Registered(prev.value) && doc.biometricRegisteredAt == prev.value.biometricRegisteredAt
    requires prev.None? ==> doc.biometricRegisteredAt.None?
    ensures Registered(PreSave(doc, HashModified(prev, doc), now))
  {
    var m := HashModified(prev, doc);
    if Truthy(doc.biometricHash) && !m {
      assert prev.Some? && prev.value.biometricHash == doc.biometricHash;
    }
  }

  /** Saving a registered document whose hash did not change leaves it exactly as it is. */
  lemma PreSaveUnmodifiedIsIdentity(doc: UserRecord, now: Time)
    requires Registered(doc)
    ensures PreSave(doc, false, now) == doc
  {
  }

  /**
   * The unique index on email: `byEmail` maps every stored email to the id
   * of its record, and nothing else.
   */
  ghost predicate Indexed(users: map<UserId, UserRecord>, byEmail: map<string, UserId>): (b: bool)
  {
    && (forall id :: id in users ==>
          users[id].id == id && users[id].email in byEmail && byEmail[users[id].email] == id)
    && (forall e :: e in byEmail ==> byEmail[e] in users && users[byEmail[e]].email == e)
  }

  /**
   * What `Indexed` amounts to: the index's keys are exactly the stored
   * emails, and its values exactly the stored ids.
   */
  lemma IndexedIsUniqueIndex(users: map<UserId, UserRecord>, byEmail: map<string, UserId>)
    requires Indexed(users, byEmail)
    ensures byEmail.Keys == set id | id in users :: users[id].email
    ensures byEmail.Values == users.Keys
  {
  }

  /** No two records share an email. */
  lemma {:induction false} EmailsUnique(users: map<UserId, UserRecord>, byEmail: map<string, UserId>, i: UserId, j: UserId)
    requires Indexed(users, byEmail)
    requires i in users && j in users && users[i].email == users[j].email
    ensures i == j
  {
    assert byEmail[users[i].email] == i;
  }

  /** The email index after a document is saved: its stored email (if any) is replaced by its new one. */
  function Reindexed(users: map<UserId, UserRecord>, byEmail: map<string, UserId>, doc: UserRecord): map<string, UserId>
  {
    var rest := if doc.id in users then byEmail - {users[doc.id].email} else byEmail;
    rest[doc.email := doc.id]
  }

  /** The unique index admits a document when its email is unused or already its own. */
  predicate EmailFree(byEmail: map<string, UserId>, doc: UserRecord): (b: bool)
    ensures b <==> forall e :: e in byEmail && byEmail[e] != doc.id ==> e != doc.email
  {
    doc.email !in byEmail || byEmail[doc.email] == doc.id
  }

  /** Writing a document the unique index admits keeps the index exact. */
  lemma {:induction false} ReindexedIsIndexed(users: map<UserId, UserRecord>, byEmail: map<string, UserId>, doc: UserRecord)
    requires Indexed(users, byEmail) && EmailFree(byEmail, doc)
    ensures Indexed(users[doc.id := doc], Reindexed(users, byEmail, doc))
  {
    var users', byEmail' := users[doc.id := doc], Reindexed(users, byEmail, doc);
    forall id | id in users' && id != doc.id
      ensures users'[id].email != doc.email
      ensures users'[id].email in byEmail' && byEmail'[users'[id].email] == id
    {
      if doc.id in users {
        assert users[doc.id].email != users[id].email by {
          assert byEmail[users[doc.id].email] == doc.id;
        }
      }
    }
    forall e | e in byEmail'
      ensures byEmail'[e] in users' && users'[byEmail'[e]].email == e
    {
      if e != doc.email {
        assert e in byEmail && byEmail'[e] == byEmail[e];
        assert doc.id in users ==> e != users[doc.id].email;
        assert byEmail[e] != doc.id;
      }
    }
  }

  /** Saving a stored document under its own email leaves the index as it is. */
  lemma ReindexedUnchangedEmail(users: map<UserId, UserRecord>, byEmail: map<string, UserId>, doc: UserRecord)
    requires Indexed(users, byEmail) && doc.id in users && doc.email == users[doc.id].email
    ensures EmailFree(byEmail, doc)
    ensures Reindexed(users, byEmail, doc) == byEmail
  {
  }

  /** What every state of the users collection satisfies. */
  ghost predicate StoreInvariant(users: map<UserId, UserRecord>, byEmail: map<string, UserId>, nextId: UserId)
  {
    && Indexed(users, byEmail)
    && (forall id :: id in users ==> id < nextId)
    && (forall id :: id in users ==> RequiredPresent(users[id]) && Registered(users[id]))
  }

  /**
   * A write that passes validation, with the hook run on it, keeps the
   * invariant, provided the handler left the registration time as loaded.
   */
  lemma WriteKeepsInvariant(users: map<UserId, UserRecord>, byEmail: map<string, UserId>, nextId: UserId,
                            doc: UserRecord, now: Time)
    requires StoreInvariant(users, byEmail, nextId) && doc.id < nextId
    requires doc.id in users ==> doc.biometricRegisteredAt == users[doc.id].biometricRegisteredAt
    requires doc.id !in users ==> doc.biometricRegisteredAt.None?
    requires RequiredPresent(doc) && EmailFree(byEmail, doc)
    ensures var d := PreSave(doc, HashModified(Previous(users, doc.id), doc), now);
            StoreInvariant(users[doc.id := d], Reindexed(users, byEmail, doc), nextId)
  {
    var d := PreSave(doc, HashModified(Previous(users, doc.id), doc), now);
    PreSaveKeepsRegistered(Previous(users, doc.id), doc, now);
    ReindexedIsIndexed(users, byEmail, d);
    assert Reindexed(users, byEmail, d) == Reindexed(users, byEmail, doc);
  }

  /** The users collection. */
  class UserStore {
    var users: map<UserId, UserRecord>
    var byEmail: map<string, UserId>
    /** Every id ever handed out is below this: it stands for ObjectId generation. */
    var nextId: UserId

    ghost predicate Valid()
      reads this
    {
      StoreInvariant(users, byEmail, nextId)
    }

    constructor ()
      ensures Valid()
      ensures users == map[] && byEmail == map[] && nextId == 0
    {
      users := map[];
      byEmail := map[];
      nextId := 0;
    }

    /** `findOne({ email })`. */
    function FindByEmail(email: string): (r: Option<UserRecord>)
      reads this
      requires Valid()
      ensures r.Some? <==> email in byEmail
      ensures r.Some? ==> r.value.id in users && users[r.value.id] == r.value && r.value.email == email
      ensures r.None? ==> forall id :: id in users ==> users[id].email != email
    {
      if email in byEmail then Some(users[byEmail[email]]) else None
    }

    /** The `_id` a new document receives when it is constructed. */
    method NewId() returns (id: UserId)
      requires Valid()
      modifies this
      ensures Valid()
      ensures users == old(users) && byEmail == old(byEmail)
      ensures id == old(nextId) && id !in users && nextId == id + 1
    {
      id := nextId;
      nextId := nextId + 1;
    }

    /**
     * `doc.save()`: schema validation (required fields, unique email), then
     * the pre-save hook on the document, then the write.  A failed write
     * changes nothing.
     */
    method Save(doc: UserRecord, now: Time) returns (ok: bool)
      requires Valid()
      requires doc.id < nextId
      requires doc.id in users ==> doc.biometricRegisteredAt == users[doc.id].biometricRegisteredAt
      requires doc.id !in users ==> doc.biometricRegisteredAt.None?
      modifies this
      ensures Valid()
      ensures nextId == old(nextId)
      ensures ok <==> RequiredPresent(doc) && EmailFree(old(byEmail), doc)
      ensures ok ==> users == old(users)[doc.id := PreSave(doc, HashModified(Previous(old(users), doc.id), doc), now)]
      ensures ok ==> byEmail == Reindexed(old(users), old(byEmail), doc)
      ensures !ok ==> users == old(users) && byEmail == old(byEmail)
    {
      var prev := Previous(users, doc.id);
      ok := RequiredPresent(doc) && EmailFree(byEmail, doc);
      if !ok {
        return;
      }
      // the pre('save') hook, on the document in place
      var d := doc;
      if HashModified(prev, doc) && Truthy(d.biometricHash) && d.biometricRegisteredAt.None? {
        d := d.(biometricRegisteredAt := Some(now));
      }
      if !Truthy(d.biometricHash) {
        d := d.(biometricRegisteredAt := None);
      }
      assert d == PreSave(doc, HashModified(prev, doc), now);
      WriteKeepsInvariant(users, byEmail, nextId, doc, now);
      byEmail := Reindexed(users, byEmail, doc);
      users := users[doc.id := d];
    }
  }
}
