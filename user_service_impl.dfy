/** UserServiceImpl: the rules the user service applies in front of its DAO.
    The DAO (Hibernate in the original) is modelled as an in-memory table from
    id to user that hands out ids in increasing order. */
module UserServices {
  import opened Wrappers
  import opened JavaLang

  const NameEmptyMessage: string := "User name cannot be empty"
  const EmailEmptyMessage: string := "User email cannot be empty"

  function DuplicateEmailMessage(email: string): string
  {
    "User with email " + email + " already exists"
  }

  function UnknownIdMessage(id: int): string
  {
    "User with id " + LongToString(id) + " not found"
  }

  /** The not-found message names the id: two ids give the same message only
      when they are the same id. */
  lemma UnknownIdMessageNamesId(a: int, b: int)
    ensures UnknownIdMessage(a) == UnknownIdMessage(b) <==> a == b
  {
    if UnknownIdMessage(a) == UnknownIdMessage(b) {
      var m := UnknownIdMessage(a);
      assert m[13..|m| - 10] == LongToString(a);
      assert m[13..|m| - 10] == LongToString(b);
      LongToStringIsDecimal(a);
      LongToStringIsDecimal(b);
    }
  }

  /** models.User: the id is null until the store assigns one. */
  datatype User = User(id: Option<int>, name: Option<string>, email: Option<string>, age: Option<int>)

  /** The DAO operations, as the service calls them. */
  datatype DaoCall =
    | SaveCall(user: User)
    | FindByIdCall(id: int)
    | FindByEmailCall(email: Option<string>)
    | UpdateCall(user: User)
    | DeleteByIdCall(id: int)

  /** Every stored user carries its own key as its id, and every key is below the next id to hand out. */
  predicate IdsConsistent(store: map<int, User>, nextId: int)
  {
    forall id :: id in store ==> store[id].id == Some(id) && id < nextId
  }

  /** Some stored user has this email. */
  predicate EmailHeld(store: map<int, User>, email: Option<string>)
  {
    exists i :: i in store && store[i].email == email
  }

  /** No two stored users share a (non-null) email. */
  predicate UniqueEmails(store: map<int, User>)
  {
    forall i, j :: i in store && j in store && i != j && store[i].email.Some? ==> store[i].email != store[j].email
  }

  /** Every stored user has a non-blank name and email, as createUser and updateUser only ever store. */
  predicate WellFormedUsers(store: map<int, User>)
  {
    forall i :: i in store ==> !NullOrBlank(store[i].name) && !NullOrBlank(store[i].email)
  }

  /** updateUser asks for an email change: the new email is non-blank and differs from the current one. */
  predicate EmailChangeRequested(user: User, email: Option<string>)
  {
    !NullOrBlank(email) && email != user.email
  }

  /** The setters updateUser applies to the loaded user: a non-blank name, a
      changed non-blank email, a non-null age; every other field is kept. */
  function ApplyUpdate(user: User, name: Option<string>, email: Option<string>, age: Option<int>): User
  {
    var u1 := if !NullOrBlank(name) then user.(name := name) else user;
    var u2 := if EmailChangeRequested(u1, email) then u1.(email := email) else u1;
    if age.Some? then u2.(age := age) else u2
  }

  /** Each field of the result is the requested value when the request for it is
      honoured, and the old value otherwise; the id never changes. */
  lemma ApplyUpdateFields(user: User, name: Option<string>, email: Option<string>, age: Option<int>)
    ensures ApplyUpdate(user, name, email, age).id == user.id
    ensures ApplyUpdate(user, name, email, age).name == if NullOrBlank(name) then user.name else name
    ensures ApplyUpdate(user, name, email, age).email == if NullOrBlank(email) then user.email else email
    ensures ApplyUpdate(user, name, email, age).age == if age.None? then user.age else age
  {
  }

  /** An update that asks for nothing leaves the user as it was, and applying
      the same update twice is the same as applying it once. */
  lemma ApplyUpdateIdempotent(user: User, name: Option<string>, email: Option<string>, age: Option<int>)
    ensures ApplyUpdate(user, None, None, None) == user
    ensures ApplyUpdate(ApplyUpdate(user, name, email, age), name, email, age) == ApplyUpdate(user, name, email, age)
  {
  }

  /** Inserting a user under a fresh key keeps emails unique when nobody holds its email yet. */
  lemma InsertKeepsEmailsUnique(store: map<int, User>, key: int, user: User)
    requires UniqueEmails(store) && key !in store && !EmailHeld(store, user.email)
    ensures UniqueEmails(store[key := user])
  {
    var s := store[key := user];
    forall i, j | i in s && j in s && i != j && s[i].email.Some?
      ensures s[i].email != s[j].email
    {
      if i == key {
        assert s[j] == store[j];
      } else if j == key {
        assert s[i] == store[i];
      }
    }
  }

  /** Storing a user with a non-blank name and email keeps every stored user well formed. */
  lemma StoreKeepsUsersWellFormed(store: map<int, User>, key: int, user: User)
    requires WellFormedUsers(store) && !NullOrBlank(user.name) && !NullOrBlank(user.email)
    ensures WellFormedUsers(store[key := user])
  {
  }

  /** Replacing a stored user by its update keeps emails unique unless the
      update takes an email another user holds, which updateUser refuses. */
  lemma UpdateKeepsEmailsUnique(store: map<int, User>, id: int, name: Option<string>, email: Option<string>, age: Option<int>)
    requires UniqueEmails(store) && id in store
    requires EmailChangeRequested(store[id], email) ==> !EmailHeld(store, email)
    ensures UniqueEmails(store[id := ApplyUpdate(store[id], name, email, age)])
  {
    var u := ApplyUpdate(store[id], name, email, age);
    var s := store[id := u];
    ApplyUpdateFields(store[id], name, email, age);
    forall i, j | i in s && j in s && i != j && s[i].email.Some?
      ensures s[i].email != s[j].email
    {
      if i == id {
        assert s[j] == store[j];
        if u.email != store[id].email {
          assert !EmailHeld(store, email);
        }
      } else if j == id {
        assert s[i] == store[i];
        if u.email != store[id].email {
          assert !EmailHeld(store, email);
        }
      }
    }
  }

  /** The invariant the user service keeps of its table. */
  predicate ServiceInvariant(store: map<int, User>, nextId: int)
  {
    IdsConsistent(store, nextId) && UniqueEmails(store) && WellFormedUsers(store)
  }

  /** What one service call comes to: its result, the table afterwards, and the DAO calls it made. */
  datatype Effect = Effect(result: Result<User, Exception>, store: map<int, User>, calls: seq<DaoCall>)

  /** createUser against a table whose next id is `nextId`. */
  function CreateEffect(store: map<int, User>, nextId: int, name: Option<string>, email: Option<string>,
                        age: Option<int>): Effect
  {
    if NullOrBlank(name) then Effect(Failure(IllegalArgumentException(NameEmptyMessage)), store, [])
    else if NullOrBlank(email) then Effect(Failure(IllegalArgumentException(EmailEmptyMessage)), store, [])
    else if EmailHeld(store, email) then
      Effect(Failure(IllegalArgumentException(DuplicateEmailMessage(email.value))), store, [FindByEmailCall(email)])
    else
      var saved := User(Some(nextId), name, email, age);
      Effect(Success(saved), store[nextId := saved], [FindByEmailCall(email), SaveCall(User(None, name, email, age))])
  }

  /** A blank name or email is refused before any DAO call, the name checked
      first; a held email is refused after one lookup; each refusal is an
      IllegalArgumentException saying why; a refused call saves nothing and
      leaves the table alone. */
  lemma CreateRefusals(store: map<int, User>, nextId: int, name: Option<string>, email: Option<string>, age: Option<int>)
    ensures var e := CreateEffect(store, nextId, name, email, age);
            && (NullOrBlank(name) || NullOrBlank(email) ==> e.result.Failure? && e.calls == [])
            && (NullOrBlank(name) ==> e.result == Failure(IllegalArgumentException(NameEmptyMessage)))
            && (!NullOrBlank(name) && NullOrBlank(email) ==>
                  e.result == Failure(IllegalArgumentException(EmailEmptyMessage)))
            && (!NullOrBlank(name) && !NullOrBlank(email) && EmailHeld(store, email) ==>
                  e.result == Failure(IllegalArgumentException(DuplicateEmailMessage(email.value))))
            && (e.result.Success? <==> !NullOrBlank(name) && !NullOrBlank(email) && !EmailHeld(store, email))
            && (e.result.Failure? ==> e.store == store && SaveCall(User(None, name, email, age)) !in e.calls)
  {
  }

  /** The next id to hand out is never in use. */
  lemma NextIdIsFree(store: map<int, User>, nextId: int)
    requires IdsConsistent(store, nextId)
    ensures nextId !in store
  {
    if nextId in store {
      assert false;
    }
  }

  /** An accepted createUser adds exactly one user, under the next id, with
      the name, email and age given. */
  lemma CreateAdditions(store: map<int, User>, nextId: int, name: Option<string>, email: Option<string>, age: Option<int>)
    requires IdsConsistent(store, nextId)
    ensures var e := CreateEffect(store, nextId, name, email, age);
            e.result.Success? ==>
              && e.result.value == User(Some(nextId), name, email, age)
              && e.store == store[nextId := e.result.value]
              && e.store.Keys == store.Keys + {nextId} && nextId !in store
              && |e.store| == |store| + 1
  {
    var e := CreateEffect(store, nextId, name, email, age);
    if e.result.Success? {
      NextIdIsFree(store, nextId);
      assert e.store == store[nextId := User(Some(nextId), name, email, age)];
    }
  }

  /** The effect of a creation refused for a held email, with the calls in the
      order the service logs them. */
  lemma CreateRefusedEffect(store: map<int, User>, nextId: int, name: Option<string>, email: Option<string>,
                            age: Option<int>, log: seq<DaoCall>)
    requires !NullOrBlank(name) && !NullOrBlank(email) && EmailHeld(store, email)
    ensures var e := CreateEffect(store, nextId, name, email, age);
            && e.result == Failure(IllegalArgumentException(DuplicateEmailMessage(email.value)))
            && e.store == store && log + e.calls == log + [FindByEmailCall(email)]
  {
  }

  /** The effect of an accepted creation, with the calls in the order the service logs them. */
  lemma CreateAcceptedEffect(store: map<int, User>, nextId: int, name: Option<string>, email: Option<string>,
                             age: Option<int>, log: seq<DaoCall>)
    requires !NullOrBlank(name) && !NullOrBlank(email) && !EmailHeld(store, email)
    ensures var e := CreateEffect(store, nextId, name, email, age);
            var saved := User(Some(nextId), name, email, age);
            && e.result == Success(saved) && e.store == store[nextId := saved]
            && log + e.calls == log + [FindByEmailCall(email)] + [SaveCall(User(None, name, email, age))]
  {
  }

  /** createUser keeps the service invariant. */
  lemma CreateKeepsInvariant(store: map<int, User>, nextId: int, name: Option<string>, email: Option<string>, age: Option<int>)
    requires ServiceInvariant(store, nextId)
    ensures var e := CreateEffect(store, nextId, name, email, age);
            ServiceInvariant(e.store, if e.result.Success? then nextId + 1 else nextId)
  {
    var e := CreateEffect(store, nextId, name, email, age);
    if e.result.Success? {
      CreateAdditions(store, nextId, name, email, age);
      var saved := e.result.value;
      InsertKeepsEmailsUnique(store, nextId, saved);
      StoreKeepsUsersWellFormed(store, nextId, saved);
    }
  }

  /** updateUser of the user stored under `id`. */
  function UpdateEffect(store: map<int, User>, id: int, name: Option<string>, email: Option<string>,
                        age: Option<int>): Effect
  {
    if id !in store then Effect(Failure(IllegalArgumentException(UnknownIdMessage(id))), store, [FindByIdCall(id)])
    else
      var requested := EmailChangeRequested(store[id], email);
      if requested && EmailHeld(store, email) then
        Effect(Failure(IllegalArgumentException(DuplicateEmailMessage(email.value))), store,
               [FindByIdCall(id), FindByEmailCall(email)])
      else
        var updated := ApplyUpdate(store[id], name, email, age);
        Effect(Success(updated), store[id := updated],
               if requested then [FindByIdCall(id), FindByEmailCall(email), UpdateCall(updated)]
               else [FindByIdCall(id), UpdateCall(updated)])
  }

  /** An update succeeds exactly when the id is stored and it does not ask for
      an email some user already holds. A refused update never reaches `update`
      and leaves the table alone; an accepted one replaces only that user, by its
      update, and keeps its id. */
  lemma UpdateOutcomes(store: map<int, User>, id: int, name: Option<string>, email: Option<string>, age: Option<int>)
    ensures var e := UpdateEffect(store, id, name, email, age);
            && (e.result.Success? <==>
                  id in store && !(EmailChangeRequested(store[id], email) && EmailHeld(store, email)))
            && (id !in store ==> e.result == Failure(IllegalArgumentException(UnknownIdMessage(id))))
            && (id in store && EmailChangeRequested(store[id], email) && EmailHeld(store, email) ==>
                  e.result == Failure(IllegalArgumentException(DuplicateEmailMessage(email.value))))
            && (e.result.Failure? ==> e.store == store && (forall u :: UpdateCall(u) !in e.calls))
            && (e.result.Success? ==>
                  && e.store.Keys == store.Keys
                  && e.store[id] == e.result.value && e.result.value.id == store[id].id
                  && (forall k :: k in store && k != id ==> e.store[k] == store[k]))
  {
    var e := UpdateEffect(store, id, name, email, age);
    if id in store {
      ApplyUpdateFields(store[id], name, email, age);
    }
  }

  /** The effect of an update that is refused for a held email, with the calls
      in the order the service logs them. */
  lemma UpdateRefusedEffect(store: map<int, User>, id: int, name: Option<string>, email: Option<string>,
                            age: Option<int>, log: seq<DaoCall>)
    requires id in store && EmailChangeRequested(store[id], email) && EmailHeld(store, email)
    ensures var e := UpdateEffect(store, id, name, email, age);
            && e.result == Failure(IllegalArgumentException(DuplicateEmailMessage(email.value)))
            && e.store == store && log + e.calls == log + [FindByIdCall(id)] + [FindByEmailCall(email)]
  {
  }

  /** The effect of an accepted update, with the calls in the order the service logs them. */
  lemma UpdateAcceptedEffect(store: map<int, User>, id: int, name: Option<string>, email: Option<string>,
                             age: Option<int>, log: seq<DaoCall>)
    requires id in store && !(EmailChangeRequested(store[id], email) && EmailHeld(store, email))
    ensures var e := UpdateEffect(store, id, name, email, age);
            var u := ApplyUpdate(store[id], name, email, age);
            && e.result == Success(u) && e.store == store[id := u]
            && log + e.calls == if EmailChangeRequested(store[id], email)
                                then log + [FindByIdCall(id)] + [FindByEmailCall(email)] + [UpdateCall(u)]
                                else log + [FindByIdCall(id)] + [UpdateCall(u)]
  {
  }

  /** updateUser keeps the service invariant. */
  lemma UpdateKeepsInvariant(store: map<int, User>, nextId: int, id: int, name: Option<string>, email: Option<string>, age: Option<int>)
    requires ServiceInvariant(store, nextId)
    ensures ServiceInvariant(UpdateEffect(store, id, name, email, age).store, nextId)
  {
    var e := UpdateEffect(store, id, name, email, age);
    if e.result.Success? {
      var updated := e.result.value;
      ApplyUpdateFields(store[id], name, email, age);
      UpdateKeepsEmailsUnique(store, id, name, email, age);
      StoreKeepsUsersWellFormed(store, id, updated);
    }
  }

  /** The DAO: a table from id to user with the next id to hand out, and a ghost log of every call made on it. */
  class UserDao {
    var store: map<int, User>
    var nextId: int
    ghost var calls: seq<DaoCall>

    ghost predicate Valid()
      reads this
    {
      IdsConsistent(store, nextId)
    }

    constructor()
      ensures Valid() && store == map[] && calls == []
    {
      store := map[];
      nextId := 1;
      calls := [];
    }

    /** save: the store assigns the next id and persists the user under it. */
    method Save(user: User) returns (saved: User)
      requires Valid()
      modifies this
      ensures Valid()
      ensures saved == user.(id := Some(old(nextId)))
      ensures store == old(store)[old(nextId) := saved] && nextId == old(nextId) + 1
      ensures old(nextId) !in old(store)
      ensures calls == old(calls) + [SaveCall(user)]
    {
      saved := user.(id := Some(nextId));
      store := store[nextId := saved];
      nextId := nextId + 1;
      calls := calls + [SaveCall(user)];
    }

    method FindById(id: int) returns (r: Option<User>)
      modifies this`calls
      ensures r == if id in store then Some(store[id]) else None
      ensures calls == old(calls) + [FindByIdCall(id)]
    {
      r := if id in store then Some(store[id]) else None;
      calls := calls + [FindByIdCall(id)];
    }

    /** findByEmail: a stored user with that email, or null when there is none. */
    method FindByEmail(email: Option<string>) returns (r: Option<User>)
      requires Valid()
      modifies this`calls
      ensures r.None? <==> !EmailHeld(store, email)
      ensures r.Some? ==> r.value.id.Some? && r.value.id.value in store && store[r.value.id.value] == r.value
      ensures r.Some? ==> r.value.email == email
      ensures calls == old(calls) + [FindByEmailCall(email)]
    {
      if i :| i in store && store[i].email == email {
        r := Some(store[i]);
      } else {
        r := None;
      }
      calls := calls + [FindByEmailCall(email)];
    }

    /** update: writes the user back under its id. */
    method Update(user: User) returns (r: User)
      requires Valid() && user.id.Some? && user.id.value in store
      modifies this
      ensures Valid()
      ensures r == user && store == old(store)[user.id.value := user] && nextId == old(nextId)
      ensures calls == old(calls) + [UpdateCall(user)]
    {
      store := store[user.id.value := user];
      calls := calls + [UpdateCall(user)];
      r := user;
    }

    /** deleteById: true exactly when a user with that id existed and was removed. */
    method DeleteById(id: int) returns (deleted: bool)
      requires Valid()
      modifies this
      ensures Valid()
      ensures deleted <==> id in old(store)
      ensures store == old(store) - {id} && nextId == old(nextId)
      ensures calls == old(calls) + [DeleteByIdCall(id)]
    {
      deleted := id in store;
      store := store - {id};
      calls := calls + [DeleteByIdCall(id)];
    }
  }

  class UserServiceImpl {
    const userDao: UserDao

    /** The invariant the service keeps of the table behind its DAO. */
    ghost predicate Valid()
      reads this, userDao
    {
      ServiceInvariant(userDao.store, userDao.nextId)
    }

    /** The service works over whatever table its DAO already holds, provided
        that table keeps the service invariant. */
    constructor(userDao: UserDao)
      requires ServiceInvariant(userDao.store, userDao.nextId)
      ensures this.userDao == userDao && Valid()
    {
      this.userDao := userDao;
    }

    /** createUser, as CreateEffect describes it. */
    method CreateUser(name: Option<string>, email: Option<string>, age: Option<int>) returns (r: Result<User, Exception>)
      requires Valid()
      modifies userDao
      ensures Valid()
      ensures var e := CreateEffect(old(userDao.store), old(userDao.nextId), name, email, age);
              && r == e.result && userDao.store == e.store
              && userDao.calls == old(userDao.calls) + e.calls
              && userDao.nextId == if r.Success? then old(userDao.nextId) + 1 else old(userDao.nextId)
    {
      CreateKeepsInvariant(userDao.store, userDao.nextId, name, email, age);
      ghost var store0, nextId0, calls0 := userDao.store, userDao.nextId, userDao.calls;
      if NullOrTrimEmpty(name) {
        return Failure(IllegalArgumentException(NameEmptyMessage));
      }
      if NullOrTrimEmpty(email) {
        return Failure(IllegalArgumentException(EmailEmptyMessage));
      }
      var existingUser := userDao.FindByEmail(email);
      if existingUser.Some? {
        CreateRefusedEffect(store0, nextId0, name, email, age, calls0);
        return Failure(IllegalArgumentException(DuplicateEmailMessage(email.value)));
      }
      CreateAcceptedEffect(store0, nextId0, name, email, age, calls0);
      var user := User(None, name, email, age);
      var saved := userDao.Save(user);
      r := Success(saved);
    }

    method GetUserById(id: int) returns (r: Option<User>)
      requires Valid()
      modifies userDao`calls
      ensures Valid()
      ensures r == if id in userDao.store then Some(userDao.store[id]) else None
      ensures r.Some? ==> r.value.id == Some(id)
      ensures userDao.calls == old(userDao.calls) + [FindByIdCall(id)]
    {
      r := userDao.FindById(id);
    }

    /** getUserByEmail: the one user holding that email, or null. */
    method GetUserByEmail(email: Option<string>) returns (r: Option<User>)
      requires Valid()
      modifies userDao`calls
      ensures Valid()
      ensures r.None? <==> !EmailHeld(userDao.store, email)
      ensures forall i :: i in userDao.store && userDao.store[i].email == email ==> r == Some(userDao.store[i])
      ensures userDao.calls == old(userDao.calls) + [FindByEmailCall(email)]
    {
      r := userDao.FindByEmail(email);
      forall i | i in userDao.store && userDao.store[i].email == email
        ensures r == Some(userDao.store[i])
      {
        var k := r.value.id.value;
        assert userDao.store[i].email.Some?;
        assert k == i;
      }
    }

    /** updateUser, as UpdateEffect describes it: the loaded user is changed
        setter by setter and written back with `update`. */
    method UpdateUser(id: int, name: Option<string>, email: Option<string>, age: Option<int>)
      returns (r: Result<User, Exception>)
      requires Valid()
      modifies userDao
      ensures Valid()
      ensures var e := UpdateEffect(old(userDao.store), id, name, email, age);
              && r == e.result && userDao.store == e.store
              && userDao.calls == old(userDao.calls) + e.calls
              && userDao.nextId == old(userDao.nextId)
    {
      UpdateKeepsInvariant(userDao.store, userDao.nextId, id, name, email, age);
      ghost var store0, calls0 := userDao.store, userDao.calls;
      var found := userDao.FindById(id);
      if found.None? {
        return Failure(IllegalArgumentException(UnknownIdMessage(id)));
      }
      var user := found.value;
      if !NullOrTrimEmpty(name) {
        user := user.(name := name);
      }
      if !NullOrTrimEmpty(email) && email != user.email {
        var existingUser := userDao.FindByEmail(email);
        // the holder of an email this user does not have cannot be this user
        assert existingUser.Some? ==> existingUser.value.id != Some(id);
        if existingUser.Some? && existingUser.value.id != Some(id) {
          UpdateRefusedEffect(store0, id, name, email, age, calls0);
          return Failure(IllegalArgumentException(DuplicateEmailMessage(email.value)));
        }
        user := user.(email := email);
      }
      if age.Some? {
        user := user.(age := age);
      }
      UpdateAcceptedEffect(store0, id, name, email, age, calls0);
      var updated := userDao.Update(user);
      r := Success(updated);
    }

    /** deleteUser: whatever the DAO's deleteById reports. */
    method DeleteUser(id: int) returns (deleted: bool)
      requires Valid()
      modifies userDao
      ensures Valid()
      ensures deleted <==> id in old(userDao.store)
      ensures userDao.store == old(userDao.store) - {id} && userDao.nextId == old(userDao.nextId)
      ensures userDao.calls == old(userDao.calls) + [DeleteByIdCall(id)]
    {
      deleted := userDao.DeleteById(id);
    }
  }
}
