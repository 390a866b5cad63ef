// The daemon's cache of users and its index from identification id to the
// user owning it (src/daemon/user-manager.cpp).
//
// The system's account database and the users' files enter as a value:
// `accounts` maps each account name to its uid (getpwnam), `files` holds
// the users' stored INI files (a missing file reads as empty).
module UserManagerModel {
  import opened KasTypes
  import opened UserConfigModel
  import opened UserModel

  datatype SystemEnv = SystemEnv(accounts: map<string, int>, files: map<string, UserFile>)

  function FileOf(env: SystemEnv, userName: string): UserFile
  {
    if userName in env.files then env.files[userName] else EMPTY_FILE
  }

  // ---- The index ----

  /** addIID for each id in turn: an id that already has an owner keeps it. */
  function IndexAll<U>(index: map<string, U>, ids: seq<string>, owner: U): map<string, U>
  {
    if ids == [] then index
    else
      var m := IndexAll(index, ids[..|ids| - 1], owner);
      var k := ids[|ids| - 1];
      if k in m then m else m[k := owner]
  }

  /** deleteIID for each id in turn. */
  function UnindexAll<U>(index: map<string, U>, ids: seq<string>): (r: map<string, U>)
    ensures forall k :: k in r <==> k in index && k !in ids
  {
    map k | k in index && k !in ids :: index[k]
  }

  /** Indexing a user's ids never overwrites an owner: every id an owner
      had keeps it, each of the user's ids gets an owner, and the ids that
      had none get the user. */
  lemma {:induction false} IndexAllShape<U>(index: map<string, U>, ids: seq<string>, owner: U)
    ensures var r := IndexAll(index, ids, owner);
      && (forall k :: k in index ==> k in r && r[k] == index[k])
      && (forall k :: k in r <==> k in index || k in ids)
      && (forall k :: k in r && k !in index ==> r[k] == owner)
  {
    if ids != [] {
      var init := ids[..|ids| - 1];
      IndexAllShape(index, init, owner);
      assert ids == init + [ids[|ids| - 1]];
    }
  }

  /** Removing the ids just indexed leaves the index as removing them from
      the original one would: the user a deleteUser had to create leaves no
      trace in the index. */
  lemma UnindexAfterIndex<U>(index: map<string, U>, ids: seq<string>, owner: U)
    ensures UnindexAll(IndexAll(index, ids, owner), ids) == UnindexAll(index, ids)
  {
    IndexAllShape(index, ids, owner);
    var a := UnindexAll(IndexAll(index, ids, owner), ids);
    var b := UnindexAll(index, ids);
    assert forall k :: k in a ==> a[k] == b[k];
  }

  /** An identification id stays with the first user that announced it: a
      second announcement by another user leaves the index as it was. */
  lemma FirstOwnerKept<U>(index: map<string, U>, iid: string, first: U, second: U)
    ensures IndexAll(IndexAll(index, [iid], first), [iid], second) == IndexAll(index, [iid], first)
    ensures iid !in index ==> IndexAll(IndexAll(index, [iid], first), [iid], second)[iid] == first
  {
    assert [iid][..0] == [];
    IndexAllShape(index, [iid], first);
  }

  class UserManager {
    var users: map<string, User>
    var index: map<string, User>

    constructor ()
      ensures users == map[] && index == map[]
    {
      users := map[];
      index := map[];
    }

    /** getUserByIID: the owner the index records, if any. */
    function GetUserByIID(iid: string): (r: Option<User>)
      reads this
      ensures r.Some? <==> iid in index
      ensures r.Some? ==> r.value == index[iid]
    {
      if iid in index then Some(index[iid]) else None
    }

    /** addIID: the first owner of an id is kept. */
    method AddIID(iid: string, user: User)
      modifies this
      ensures users == old(users)
      ensures index == IndexAll(old(index), [iid], user)
    {
      assert [iid][..0] == [];
      if iid !in index {
        index := index[iid := user];
      }
    }

    /** deleteIID: only that key goes. */
    method DeleteIID(iid: string)
      modifies this
      ensures users == old(users)
      ensures index == UnindexAll(old(index), [iid])
    {
      index := index - {iid};
    }

    /** deleteIID for each id in turn. */
    method DeleteIIDs(ids: seq<string>)
      modifies this
      ensures users == old(users)
      ensures index == UnindexAll(old(index), ids)
    {
      var i := 0;
      while i < |ids|
        invariant 0 <= i <= |ids| && users == old(users)
        invariant index == UnindexAll(old(index), ids[..i])
      {
        assert ids[..i + 1] == ids[..i] + [ids[i]];
        DeleteIID(ids[i]);
        i := i + 1;
      }
      assert ids[..i] == ids;
    }

    /** addUser: no user for a name without an account; otherwise a new user
        read from its file, its ids indexed, cached under its name. */
    method AddUser(userName: string, env: SystemEnv) returns (user: Option<User>)
      modifies this
      ensures userName !in env.accounts ==> user == None && users == old(users) && index == old(index)
      ensures userName in env.accounts ==>
        && user.Some? && fresh(user.value) && fresh(user.value.config)
        && user.value.userName == userName && user.value.uid == env.accounts[userName]
        && user.value.State() == INITIAL_USER
        && user.value.config.State() == LoadSpec(FileOf(env, userName))
        && users == old(users)[userName := user.value]
        && index == IndexAll(old(index), user.value.config.iids, user.value)
    {
      if userName !in env.accounts {
        return None;
      }
      var u := new User(userName, env.accounts[userName], FileOf(env, userName));
      var ids := u.GetIIDs();
      var i := 0;
      while i < |ids|
        invariant 0 <= i <= |ids| && users == old(users)
        invariant index == IndexAll(old(index), ids[..i], u)
        invariant u.State() == INITIAL_USER && u.config.State() == LoadSpec(FileOf(env, userName))
      {
        assert ids[..i + 1][..i] == ids[..i];
        AddIID(ids[i], u);
        assert IndexAll(index, [ids[i]], u) == IndexAll(old(index), ids[..i + 1], u) by {
          assert [ids[i]][..0] == [];
        }
        i := i + 1;
      }
      assert ids[..i] == ids;
      users := users[userName := u];
      user := Some(u);
    }

    /** findUser: the cached user; else none for a name without an account;
        else a new user, cached. */
    method FindUser(userName: string, env: SystemEnv) returns (user: Option<User>)
      modifies this
      ensures userName in old(users) ==> user == Some(old(users)[userName]) && users == old(users) && index == old(index)
      ensures userName !in old(users) && userName !in env.accounts ==>
        user == None && users == old(users) && index == old(index)
      ensures userName !in old(users) && userName in env.accounts ==>
        && user.Some? && fresh(user.value) && fresh(user.value.config)
        && user.value.userName == userName
        && user.value.State() == INITIAL_USER
        && user.value.config.State() == LoadSpec(FileOf(env, userName))
        && users == old(users)[userName := user.value]
        && index == IndexAll(old(index), user.value.config.iids, user.value)
    {
      if userName in users {
        return Some(users[userName]);
      }
      if userName !in env.accounts {
        return None;
      }
      user := AddUser(userName, env);
    }

    /** deleteUser: the user (found or created) loses every listed id from
        the index, its file is emptied and it leaves the cache; a name with
        neither a cached user nor an account changes nothing. */
    method DeleteUser(userName: string, env: SystemEnv)
      modifies this, if userName in users then {users[userName].config} else {}
      ensures userName !in old(users) && userName !in env.accounts ==>
        users == old(users) && index == old(index)
      ensures userName in old(users) ==>
        && users == old(users) - {userName}
        && index == UnindexAll(old(index), old(users[userName].config.iids))
        && old(users)[userName].config.State() == RemoveCacheSpec(old(users[userName].config.State()))
      ensures userName !in old(users) && userName in env.accounts ==>
        && users == old(users)
        && index == UnindexAll(old(index), LoadSpec(FileOf(env, userName)).iids)
    {
      var found := FindUser(userName, env);
      if found.None? {
        return;
      }
      var u := found.value;
      var ids := u.GetIIDs();
      DeleteIIDs(ids);
      u.RemoveCache();
      users := users - {userName};
      if userName !in old(users) {
        UnindexAfterIndex(old(index), ids, u);
      }
    }

    /** AddIdentification as the daemon wires it: the user's handler runs
        against the current index, and the announcement it makes indexes
        the new id under that user. */
    method AddIdentification(user: User, authType: int, name: string, dataID: string,
                             iidOf: (int, string) -> string) returns (reply: Reply)
      modifies this, user, user.config
      ensures reply == AddIdentificationReply(authType, dataID, old(index).Keys, iidOf)
      ensures user.State() == AddIdentificationSpec(old(user.State()), authType, dataID, old(index).Keys, iidOf)
      ensures user.config.State() == AddIdentificationStoreSpec(old(user.config.State()), authType, name, dataID, old(index).Keys, iidOf)
      ensures users == old(users)
      ensures index == if reply == NoReply then old(index)[iidOf(authType, dataID) := user] else old(index)
    {
      reply := user.OnAddIdentification(authType, name, dataID, index.Keys, iidOf);
      if reply == NoReply {
        AddIID(iidOf(authType, dataID), user);
        assert [iidOf(authType, dataID)][..0] == [];
      }
    }

    /** DeleteIdentification as the daemon wires it: an id the user lists is
        dropped from the index, whoever the index names as its owner. */
    method DeleteIdentification(user: User, iid: string) returns (reply: Reply)
      modifies this, user, user.config
      ensures reply == DeleteIdentificationReply(old(user.config.State()), iid)
      ensures user.State() == DeleteIdentificationSpec(old(user.State()), old(user.config.State()), iid)
      ensures user.config.State() == DeleteIdentificationStoreSpec(old(user.config.State()), iid)
      ensures users == old(users)
      ensures index == if iid in old(user.config.iids) then UnindexAll(old(index), [iid]) else old(index)
    {
      reply := user.OnDeleteIdentification(iid);
      if reply == Replied {
        DeleteIID(iid);
      }
    }
  }
}
