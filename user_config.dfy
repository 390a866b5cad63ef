// The per-user store of identifications and the failure counter
// (src/daemon/user-config.cpp). The in-memory table is `iids` (the list in
// insertion order) plus `info` (the ordered map from identification id to
// name, factor and device feature id); `file` is what the store's INI file
// holds: the IIDs list, the Failures counter and one group per
// identification id.
module UserConfigModel {
  import opened KasTypes
  import Utils

  // ---------------------------------------------------------------------
  // Key order of an ordered map keyed by strings
  // ---------------------------------------------------------------------

  /** String order as the ordered map compares its keys: character by
      character, and a proper prefix comes first. */
  predicate StrLeq(a: string, b: string)
  {
    a == [] || (b != [] && (a[0] < b[0] || (a[0] == b[0] && StrLeq(a[1..], b[1..]))))
  }

  lemma {:induction false} StrLeqTotal(a: string, b: string)
    ensures StrLeq(a, b) || StrLeq(b, a)
  {
    if a != [] && b != [] && a[0] == b[0] {
      StrLeqTotal(a[1..], b[1..]);
    }
  }

  lemma {:induction false} StrLeqAntisymmetric(a: string, b: string)
    requires StrLeq(a, b) && StrLeq(b, a)
    ensures a == b
  {
    if a != [] && b != [] {
      StrLeqAntisymmetric(a[1..], b[1..]);
      assert a == [a[0]] + a[1..] && b == [b[0]] + b[1..];
    }
  }

  lemma {:induction false} StrLeqTransitive(a: string, b: string, c: string)
    requires StrLeq(a, b) && StrLeq(b, c)
    ensures StrLeq(a, c)
  {
    if a != [] && b != [] && c != [] && a[0] == b[0] && b[0] == c[0] {
      StrLeqTransitive(a[1..], b[1..], c[1..]);
    }
  }

  /** A non-empty finite set of strings has a least element. */
  lemma {:induction false} LeastStringExists(keys: set<string>)
    requires keys != {}
    ensures exists m :: m in keys && forall y :: y in keys ==> StrLeq(m, y)
    decreases |keys|
  {
    var x := Pick(keys);
    var rest := keys - {x};
    if rest == {} {
      forall y | y in keys ensures StrLeq(x, y) {
        assert y !in rest;
        StrLeqTotal(x, y);
      }
    } else {
      LeastStringExists(rest);
      var m :| m in rest && forall y :: y in rest ==> StrLeq(m, y);
      StrLeqTotal(x, m);
      if StrLeq(x, m) {
        forall y | y in keys ensures StrLeq(x, y) {
          if y != x {
            StrLeqTransitive(x, m, y);
          } else {
            StrLeqTotal(x, y);
          }
        }
      } else {
        forall y | y in keys ensures StrLeq(m, y) {
          if y == x {
            StrLeqTotal(m, x);
          }
        }
      }
    }
  }

  /** The least key of a non-empty key set: the first one the map visits. */
  function LeastString(keys: set<string>): (m: string)
    requires keys != {}
    ensures m in keys && forall y :: y in keys ==> StrLeq(m, y)
  {
    LeastStringExists(keys);
    assert forall a, b :: a in keys && b in keys && StrLeq(a, b) && StrLeq(b, a) ==> a == b by {
      forall a, b | a in keys && b in keys && StrLeq(a, b) && StrLeq(b, a) ensures a == b {
        StrLeqAntisymmetric(a, b);
      }
    }
    var m :| m in keys && forall y :: y in keys ==> StrLeq(m, y);
    m
  }

  /** The keys of an ordered map in the order its iterators visit them. */
  function SortedKeys(keys: set<string>): (r: seq<string>)
    ensures |r| == |keys|
    ensures forall k :: k in r <==> k in keys
    decreases |keys|
  {
    if keys == {} then []
    else
      var m := LeastString(keys);
      [m] + SortedKeys(keys - {m})
  }

  /** Each key comes strictly before the ones after it. */
  ghost predicate StrictlyAscending(ks: seq<string>)
  {
    forall i, j :: 0 <= i < j < |ks| ==> ks[i] != ks[j] && StrLeq(ks[i], ks[j])
  }

  lemma {:induction false} SortedKeysAscending(keys: set<string>)
    ensures StrictlyAscending(SortedKeys(keys))
    decreases |keys|
  {
    if keys != {} {
      var m := LeastString(keys);
      var rest := SortedKeys(keys - {m});
      SortedKeysAscending(keys - {m});
      var r := [m] + rest;
      forall i, j | 0 <= i < j < |r| ensures r[i] != r[j] && StrLeq(r[i], r[j]) {
        if i == 0 {
          assert r[j] == rest[j - 1] && r[j] in keys - {m};
        } else {
          assert r[i] == rest[i - 1] && r[j] == rest[j - 1];
        }
      }
    }
  }

  // ---------------------------------------------------------------------
  // Data
  // ---------------------------------------------------------------------

  /** What the store remembers about one identification id. */
  datatype IidInfo = IidInfo(name: string, authType: int, bid: string)

  /** One identification group of the INI file; a missing key reads as "". */
  datatype IidGroup = IidGroup(authType: string, name: string, bid: string)

  /** The INI file: the IIDs list and Failures counter of the general group,
      and the identification groups. */
  datatype UserFile = UserFile(iids: seq<string>, failures: int, groups: map<string, IidGroup>)

  const EMPTY_GROUP: IidGroup := IidGroup("", "", "")
  const EMPTY_FILE: UserFile := UserFile([], 0, map[])

  datatype UserConfigState = UserConfigState(
    iids: seq<string>,
    info: map<string, IidInfo>,
    failures: int,
    file: UserFile)

  /** Reading a group that is not in the file yields only empty values. */
  function GroupOf(groups: map<string, IidGroup>, iid: string): IidGroup
  {
    if iid in groups then groups[iid] else EMPTY_GROUP
  }

  /** init keeps a group only with a name, a factor string and a factor the
      string names. */
  predicate Usable(g: IidGroup)
  {
    g.name != "" && g.authType != "" && Utils.AuthTypeStr2Enum(g.authType) != AUTH_TYPE_NONE
  }

  function InfoOf(g: IidGroup): IidInfo
  {
    IidInfo(g.name, Utils.AuthTypeStr2Enum(g.authType), g.bid)
  }

  // ---------------------------------------------------------------------
  // Loading (init)
  // ---------------------------------------------------------------------

  /** The listed ids init keeps, in list order. */
  function KeptIIDs(groups: map<string, IidGroup>, ids: seq<string>): (r: seq<string>)
  {
    if ids == [] then []
    else
      var last := ids[|ids| - 1];
      KeptIIDs(groups, ids[..|ids| - 1]) + (if Usable(GroupOf(groups, last)) then [last] else [])
  }

  /** The groups left after init: a listed id's unusable group is removed. */
  function CleanedGroups(groups: map<string, IidGroup>, ids: seq<string>): map<string, IidGroup>
  {
    map k | k in groups && (k !in ids || Usable(groups[k])) :: groups[k]
  }

  /** The table init builds from the listed ids with usable groups. */
  function LoadedInfo(groups: map<string, IidGroup>, ids: seq<string>): map<string, IidInfo>
  {
    map k | k in ids && k in groups && Usable(groups[k]) :: InfoOf(groups[k])
  }

  function LoadSpec(file: UserFile): UserConfigState
  {
    UserConfigState(
      KeptIIDs(file.groups, file.iids),
      LoadedInfo(file.groups, file.iids),
      file.failures,
      file.(groups := CleanedGroups(file.groups, file.iids)))
  }

  lemma {:induction false} KeptIIDsMembers(groups: map<string, IidGroup>, ids: seq<string>)
    ensures forall k :: k in KeptIIDs(groups, ids) <==> k in ids && k in groups && Usable(groups[k])
  {
    if ids != [] {
      var init := ids[..|ids| - 1];
      KeptIIDsMembers(groups, init);
      assert ids == init + [ids[|ids| - 1]];
    }
  }

  /** init keeps exactly the listed ids whose group has a name, a factor
      string and a factor the string names, and remembers what that group
      says; every other listed id loses its group. */
  lemma LoadKeepsUsable(file: UserFile)
    ensures var s := LoadSpec(file);
      && (forall k :: k in s.iids <==> k in s.info)
      && (forall k :: k in s.info <==> k in file.iids && Usable(GroupOf(file.groups, k)))
      && (forall k :: k in s.info ==>
            (s.info[k].name != "" && s.info[k].authType != AUTH_TYPE_NONE && s.info[k].bid == file.groups[k].bid))
      && (forall k :: k in file.iids ==> (k in s.file.groups <==> k in s.info))
      && s.failures == file.failures
  {
    KeptIIDsMembers(file.groups, file.iids);
  }

  /** Reloading the file init leaves behind yields the same table: init's
      clean-up is stable. */
  lemma LoadIdempotent(file: UserFile)
    ensures LoadSpec(LoadSpec(file).file) == LoadSpec(file)
  {
    var cleaned := CleanedGroups(file.groups, file.iids);
    KeptSameOnCleaned(file.groups, file.iids, file.iids);
    assert LoadedInfo(cleaned, file.iids) == LoadedInfo(file.groups, file.iids);
    assert CleanedGroups(cleaned, file.iids) == cleaned;
  }

  lemma {:induction false} KeptSameOnCleaned(groups: map<string, IidGroup>, listed: seq<string>, ids: seq<string>)
    requires forall k :: k in ids ==> k in listed
    ensures KeptIIDs(CleanedGroups(groups, listed), ids) == KeptIIDs(groups, ids)
  {
    if ids != [] {
      KeptSameOnCleaned(groups, listed, ids[..|ids| - 1]);
    }
  }

  /** One step of init: the id's group as read so far decides as the
      original group would, and the three results grow accordingly. */
  lemma LoadStep(groups: map<string, IidGroup>, ids: seq<string>, iid: string)
    ensures var g := GroupOf(CleanedGroups(groups, ids), iid);
      && (Usable(g) <==> iid in groups && Usable(groups[iid]))
      && (Usable(g) ==> g == groups[iid])
      && KeptIIDs(groups, ids + [iid]) == KeptIIDs(groups, ids) + (if Usable(g) then [iid] else [])
      && LoadedInfo(groups, ids + [iid]) == (if Usable(g) then LoadedInfo(groups, ids)[iid := InfoOf(g)] else LoadedInfo(groups, ids))
      && CleanedGroups(groups, ids + [iid]) == (if Usable(g) then CleanedGroups(groups, ids) else CleanedGroups(groups, ids) - {iid})
  {
    assert (ids + [iid])[..|ids + [iid]| - 1] == ids;
  }

  // ---------------------------------------------------------------------
  // Queries
  // ---------------------------------------------------------------------

  /** getIIDs(authType) over keys visited in `keys` order. */
  function IIDsAmong(info: map<string, IidInfo>, keys: seq<string>, authType: int): seq<string>
  {
    if keys == [] then []
    else
      var k := keys[0];
      (if k in info && info[k].authType == authType then [k] else []) + IIDsAmong(info, keys[1..], authType)
  }

  /** getBIDs(authType) over keys visited in `keys` order. */
  function BIDsAmong(info: map<string, IidInfo>, keys: seq<string>, authType: int): seq<string>
  {
    if keys == [] then []
    else
      var k := keys[0];
      (if k in info && info[k].authType == authType then [info[k].bid] else []) + BIDsAmong(info, keys[1..], authType)
  }

  /** getIIDs(authType): the ids of one factor, in map order. */
  function IIDsOfType(s: UserConfigState, authType: int): seq<string>
  {
    IIDsAmong(s.info, SortedKeys(s.info.Keys), authType)
  }

  /** getBIDs(authType): their device feature ids, in the same order. */
  function BIDsOfType(s: UserConfigState, authType: int): seq<string>
  {
    BIDsAmong(s.info, SortedKeys(s.info.Keys), authType)
  }

  /** getIIDName: "" for an unknown id. */
  function IIDName(s: UserConfigState, iid: string): (r: string)
    ensures iid !in s.info ==> r == ""
  {
    if iid in s.info then s.info[iid].name else ""
  }

  /** getIIDBid: "" for an unknown id. */
  function IIDBid(s: UserConfigState, iid: string): (r: string)
    ensures iid !in s.info ==> r == ""
  {
    if iid in s.info then s.info[iid].bid else ""
  }

  /** getIIDAuthType: NONE for an unknown id. */
  function IIDAuthType(s: UserConfigState, iid: string): (r: int)
    ensures iid !in s.info ==> r == AUTH_TYPE_NONE
  {
    if iid in s.info then s.info[iid].authType else AUTH_TYPE_NONE
  }

  lemma {:induction false} IIDsAmongMembers(info: map<string, IidInfo>, keys: seq<string>, authType: int)
    ensures forall k :: k in IIDsAmong(info, keys, authType) <==> k in keys && k in info && info[k].authType == authType
  {
    if keys != [] {
      IIDsAmongMembers(info, keys[1..], authType);
      assert keys == [keys[0]] + keys[1..];
    }
  }

  lemma {:induction false} IIDsAmongAligned(info: map<string, IidInfo>, keys: seq<string>, authType: int)
    ensures var ids := IIDsAmong(info, keys, authType);
      var bids := BIDsAmong(info, keys, authType);
      && |ids| == |bids|
      && forall i :: 0 <= i < |ids| ==> ids[i] in info && info[ids[i]].authType == authType && bids[i] == info[ids[i]].bid
  {
    if keys != [] {
      IIDsAmongAligned(info, keys[1..], authType);
    }
  }

  lemma {:induction false} IIDsAmongAscending(info: map<string, IidInfo>, keys: seq<string>, authType: int)
    requires StrictlyAscending(keys)
    ensures StrictlyAscending(IIDsAmong(info, keys, authType))
  {
    if keys != [] {
      var rest := keys[1..];
      assert StrictlyAscending(rest) by {
        forall i, j | 0 <= i < j < |rest| ensures rest[i] != rest[j] && StrLeq(rest[i], rest[j]) {
          assert rest[i] == keys[i + 1] && rest[j] == keys[j + 1];
        }
      }
      IIDsAmongAscending(info, rest, authType);
      IIDsAmongMembers(info, rest, authType);
      var tail := IIDsAmong(info, rest, authType);
      forall y | y in tail ensures y != keys[0] && StrLeq(keys[0], y) {
        var j :| 0 <= j < |rest| && rest[j] == y;
        assert keys[j + 1] == y;
      }
    }
  }

  /** getIIDs(t) holds exactly the known ids of factor t, each once, in map
      order; getBIDs(t) has the same length and holds, position by position,
      the device feature id of the same entry. */
  lemma GetIIDsExact(s: UserConfigState, authType: int)
    ensures var ids := IIDsOfType(s, authType);
      var bids := BIDsOfType(s, authType);
      && (forall k :: k in ids <==> k in s.info && s.info[k].authType == authType)
      && StrictlyAscending(ids)
      && |ids| == |bids|
      && forall i :: 0 <= i < |ids| ==> bids[i] == s.info[ids[i]].bid
  {
    var keys := SortedKeys(s.info.Keys);
    IIDsAmongMembers(s.info, keys, authType);
    IIDsAmongAligned(s.info, keys, authType);
    SortedKeysAscending(s.info.Keys);
    IIDsAmongAscending(s.info, keys, authType);
  }

  // ---------------------------------------------------------------------
  // Updates
  // ---------------------------------------------------------------------

  /** addIID: refused when the file already has a group for the id;
      otherwise the id is appended to the list, its entry stored, and the
      list and the group written. */
  function AddIIDSpec(s: UserConfigState, authType: int, iid: string, name: string, bid: string): UserConfigState
  {
    if iid in s.file.groups then s
    else
      var ids := s.iids + [iid];
      var group := IidGroup(Utils.AuthTypeEnum2Str(authType), name, bid);
      s.(iids := ids, info := s.info[iid := IidInfo(name, authType, bid)],
         file := s.file.(iids := ids, groups := s.file.groups[iid := group]))
  }

  /** deleteIID: refused when the file has no group for the id; otherwise
      the id's first list entry and its table entry go, the list is written
      and the group removed. */
  function DeleteIIDSpec(s: UserConfigState, iid: string): UserConfigState
  {
    if iid !in s.file.groups then s
    else
      var ids := RemoveOne(s.iids, iid);
      s.(iids := ids, info := s.info - {iid}, file := s.file.(iids := ids, groups := s.file.groups - {iid}))
  }

  /** setFailures: an unchanged count writes nothing. */
  function SetFailuresSpec(s: UserConfigState, failures: int): UserConfigState
  {
    if failures == s.failures then s
    else s.(failures := failures, file := s.file.(failures := failures))
  }

  /** removeCache: the file is emptied; the table in memory stays. */
  function RemoveCacheSpec(s: UserConfigState): UserConfigState
  {
    s.(file := EMPTY_FILE)
  }

  /** Every known id is listed and has a group in the file (until the cache
      is removed). */
  ghost predicate WF(s: UserConfigState)
  {
    forall k :: k in s.info ==> k in s.iids && k in s.file.groups
  }

  lemma LoadWellFormed(file: UserFile)
    ensures WF(LoadSpec(file))
  {
    KeptIIDsMembers(file.groups, file.iids);
  }

  lemma UpdatesKeepWF(s: UserConfigState, authType: int, iid: string, name: string, bid: string, failures: int)
    requires WF(s)
    ensures WF(AddIIDSpec(s, authType, iid, name, bid))
    ensures WF(DeleteIIDSpec(s, iid))
    ensures WF(SetFailuresSpec(s, failures))
  {
    var d := DeleteIIDSpec(s, iid);
    forall k | k in d.info ensures k in d.iids && k in d.file.groups {
      if iid in s.file.groups {
        assert k != iid && k in s.iids;
      }
    }
  }

  /** A stored identification can be read back: the lookups return what was
      given, and getIIDs of its factor lists it. A second add of the same id
      is refused and changes nothing. */
  lemma AddIIDTakesEffect(s: UserConfigState, authType: int, iid: string, name: string, bid: string)
    requires iid !in s.file.groups
    ensures var t := AddIIDSpec(s, authType, iid, name, bid);
      && IIDName(t, iid) == name && IIDBid(t, iid) == bid && IIDAuthType(t, iid) == authType
      && iid in IIDsOfType(t, authType)
      && t.iids == s.iids + [iid]
      && (forall k :: k != iid ==> IIDName(t, k) == IIDName(s, k) && IIDAuthType(t, k) == IIDAuthType(s, k))
      && AddIIDSpec(t, authType, iid, name, bid) == t
  {
    GetIIDsExact(AddIIDSpec(s, authType, iid, name, bid), authType);
  }

  /** A deleted identification is unknown afterwards: the lookups return
      "", "" and NONE and no factor lists it; the other entries stay. */
  lemma DeleteIIDTakesEffect(s: UserConfigState, iid: string, authType: int)
    requires iid in s.file.groups
    ensures var t := DeleteIIDSpec(s, iid);
      && IIDName(t, iid) == "" && IIDBid(t, iid) == "" && IIDAuthType(t, iid) == AUTH_TYPE_NONE
      && iid !in IIDsOfType(t, authType)
      && |t.iids| == |s.iids| - (if iid in s.iids then 1 else 0)
      && (forall k :: k != iid && k in s.info ==> k in t.info && t.info[k] == s.info[k])
      && iid !in t.file.groups
  {
    GetIIDsExact(DeleteIIDSpec(s, iid), authType);
  }

  /** setFailures: the count reads back, and repeating it writes nothing. */
  lemma SetFailuresTakesEffect(s: UserConfigState, failures: int)
    ensures SetFailuresSpec(s, failures).failures == failures
    ensures SetFailuresSpec(s, failures).file.failures == (if failures == s.failures then s.file.failures else failures)
    ensures SetFailuresSpec(SetFailuresSpec(s, failures), failures) == SetFailuresSpec(s, failures)
    ensures failures == s.failures ==> SetFailuresSpec(s, failures) == s
  {
  }

  // ---------------------------------------------------------------------
  // The store
  // ---------------------------------------------------------------------

  class UserConfig {
    const userName: string
    var iids: seq<string>
    var info: map<string, IidInfo>
    var failures: int
    var file: UserFile

    function State(): UserConfigState
      reads this
    {
      UserConfigState(iids, info, failures, file)
    }

    /** The store of a user as init reads it from the user's file. */
    constructor (userName: string, file: UserFile)
      ensures this.userName == userName
      ensures State() == LoadSpec(file)
    {
      this.userName := userName;
      var ids: seq<string> := [];
      var table: map<string, IidInfo> := map[];
      var groups := file.groups;
      var i := 0;
      while i < |file.iids|
        invariant 0 <= i <= |file.iids|
        invariant ids == KeptIIDs(file.groups, file.iids[..i])
        invariant table == LoadedInfo(file.groups, file.iids[..i])
        invariant groups == CleanedGroups(file.groups, file.iids[..i])
      {
        var iid := file.iids[i];
        assert file.iids[..i + 1] == file.iids[..i] + [iid];
        LoadStep(file.groups, file.iids[..i], iid);
        var g := if iid in groups then groups[iid] else EMPTY_GROUP;
        var authType := Utils.AuthTypeStr2Enum(g.authType);
        if g.name == "" || g.authType == "" || authType == AUTH_TYPE_NONE {
          groups := groups - {iid};
        } else {
          table := table[iid := IidInfo(g.name, authType, g.bid)];
          ids := ids + [iid];
        }
        i := i + 1;
      }
      assert file.iids[..i] == file.iids;
      iids := ids;
      info := table;
      failures := file.failures;
      this.file := file.(groups := groups);
    }

    /** addIID: false, with nothing changed, when the id already has a group. */
    method AddIID(authType: int, iid: string, name: string, bid: string) returns (ok: bool)
      modifies this
      ensures ok <==> iid !in old(file.groups)
      ensures State() == AddIIDSpec(old(State()), authType, iid, name, bid)
    {
      if iid in file.groups {
        return false;
      }
      var authTypeStr := Utils.AuthTypeEnum2Str(authType);
      iids := iids + [iid];
      info := info[iid := IidInfo(name, authType, bid)];
      file := file.(iids := iids, groups := file.groups[iid := IidGroup(authTypeStr, name, bid)]);
      ok := true;
    }

    /** deleteIID: false, with nothing changed, when the id has no group. */
    method DeleteIID(iid: string) returns (ok: bool)
      modifies this
      ensures ok <==> iid in old(file.groups)
      ensures State() == DeleteIIDSpec(old(State()), iid)
    {
      if iid !in file.groups {
        return false;
      }
      iids := RemoveOne(iids, iid);
      info := info - {iid};
      file := file.(iids := iids, groups := file.groups - {iid});
      ok := true;
    }

    method SetFailures(failures: int)
      modifies this
      ensures State() == SetFailuresSpec(old(State()), failures)
    {
      if failures == this.failures {
        return;
      }
      file := file.(failures := failures);
      this.failures := failures;
    }

    method RemoveCache()
      modifies this
      ensures State() == RemoveCacheSpec(old(State()))
    {
      file := EMPTY_FILE;
    }
  }
}
