/**
 * The flat-file backend: the same three operations over a list of user records read from a
 * file. Users are matched first-in-list and case-insensitively; claims are projected onto
 * the requested keys; a search keeps the users whose name contains the term, in list order.
 */
module Accounts {
  import opened Wrappers
  import opened Ascii
  import opened Users

  /** A user record of the file: its subject id, login name, hex SHA-256 password hash and claims. */
  datatype User = User(id: string, username: string, passwordHash: string, claims: map<string, string>)

  const UserNotFound: int := 1
  const UsersMissing: int := 2
  const InvalidPassword: int := 3

  /** The three error codes are distinct and none of them is the "no error" value 0. */
  lemma ErrorCodesDistinct()
    ensures var codes := [UserNotFound, UsersMissing, InvalidPassword];
      forall i, j :: 0 <= i < j < |codes| ==> codes[i] != codes[j] && codes[i] != 0
  {
  }

  /** The user file as it was read: unreadable or malformed, or its list of users. */
  datatype UserFile = Missing | Loaded(users: seq<User>)

  // ---------------------------------------------------------------- findUser

  /** A user the identifier designates: by id for `SUBJECT`, by login name for `USER_NAME`. */
  predicate Matches(u: User, identifier: string, identifierType: int) {
    || (identifierType == SUBJECT && EqualFold(identifier, u.id))
    || (identifierType == USER_NAME && EqualFold(identifier, u.username))
  }

  /** The index of the first user the identifier designates, if any. */
  function FirstIndex(users: seq<User>, identifier: string, identifierType: int): (r: Option<nat>)
    ensures r.Some? ==> r.value < |users| && Matches(users[r.value], identifier, identifierType)
    ensures r.Some? ==> forall j :: 0 <= j < r.value ==> !Matches(users[j], identifier, identifierType)
    ensures r.None? ==> forall j :: 0 <= j < |users| ==> !Matches(users[j], identifier, identifierType)
  {
    if users == [] then None
    else if Matches(users[0], identifier, identifierType) then Some(0)
    else
      match FirstIndex(users[1..], identifier, identifierType)
      case None => None
      case Some(i) => Some(i + 1)
  }

  /** The user `findUser` finds: none when the file is missing, else the first match. */
  function Found(file: UserFile, identifier: string, identifierType: int): (r: Option<User>)
    ensures r.Some? ==> file.Loaded? && r.value in file.users && Matches(r.value, identifier, identifierType)
    ensures r.None? ==> file.Missing? || forall u :: u in file.users ==> !Matches(u, identifier, identifierType)
  {
    if file.Missing? then None
    else
      match FirstIndex(file.users, identifier, identifierType)
      case None => None
      case Some(i) => Some(file.users[i])
  }

  /**
   * A user is found exactly when the file loaded and some user matches; it is the first
   * match. An unknown identifier type finds nobody.
   */
  lemma FoundIsFirstMatch(file: UserFile, identifier: string, identifierType: int)
    ensures Found(file, identifier, identifierType).Some? <==>
      file.Loaded? && exists i :: 0 <= i < |file.users| && Matches(file.users[i], identifier, identifierType)
    ensures Found(file, identifier, identifierType).Some? ==>
      exists i :: 0 <= i < |file.users| && file.users[i] == Found(file, identifier, identifierType).value
        && Matches(file.users[i], identifier, identifierType)
        && forall j :: 0 <= j < i ==> !Matches(file.users[j], identifier, identifierType)
    ensures identifierType != SUBJECT && identifierType != USER_NAME ==> Found(file, identifier, identifierType) == None
  {
    if file.Loaded? {
      var r := FirstIndex(file.users, identifier, identifierType);
      if r.Some? {
        assert file.users[r.value] == Found(file, identifier, identifierType).value;
      }
    }
  }

  /** `findUser`: the first user in list order that the identifier designates. */
  method FindUser(file: UserFile, identifier: string, identifierType: int) returns (u: Option<User>)
    ensures u == Found(file, identifier, identifierType)
  {
    if file.Missing? {
      return None;
    }
    var users := file.users;
    for i := 0 to |users|
      invariant forall j :: 0 <= j < i ==> !Matches(users[j], identifier, identifierType)
    {
      if identifierType == SUBJECT {
        if EqualFold(identifier, users[i].id) {
          assert FirstIndex(users, identifier, identifierType) == Some(i);
          return Some(users[i]);
        }
      } else if identifierType == USER_NAME {
        if EqualFold(identifier, users[i].username) {
          assert FirstIndex(users, identifier, identifierType) == Some(i);
          return Some(users[i]);
        }
      }
    }
    return None;
  }

  // ---------------------------------------------------------------- Authenticate

  /**
   * `Authenticate`: find the user by login name and compare the hex SHA-256 of the password
   * with the stored hash, ignoring case. `hash` stands for the hex SHA-256 digest.
   */
  method Authenticate(file: UserFile, hash: string -> string, req: AuthRequest) returns (resp: AuthResponse)
    ensures resp.succeeded <==> resp.error == 0
    ensures Found(file, req.username, USER_NAME).None? ==> resp == AuthResponse(false, "", UserNotFound)
    ensures Found(file, req.username, USER_NAME).Some? ==>
      var u := Found(file, req.username, USER_NAME).value;
      if EqualFold(hash(req.password), u.passwordHash) then resp == AuthResponse(true, u.id, 0)
      else resp == AuthResponse(false, "", InvalidPassword)
  {
    resp := AuthResponse(false, "", 0);
    var u := FindUser(file, req.username, USER_NAME);
    if u.None? {
      resp := resp.(error := UserNotFound);
    } else {
      var h := hash(req.password);
      if EqualFold(h, u.value.passwordHash) {
        resp := resp.(succeeded := true, subject := u.value.id);
      } else {
        resp := resp.(error := InvalidPassword);
      }
    }
  }

  // ---------------------------------------------------------------- claims projection

  /** The requested claims of a user: exactly the requested keys, each with its value or `""`. */
  function Project(claims: map<string, string>, keys: seq<string>): (r: map<string, string>)
    ensures forall k :: k in r <==> k in keys
    ensures forall k :: k in r ==> r[k] == Get(claims, k)
  {
    map k | k in keys :: Get(claims, k)
  }

  /** The loop that copies each requested claim of a user into the response map. */
  method ProjectClaims(claims: map<string, string>, keys: seq<string>) returns (props: map<string, string>)
    ensures props == Project(claims, keys)
  {
    props := map[];
    for i := 0 to |keys|
      invariant forall k :: k in props <==> k in keys[..i]
      invariant forall k :: k in props ==> props[k] == Get(claims, k)
    {
      assert keys[..i + 1] == keys[..i] + [keys[i]];
      props := props[keys[i] := Get(claims, keys[i])];
    }
    assert keys[..|keys|] == keys;
  }

  /**
   * `FindClaims`: the requested claims of the user the identifier designates; an empty map
   * and `UserNotFound` when there is none.
   */
  method FindClaims(file: UserFile, req: ClaimsRequest) returns (resp: ClaimsResponse)
    ensures resp.succeeded <==> resp.error == 0
    ensures Found(file, req.identifier, req.identifierType).None? ==>
      resp == ClaimsResponse(false, map[], UserNotFound)
    ensures Found(file, req.identifier, req.identifierType).Some? ==>
      resp == ClaimsResponse(true, Project(Found(file, req.identifier, req.identifierType).value.claims, req.claims), 0)
  {
    resp := ClaimsResponse(false, map[], 0);
    var u := FindUser(file, req.identifier, req.identifierType);
    if u.None? {
      resp := resp.(error := UserNotFound);
    } else {
      var props := ProjectClaims(u.value.claims, req.claims);
      resp := resp.(claims := props, succeeded := true);
    }
  }

  // ---------------------------------------------------------------- SearchClaims

  /** A user the (lower-cased) term selects: it occurs in the lower-cased login name or `name` claim. */
  predicate Hit(u: User, term: string) {
    Contains(Lower(u.username), term) || Contains(Lower(Get(u.claims, "name")), term)
  }

  /** The users the term selects, in list order. */
  function Matching(users: seq<User>, term: string): (r: seq<User>)
    ensures |r| <= |users|
    ensures forall i :: 0 <= i < |r| ==> Hit(r[i], term)
  {
    if users == [] then []
    else
      var rest, last := users[..|users| - 1], users[|users| - 1];
      Matching(rest, term) + if Hit(last, term) then [last] else []
  }

  /** A user appears among the matches exactly when it is in the list and the term selects it. */
  lemma {:induction false} MatchingMembers(users: seq<User>, term: string)
    ensures forall u :: u in Matching(users, term) <==> u in users && Hit(u, term)
  {
    if users != [] {
      var rest, last := users[..|users| - 1], users[|users| - 1];
      MatchingMembers(rest, term);
      assert users == rest + [last];
    }
  }

  /** Matching a list matches its two halves independently: list order is kept. */
  lemma {:induction false} MatchingConcat(xs: seq<User>, ys: seq<User>, term: string)
    ensures Matching(xs + ys, term) == Matching(xs, term) + Matching(ys, term)
    decreases |ys|
  {
    if ys == [] {
      assert xs + ys == xs;
    } else {
      var ys' := ys[..|ys| - 1];
      assert (xs + ys)[..|xs + ys| - 1] == xs + ys';
      assert (xs + ys)[|xs + ys| - 1] == ys[|ys| - 1];
      MatchingConcat(xs, ys', term);
    }
  }

  /** The empty term selects every user. */
  lemma {:induction false} EmptyTermMatchesAll(users: seq<User>)
    ensures Matching(users, Lower("")) == users
  {
    if users != [] {
      var rest, last := users[..|users| - 1], users[|users| - 1];
      EmptyTermMatchesAll(rest);
      EmptyOccursEverywhere(Lower(last.username));
      assert Hit(last, Lower(""));
      assert users == rest + [last];
    }
  }

  /** The users the search runs over: none when the file could not be read. */
  function SearchedUsers(file: UserFile): seq<User> {
    if file.Loaded? then file.users else []
  }

  /**
   * `SearchClaims`: the requested claims of every user the lower-cased term selects, in list
   * order. It always reports success; a file that could not be read gives no results and
   * `UsersMissing`.
   */
  method SearchClaims(file: UserFile, req: SearchRequest) returns (resp: SearchResponse)
    ensures resp.succeeded
    ensures resp.error == if file.Missing? then UsersMissing else 0
    ensures var found := Matching(SearchedUsers(file), Lower(req.search));
      && |resp.results| == |found|
      && forall i :: 0 <= i < |found| ==> resp.results[i] == Project(found[i].claims, req.claims)
  {
    resp := SearchResponse(false, [], 0);
    if file.Missing? {
      resp := resp.(error := UsersMissing);
    }
    var users := SearchedUsers(file);
    var results: seq<map<string, string>> := [];
    var search := Lower(req.search);
    for i := 0 to |users|
      invariant |results| == |Matching(users[..i], search)|
      invariant forall j :: 0 <= j < |results| ==> results[j] == Project(Matching(users[..i], search)[j].claims, req.claims)
    {
      assert users[..i + 1][..i] == users[..i];
      var u := users[i];
      if Contains(Lower(u.username), search) || Contains(Lower(Get(u.claims, "name")), search) {
        var props := ProjectClaims(u.claims, req.claims);
        results := results + [props];
      }
    }
    assert users[..|users|] == users;
    resp := resp.(results := results, succeeded := true);
  }
}
