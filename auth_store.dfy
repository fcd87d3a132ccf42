/**
 * The client-side session store: the signed-in user as a field map, the
 * loading and authenticated flags, and the token the API client keeps in
 * local storage. Each server call is represented by its outcome.
 */
module AuthStore {
  import opened Common

  /** A user object as the client holds it: field name to value. */
  type UserObject = map<string, string>

  /** What a successful login or registration returns: the user and the token. */
  datatype Session = Session(user: UserObject, token: string)

  /** `{ ...user, ...userData }`: the new fields win, the others stay; spreading `null` contributes nothing. */
  function MergeUser(user: Option<UserObject>, data: UserObject): (r: UserObject)
    ensures forall k :: k in data ==> k in r && r[k] == data[k]
    ensures user.Some? ==> forall k :: k in user.value && k !in data ==> k in r && r[k] == user.value[k]
    ensures forall k :: k in r ==> k in data || (user.Some? && k in user.value)
  {
    user.GetOr(map[]) + data
  }

  /** Merging the same fields again changes nothing. */
  lemma MergeUserIdempotent(user: Option<UserObject>, data: UserObject)
    ensures MergeUser(Some(MergeUser(user, data)), data) == MergeUser(user, data)
  {
    var once := MergeUser(user, data);
    assert MergeUser(Some(once), data) == once + data;
    assert once + data == once;
  }

  class AuthStore {
    var user: Option<UserObject>
    var isLoading: bool
    var isAuthenticated: bool
    /** The token in local storage. */
    var token: Option<string>

    /** Signed in means a user is known and a token is stored. */
    ghost predicate Valid()
      reads this
    {
      isAuthenticated ==> user.Some? && token.Some?
    }

    /** The initial state, with whatever token local storage already holds. */
    constructor (stored: Option<string>)
      ensures Valid()
      ensures user.None? && isLoading && !isAuthenticated && token == stored
    {
      user := None;
      isLoading := true;
      isAuthenticated := false;
      token := stored;
    }

    /**
     * `initialize`, with `me` the outcome of `GET /auth/me` (`None` when it
     * fails). Without a token nothing is asked; a failed check forgets the
     * token. Loading always ends.
     */
    method Initialize(me: Option<UserObject>)
      requires Valid()
      modifies this
      ensures Valid() && !isLoading
      ensures !Truthy(old(token)) ==> !isAuthenticated && user == old(user) && token == old(token)
      ensures Truthy(old(token)) && me.Some? ==> isAuthenticated && user == me && token == old(token)
      ensures Truthy(old(token)) && me.None? ==> !isAuthenticated && user == old(user) && token.None?
    {
      if !Truthy(token) {
        isLoading := false;
        isAuthenticated := false;
        return;
      }
      if me.Some? {
        user := me;
        isLoading := false;
        isAuthenticated := true;
      } else {
        token := None;
        isLoading := false;
        isAuthenticated := false;
      }
    }

    /** `login` and `register`: on success the user and token are kept and the store is signed in; a failure throws and changes nothing. */
    method SignIn(outcome: Option<Session>) returns (r: Option<UserObject>)
      requires Valid()
      modifies this`user, this`isAuthenticated, this`token
      ensures Valid()
      ensures outcome.Some? ==>
        r == Some(outcome.value.user) && user == r && isAuthenticated && token == Some(outcome.value.token)
      ensures outcome.None? ==>
        r.None? && user == old(user) && isAuthenticated == old(isAuthenticated) && token == old(token)
    {
      if outcome.None? {
        return None;
      }
      token := Some(outcome.value.token);
      user := Some(outcome.value.user);
      isAuthenticated := true;
      r := user;
    }

    /** `logout`: the token, the user and the signed-in flag go. */
    method Logout()
      modifies this`user, this`isAuthenticated, this`token
      ensures Valid()
      ensures user.None? && !isAuthenticated && token.None?
    {
      token := None;
      user := None;
      isAuthenticated := false;
    }

    /** `updateUser`: the given fields are merged into the user; the flags stay. */
    method UpdateUser(data: UserObject)
      requires Valid()
      modifies this`user
      ensures Valid()
      ensures user == Some(MergeUser(old(user), data))
    {
      user := Some(MergeUser(user, data));
    }
  }
}
