/** The front end's signed-in user store: five fields, one setter each, a
  * partial overwrite and a reset. */
module UserStore {
  import opened Wrappers

  /** The store's five fields; `None` is `null`. */
  datatype UserState = UserState(
    username: Option<string>, email: Option<string>, role: Option<string>,
    token: Option<string>, image: Option<string>)

  const InitialState := UserState(None, None, None, None, None)

  /** `Partial<UserState>`: `None` for a key the object does not have,
    * `Some(v)` for one it has, even when `v` is `null` or `undefined`. */
  datatype PartialUser = PartialUser(
    username: Option<Option<string>>, email: Option<Option<string>>, role: Option<Option<string>>,
    token: Option<Option<string>>, image: Option<Option<string>>)

  const NoKeys := PartialUser(None, None, None, None, None)

  function Pick(present: Option<Option<string>>, current: Option<string>): (r: Option<string>)
    ensures present.Some? ==> r == present.value
    ensures present.None? ==> r == current
  {
    if present.Some? then present.value else current
  }

  /** `{ ...state, ...user }`: every key the argument has overwrites the
    * store's, every other key is kept. */
  function Merge(state: UserState, user: PartialUser): (r: UserState)
    ensures user.username.Some? ==> r.username == user.username.value
    ensures user.username.None? ==> r.username == state.username
    ensures user.email.Some? ==> r.email == user.email.value
    ensures user.email.None? ==> r.email == state.email
    ensures user.role.Some? ==> r.role == user.role.value
    ensures user.role.None? ==> r.role == state.role
    ensures user.token.Some? ==> r.token == user.token.value
    ensures user.token.None? ==> r.token == state.token
    ensures user.image.Some? ==> r.image == user.image.value
    ensures user.image.None? ==> r.image == state.image
  {
    UserState(Pick(user.username, state.username), Pick(user.email, state.email), Pick(user.role, state.role),
              Pick(user.token, state.token), Pick(user.image, state.image))
  }

  /** An argument with no keys changes nothing. */
  lemma MergeNoKeys(state: UserState)
    ensures Merge(state, NoKeys) == state
  {
  }

  /** Applying the same partial state twice is applying it once. */
  lemma MergeIdempotent(state: UserState, user: PartialUser)
    ensures Merge(Merge(state, user), user) == Merge(state, user)
  {
  }

  /** A partial state with every key replaces the whole state, whatever it
    * was. */
  lemma MergeAllKeys(a: UserState, b: UserState, user: PartialUser)
    requires user.username.Some? && user.email.Some? && user.role.Some? && user.token.Some? && user.image.Some?
    ensures Merge(a, user) == Merge(b, user)
  {
  }

  class Store {
    var username: Option<string>
    var email: Option<string>
    var role: Option<string>
    var token: Option<string>
    var image: Option<string>

    function State(): UserState
      reads this
    {
      UserState(username, email, role, token, image)
    }

    /** The initial state: all five fields `null`. */
    constructor ()
      ensures State() == InitialState
    {
      username := None;
      email := None;
      role := None;
      token := None;
      image := None;
    }

    method SetUserName(v: Option<string>)
      modifies this
      ensures State() == old(State()).(username := v)
    {
      username := v;
    }

    method SetEmail(v: Option<string>)
      modifies this
      ensures State() == old(State()).(email := v)
    {
      email := v;
    }

    method SetRole(v: Option<string>)
      modifies this
      ensures State() == old(State()).(role := v)
    {
      role := v;
    }

    method SetToken(v: Option<string>)
      modifies this
      ensures State() == old(State()).(token := v)
    {
      token := v;
    }

    method SetImage(v: Option<string>)
      modifies this
      ensures State() == old(State()).(image := v)
    {
      image := v;
    }

    /** `setAll`. */
    method SetAll(user: PartialUser)
      modifies this
      ensures State() == Merge(old(State()), user)
    {
      username := Pick(user.username, username);
      email := Pick(user.email, email);
      role := Pick(user.role, role);
      token := Pick(user.token, token);
      image := Pick(user.image, image);
    }

    /** `reset`: back to the initial state. */
    method Reset()
      modifies this
      ensures State() == InitialState
    {
      username := None;
      email := None;
      role := None;
      token := None;
      image := None;
    }
  }
}
