/** The mock authentication session of src/hooks/useAuth.ts.

    `login` and `register` each set `isLoading`, wait a fixed delay and
    then store a made-up user; `logout` forgets the user. The delay is
    not modelled: each call is split into its two halves, `Begin` (what
    happens before the `await`) and a `Finish...` (what happens after it),
    so that a `logout` can also be placed between them. `Date.now()` is
    the opaque `stamp` (its decimal rendering), `new Date()` the `now`. */
module Auth {
  import opened Optional
  import opened Types

  datatype Session = Session(currentUser: Option<User>, isLoading: bool)

  /** The hook's initial state: nobody signed in, not loading. */
  const Initial := Session(None, false)

  /** A completed `login` or `register` call: the state seen while it
      waits, the state after it, and the user it resolves to. */
  datatype Call = Call(pending: Session, done: Session, user: User)

  const DriverMockName := "أحمد محمود"
  const StudentMockName := "فاطمة علي"

  /** The display name `login` invents, chosen by the user type. */
  function MockName(userType: UserType): string {
    match userType
    case Driver => DriverMockName
    case Student => StudentMockName
  }

  /** What `${userData.type}` renders as: the tag, or `undefined`. */
  function TypeTemplate(userType: Option<UserType>): string {
    match userType
    case Some(t) => t.Name()
    case None => "undefined"
  }

  /** The common first half of `login` and `register`: only the loading
      flag is raised. */
  function Begin(s: Session): (r: Session)
    ensures r.isLoading && r.currentUser == s.currentUser
  {
    s.(isLoading := true)
  }

  /** The second half of `login`: a user with the given phone and type,
      rating 4.5 and a name chosen by the type, stored and returned. The
      password plays no part. */
  function FinishLogin(s: Session, phone: string, password: string, userType: UserType,
                       stamp: string, now: Instant): (r: (Session, User))
    ensures r.0 == Session(Some(r.1), false)
    ensures r.1.phone == phone && r.1.userType == userType
    ensures r.1.rating == 4.5 && r.1.name == MockName(userType)
    ensures r.1.id == userType.Name() + "_" + stamp
    ensures r.1.email == userType.Name() + "@example.com"
    ensures r.1.createdAt == now && r.1.avatar.None?
  {
    var user := User(
      id := userType.Name() + "_" + stamp,
      name := MockName(userType),
      phone := phone,
      email := userType.Name() + "@example.com",
      userType := userType,
      rating := 4.5,
      avatar := None,
      createdAt := now);
    (Session(Some(user), false), user)
  }

  /** The second half of `register`: missing name, phone and email become
      empty, a missing type becomes `student`, the rating is always 0 and
      the id is built from the type as given, so a missing type yields an
      id starting `undefined_`. Other keys of the data are ignored. */
  function FinishRegister(s: Session, data: UserPatch, stamp: string, now: Instant): (r: (Session, User))
    ensures r.0 == Session(Some(r.1), false)
    ensures r.1.name == data.name.GetOr("") && r.1.phone == data.phone.GetOr("")
    ensures r.1.email == data.email.GetOr("")
    ensures r.1.userType == data.userType.GetOr(Student)
    ensures r.1.rating == 0.0 && r.1.createdAt == now && r.1.avatar.None?
    ensures data.userType.Some? ==> r.1.id == data.userType.value.Name() + "_" + stamp
    ensures data.userType.None? ==> r.1.id == "undefined_" + stamp
  {
    // `x || ''` on an optional string is `x ?? ''`: the empty string maps to itself.
    var user := User(
      id := TypeTemplate(data.userType) + "_" + stamp,
      name := data.name.GetOr(""),
      phone := data.phone.GetOr(""),
      email := data.email.GetOr(""),
      userType := data.userType.GetOr(Student),
      rating := 0.0,
      avatar := None,
      createdAt := now);
    (Session(Some(user), false), user)
  }

  /** `login` run to completion with nothing in between: loading while it
      waits, then signed in as the user it returns. */
  function Login(s: Session, phone: string, password: string, userType: UserType,
                 stamp: string, now: Instant): (c: Call)
    ensures c.pending.isLoading && c.pending.currentUser == s.currentUser
    ensures !c.done.isLoading && c.done.currentUser == Some(c.user)
    ensures c.user.phone == phone && c.user.userType == userType && c.user.rating == 4.5
  {
    var pending := Begin(s);
    var (done, user) := FinishLogin(pending, phone, password, userType, stamp, now);
    Call(pending, done, user)
  }

  /** `register` run to completion with nothing in between. */
  function Register(s: Session, data: UserPatch, stamp: string, now: Instant): (c: Call)
    ensures c.pending.isLoading && c.pending.currentUser == s.currentUser
    ensures !c.done.isLoading && c.done.currentUser == Some(c.user)
    ensures c.user.rating == 0.0 && c.user.userType == data.userType.GetOr(Student)
  {
    var pending := Begin(s);
    var (done, user) := FinishRegister(pending, data, stamp, now);
    Call(pending, done, user)
  }

  /** `logout`: nobody is signed in afterwards; the loading flag is left
      as it was. */
  function Logout(s: Session): (r: Session)
    ensures r.currentUser.None? && r.isLoading == s.isLoading
  {
    s.(currentUser := None)
  }

  /** A logout issued while a login waits is undone when the login
      completes: the completion stores its user regardless. */
  lemma LogoutDuringLoginIsOverridden(s: Session, phone: string, password: string,
                                      userType: UserType, stamp: string, now: Instant)
    ensures var r := FinishLogin(Logout(Begin(s)), phone, password, userType, stamp, now);
      r.0.currentUser == Some(r.1) && !r.0.isLoading
  {
  }

  /** The password never influences the outcome of a login. */
  lemma LoginIgnoresPassword(s: Session, phone: string, p1: string, p2: string,
                             userType: UserType, stamp: string, now: Instant)
    ensures Login(s, phone, p1, userType, stamp, now) == Login(s, phone, p2, userType, stamp, now)
  {
  }

  /** One completed call of the hook. */
  datatype Action =
    | LoginAction(phone: string, password: string, userType: UserType, stamp: string, now: Instant)
    | RegisterAction(data: UserPatch, stamp: string, now: Instant)
    | LogoutAction

  function Step(s: Session, a: Action): Session {
    match a
    case LoginAction(phone, password, userType, stamp, now) =>
      Login(s, phone, password, userType, stamp, now).done
    case RegisterAction(data, stamp, now) => Register(s, data, stamp, now).done
    case LogoutAction => Logout(s)
  }

  /** The session after a sequence of completed calls. */
  function Run(s: Session, actions: seq<Action>): Session
    decreases |actions|
  {
    if |actions| == 0 then s else Run(Step(s, actions[0]), actions[1..])
  }

  /** After any non-empty sequence of completed calls, somebody is signed
      in exactly when the last call was not a logout. */
  lemma {:induction false} LastCallDecidesSignIn(s: Session, actions: seq<Action>)
    requires |actions| > 0
    ensures Run(s, actions).currentUser.None? <==> actions[|actions| - 1].LogoutAction?
    decreases |actions|
  {
    if |actions| > 1 {
      LastCallDecidesSignIn(Step(s, actions[0]), actions[1..]);
      assert actions[1..][|actions[1..]| - 1] == actions[|actions| - 1];
    }
  }

  /** Completed calls never leave the hook loading, unless it was already
      loading and only logouts followed. */
  lemma {:induction false} CompletedCallsSettle(s: Session, actions: seq<Action>)
    requires !s.isLoading || exists i :: 0 <= i < |actions| && !actions[i].LogoutAction?
    ensures !Run(s, actions).isLoading
    decreases |actions|
  {
    if |actions| > 0 {
      var next := Step(s, actions[0]);
      assert !next.isLoading || exists i :: 0 <= i < |actions[1..]| && !actions[1..][i].LogoutAction? by {
        if next.isLoading {
          assert actions[0].LogoutAction?;
          var i :| 0 <= i < |actions| && !actions[i].LogoutAction?;
          assert actions[1..][i - 1] == actions[i];
        }
      }
      CompletedCallsSettle(next, actions[1..]);
    }
  }
}
