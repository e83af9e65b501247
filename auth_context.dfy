/** The session held by the authentication context: the token in local storage,
    the logged-in flag, the user and the start-up loading flag. The token
    verification request at start-up is an input. */
module AuthContext {
  import opened Domain

  /** The user record the server hands back; the pages read its e-mail. */
  datatype User = User(email: string, role: string)

  datatype Session = Session(storedToken: Option<string>, isLoggedIn: bool, user: Option<User>, loading: bool)

  /** The answer of the token verification endpoint. */
  datatype VerifyAnswer = Verified(user: User) | VerifyFailed

  /** Logged in exactly when there is a user, and never without a stored token. */
  predicate Consistent(s: Session)
  {
    (s.isLoggedIn <==> s.user.Some?) && (s.isLoggedIn ==> s.storedToken.Some?)
  }

  /** `if (token)`: a stored token counts only when it is non-empty. */
  predicate HasToken(s: Session)
  {
    s.storedToken.Some? && s.storedToken.value != ""
  }

  /** The state before the start-up check has run. */
  function Initial(stored: Option<string>): (s: Session)
    ensures s.storedToken == stored
    ensures Consistent(s) && s.loading && !s.isLoggedIn
  {
    Session(stored, false, None, true)
  }

  /** The start-up check. Without a non-empty stored token nothing is asked and the session stays
      as it is (an empty token stays in storage); a verified token logs the user in; a rejected one
      is removed. Loading ends in every branch. */
  function Startup(s: Session, answer: VerifyAnswer): (r: Session)
    ensures !r.loading
    ensures Consistent(s) && !s.isLoggedIn ==> Consistent(r)
    ensures !HasToken(s) ==> r == s.(loading := false)
    ensures HasToken(s) && answer.Verified? ==>
      r.isLoggedIn && r.user == Some(answer.user) && r.storedToken == s.storedToken
    ensures HasToken(s) && answer.VerifyFailed? ==>
      r.storedToken.None? && r.isLoggedIn == s.isLoggedIn && r.user == s.user
  {
    if !HasToken(s) then s.(loading := false)
    else
      match answer
      case Verified(u) => s.(isLoggedIn := true, user := Some(u), loading := false)
      case VerifyFailed => s.(storedToken := None, loading := false)
  }

  /** `login(userData, token)`. */
  function AfterLogin(s: Session, userData: User, token: string): (r: Session)
    ensures r.storedToken == Some(token) && r.isLoggedIn && r.user == Some(userData)
    ensures r.loading == s.loading && Consistent(r)
  {
    s.(storedToken := Some(token), isLoggedIn := true, user := Some(userData))
  }

  /** `logout()`. */
  function AfterLogout(s: Session): (r: Session)
    ensures r.storedToken.None? && !r.isLoggedIn && r.user.None?
    ensures r.loading == s.loading && Consistent(r)
  {
    s.(storedToken := None, isLoggedIn := false, user := None)
  }

  /** Children are rendered only once the start-up check is over. */
  predicate RendersChildren(s: Session)
  {
    !s.loading
  }

  /** Logging out twice is logging out once. */
  lemma LogoutIdempotent(s: Session)
    ensures AfterLogout(AfterLogout(s)) == AfterLogout(s)
  {
  }

  /** Logging out undoes a login completely. */
  lemma LogoutAfterLogin(s: Session, userData: User, token: string)
    ensures AfterLogout(AfterLogin(s, userData, token)) == AfterLogout(s)
  {
  }

  /** A fresh start without a stored token ends logged out, with children shown. */
  lemma StartupWithoutToken(answer: VerifyAnswer)
    ensures var r := Startup(Initial(None), answer);
      !r.isLoggedIn && r.user.None? && r.storedToken.None? && RendersChildren(r)
  {
  }

  /** A fresh start with an empty stored token asks nothing, keeps the empty token and ends logged out. */
  lemma StartupWithEmptyToken(answer: VerifyAnswer)
    ensures var r := Startup(Initial(Some("")), answer);
      !r.isLoggedIn && r.user.None? && r.storedToken == Some("") && RendersChildren(r)
  {
  }

  /** A fresh start with a token the server rejects drops the token and ends logged out. */
  lemma StartupWithRejectedToken(token: string)
    requires token != ""
    ensures var r := Startup(Initial(Some(token)), VerifyFailed);
      !r.isLoggedIn && r.user.None? && r.storedToken.None? && RendersChildren(r)
  {
  }

  /** The provider component; its fields are the state hooks and local storage. */
  class AuthProvider {
    var storedToken: Option<string>
    var isLoggedIn: bool
    var user: Option<User>
    var loading: bool

    function State(): Session
      reads this
    {
      Session(storedToken, isLoggedIn, user, loading)
    }

    constructor (stored: Option<string>)
      ensures State() == Initial(stored)
    {
      storedToken, isLoggedIn, user, loading := stored, false, None, true;
    }

    /** `checkLoggedIn`, run once on mount. */
    method CheckLoggedIn(answer: VerifyAnswer)
      modifies this
      ensures State() == Startup(old(State()), answer)
    {
      if storedToken.Some? && storedToken.value != "" {
        match answer
        case Verified(u) =>
          isLoggedIn := true;
          user := Some(u);
        case VerifyFailed =>
          storedToken := None;
      }
      loading := false;
    }

    method Login(userData: User, token: string)
      modifies this
      ensures State() == AfterLogin(old(State()), userData, token)
    {
      storedToken := Some(token);
      isLoggedIn := true;
      user := Some(userData);
    }

    method Logout()
      modifies this
      ensures State() == AfterLogout(old(State()))
    {
      storedToken := None;
      isLoggedIn := false;
      user := None;
    }
  }
}
