/** The login page: the strict e-mail pattern, form validity, the three-second
    cooldown after a failed attempt, the submit guard and the button. */
module LoginPage {
  import opened Text
  import opened Domain
  import RegisterPage
  import AuthContext

  const UniversitySuffix := "@up.ac.th"

  /** `/^[a-zA-Z0-9._-]+@up\.ac\.th$/`: a non-empty run of the class, then exactly "@up.ac.th". */
  predicate IsValidEmail(email: string)
  {
    |email| >= 10 && IsLocalPart(email[..|email| - 9]) && email[|email| - 9..] == UniversitySuffix
  }

  /** The pattern accepts `local + "@up.ac.th"` exactly when `local` is a non-empty run of the class. */
  lemma {:induction false} AddressValidIff(local: string)
    ensures IsValidEmail(local + UniversitySuffix) <==> IsLocalPart(local)
  {
    var s := local + UniversitySuffix;
    assert s[..|s| - 9] == local;
    assert s[|s| - 9..] == UniversitySuffix;
  }

  /** Every address the login page accepts is accepted at registration too. */
  lemma {:induction false} LoginEmailAcceptedAtRegistration(email: string)
    requires IsValidEmail(email)
    ensures RegisterPage.IsValidEmail(email)
  {
    var n := |email|;
    var suffix := email[n - 9..];
    assert email[n - 9..n - 6] == suffix[..3];
    assert email[n - 6] == suffix[3] == '.';
    assert email[n - 5..n - 3] == suffix[4..6];
    assert email[n - 3] == suffix[6] == '.';
    assert email[n - 2..] == suffix[7..];
  }

  /** The converse fails: the registration pattern's unescaped dots let through addresses
      the login page refuses, so such an account can register and never log in. */
  lemma RegistrationAcceptsMore()
    ensures RegisterPage.IsValidEmail("a@upXacYth") && !IsValidEmail("a@upXacYth")
  {
    RegisterPage.AddressIsValid("a", 'X', 'Y');
    assert RegisterPage.Address("a", 'X', 'Y') == "a@upXacYth";
    assert "a@upXacYth"[1..] != UniversitySuffix by {
      assert "a@upXacYth"[1..][3] == 'X';
    }
  }

  /** The `isFormValid` effect. */
  predicate FormValid(email: string, password: string, isPasswordValid: bool)
  {
    IsValidEmail(email) && !IsBlank(password) && isPasswordValid
  }

  /** The cooldown state: seconds left and whether the password field is marked valid. */
  datatype Gate = Gate(cooldownTime: nat, isPasswordValid: bool)

  /** The cooldown effect has run: the field is marked invalid only while a cooldown is on,
      and a cooldown never exceeds the three seconds a failure sets. */
  predicate GateOk(g: Gate)
  {
    (g.cooldownTime == 0 ==> g.isPasswordValid) && g.cooldownTime <= 3
  }

  /** A failed login. */
  function AfterFailure(g: Gate): (r: Gate)
    ensures r.cooldownTime == 3 && !r.isPasswordValid && GateOk(r)
  {
    Gate(3, false)
  }

  /** One second passes: a running timer takes one off the cooldown, and when the cooldown
      reaches 0 the effect marks the password valid again. Without a cooldown no timer runs. */
  function NextSecond(g: Gate): (r: Gate)
    ensures g.cooldownTime > 0 ==> r.cooldownTime == g.cooldownTime - 1
    ensures g.cooldownTime == 0 ==> r == g
    ensures r.cooldownTime == 0 ==> r.isPasswordValid || r == g
    ensures r.cooldownTime > 0 ==> r.isPasswordValid == g.isPasswordValid
    ensures GateOk(g) ==> GateOk(r)
  {
    if g.cooldownTime == 0 then g
    else
      var c := g.cooldownTime - 1;
      Gate(c, if c == 0 then true else g.isPasswordValid)
  }

  function AfterSeconds(g: Gate, n: nat): Gate
    decreases n
  {
    if n == 0 then g else AfterSeconds(NextSecond(g), n - 1)
  }

  /** After `n` seconds the cooldown is the old one less `n`, never below 0; until it is
      over the password mark is kept, and once it is over the password is marked valid again. */
  lemma {:induction false} TicksCountDown(g: Gate, n: nat)
    requires GateOk(g)
    ensures AfterSeconds(g, n).cooldownTime == if n <= g.cooldownTime then g.cooldownTime - n else 0
    ensures n >= g.cooldownTime ==> AfterSeconds(g, n).isPasswordValid
    ensures n < g.cooldownTime ==> AfterSeconds(g, n).isPasswordValid == g.isPasswordValid
    ensures GateOk(AfterSeconds(g, n))
    decreases n
  {
    if n > 0 {
      TicksCountDown(NextSecond(g), n - 1);
    }
  }

  /** After a failure the form stays locked for two ticks and reopens on the third. */
  lemma FailureLocksThreeSeconds(g: Gate)
    ensures AfterSeconds(AfterFailure(g), 2).cooldownTime > 0
    ensures !AfterSeconds(AfterFailure(g), 2).isPasswordValid
    ensures AfterSeconds(AfterFailure(g), 3) == Gate(0, true)
  {
    TicksCountDown(AfterFailure(g), 2);
    TicksCountDown(AfterFailure(g), 3);
  }

  /** The button's `disabled`. */
  predicate ButtonDisabled(isFormValid: bool, isLoading: bool, cooldownTime: nat)
  {
    !isFormValid || isLoading || cooldownTime > 0
  }

  /** With the cooldown effect in place, the password mark adds nothing to the lock:
      the button is disabled exactly when the address or password is unusable, a request
      is in flight, or a cooldown runs. */
  lemma DisabledIff(email: string, password: string, isLoading: bool, g: Gate)
    requires GateOk(g)
    ensures ButtonDisabled(FormValid(email, password, g.isPasswordValid), isLoading, g.cooldownTime)
            <==> !IsValidEmail(email) || IsBlank(password) || isLoading || g.cooldownTime > 0
  {
  }

  /** The button's caption: the loading text first, then the countdown, else the default. */
  function ButtonLabel(isLoading: bool, cooldownTime: nat): (caption: string)
    ensures isLoading ==> caption == "กำลังเข้าสู่ระบบ..."
    ensures !isLoading && cooldownTime > 0 ==> caption == "รอ " + NatToDecimal(cooldownTime) + " วินาที"
    ensures !isLoading && cooldownTime == 0 ==> caption == "เข้าสู่ระบบ"
  {
    if isLoading then "กำลังเข้าสู่ระบบ..."
    else if cooldownTime > 0 then "รอ " + NatToDecimal(cooldownTime) + " วินาที"
    else "เข้าสู่ระบบ"
  }

  /** The answer of the login endpoint. */
  datatype LoginOutcome = LoggedIn(user: AuthContext.User, token: string) | LoginFailed

  const LoginErrorMessage := "อีเมลหรือรหัสผ่านไม่ถูกต้อง"

  class LoginForm {
    var email: string
    var password: string
    var isLoading: bool
    var error: string
    var isFormValid: bool
    var isPasswordValid: bool
    var cooldownTime: nat

    function Cooldown(): Gate
      reads this
    {
      Gate(cooldownTime, isPasswordValid)
    }

    /** The effects have run: the validity flag follows its inputs and the cooldown state is sound. */
    ghost predicate Valid()
      reads this
    {
      isFormValid == FormValid(email, password, isPasswordValid) && GateOk(Cooldown())
    }

    constructor ()
      ensures Valid() && email == "" && password == "" && !isLoading && error == ""
      ensures Cooldown() == Gate(0, true) && !isFormValid
    {
      email, password, isLoading, error := "", "", false, "";
      isFormValid, isPasswordValid, cooldownTime := false, true, 0;
    }

    method SetEmail(value: string)
      requires Valid()
      modifies this
      ensures Valid() && email == value && password == old(password)
      ensures Cooldown() == old(Cooldown()) && isLoading == old(isLoading) && error == old(error)
    {
      email := value;
      isFormValid := IsValidEmail(email) && !IsBlank(password) && isPasswordValid;
    }

    method SetPassword(value: string)
      requires Valid()
      modifies this
      ensures Valid() && password == value && email == old(email)
      ensures Cooldown() == old(Cooldown()) && isLoading == old(isLoading) && error == old(error)
    {
      password := value;
      isFormValid := IsValidEmail(email) && !IsBlank(password) && isPasswordValid;
    }

    /** The cooldown timer fires. */
    method Tick()
      requires Valid()
      modifies this
      ensures Valid() && Cooldown() == NextSecond(old(Cooldown()))
      ensures email == old(email) && password == old(password)
      ensures isLoading == old(isLoading) && error == old(error)
    {
      if cooldownTime > 0 {
        cooldownTime := cooldownTime - 1;
        if cooldownTime == 0 {
          isPasswordValid := true;
        }
      }
      isFormValid := IsValidEmail(email) && !IsBlank(password) && isPasswordValid;
    }

    /** `handleSubmit` up to the request: nothing happens while the form is invalid or a
        cooldown runs. */
    method BeginSubmit() returns (request: Option<(string, string)>)
      requires Valid()
      modifies this`isLoading, this`error
      ensures !old(isFormValid) || old(cooldownTime) > 0 ==>
        request.None? && isLoading == old(isLoading) && error == old(error)
      ensures old(isFormValid) && old(cooldownTime) == 0 ==>
        request == Some((email, password)) && isLoading && error == ""
      ensures request.Some? ==> IsValidEmail(email) && !IsBlank(password)
    {
      if !isFormValid || cooldownTime > 0 {
        return None;
      }
      isLoading := true;
      error := "";
      request := Some((email, password));
    }

    /** `handleSubmit` after the answer: success logs the session in and goes home; a failure
        shows the error and starts the three-second cooldown. Loading ends either way. */
    method FinishSubmit(outcome: LoginOutcome, session: AuthContext.AuthProvider) returns (toHome: bool)
      requires Valid()
      modifies this, session
      ensures Valid() && !isLoading && email == old(email) && password == old(password)
      ensures toHome <==> outcome.LoggedIn?
      ensures outcome.LoggedIn? ==>
        && session.State() == AuthContext.AfterLogin(old(session.State()), outcome.user, outcome.token)
        && Cooldown() == old(Cooldown()) && error == old(error)
      ensures outcome.LoginFailed? ==>
        && session.State() == old(session.State())
        && Cooldown() == AfterFailure(old(Cooldown())) && error == LoginErrorMessage && !isFormValid
    {
      match outcome {
        case LoggedIn(user, token) =>
          session.Login(user, token);
          toHome := true;
        case LoginFailed =>
          error := LoginErrorMessage;
          isPasswordValid := false;
          cooldownTime := 3;
          toHome := false;
      }
      isLoading := false;
      isFormValid := IsValidEmail(email) && !IsBlank(password) && isPasswordValid;
    }
  }
}
