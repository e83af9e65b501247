/** The registration page: the e-mail pattern, the password-strength score and its
    colour and label, the password-confirmation rule, form validity, the debounced
    availability check and the submit guard. */
module RegisterPage {
  import opened Text
  import opened Domain

  /** `/^[a-zA-Z0-9._-]+@up.ac.th$/`. The dots of the domain are not escaped, so each
      matches any one character: the last nine characters are '@', 'u', 'p', any,
      'a', 'c', any, 't', 'h', and everything before them is a non-empty run of the class. */
  predicate IsValidEmail(email: string)
  {
    var n := |email|;
    && n >= 10
    && IsLocalPart(email[..n - 9])
    && email[n - 9..n - 6] == "@up"
    && MatchesDot(email[n - 6])
    && email[n - 5..n - 3] == "ac"
    && MatchesDot(email[n - 3])
    && email[n - 2..] == "th"
  }

  /** An address the pattern describes, built from its parts. */
  function Address(local: string, dot1: char, dot2: char): (s: string)
    ensures |s| == |local| + 9
  {
    local + "@up" + [dot1] + "ac" + [dot2] + "th"
  }

  /** Every address built from a valid local part and two dot matches is accepted. */
  lemma AddressIsValid(local: string, dot1: char, dot2: char)
    requires IsLocalPart(local)
    requires MatchesDot(dot1) && MatchesDot(dot2)
    ensures IsValidEmail(Address(local, dot1, dot2))
  {
    var s := Address(local, dot1, dot2);
    var n := |s|;
    assert s[..n - 9] == local;
    assert s[n - 9..n - 6] == "@up";
    assert s[n - 5..n - 3] == "ac";
    assert s[n - 2..] == "th";
  }

  /** Every accepted address is one built that way: the pattern describes exactly these strings. */
  lemma ValidEmailIsAddress(email: string)
    requires IsValidEmail(email)
    ensures var n := |email|;
      && IsLocalPart(email[..n - 9])
      && MatchesDot(email[n - 6]) && MatchesDot(email[n - 3])
      && email == Address(email[..n - 9], email[n - 6], email[n - 3])
  {
    var n := |email|;
    var s := Address(email[..n - 9], email[n - 6], email[n - 3]);
    assert |s| == n;
    forall i | 0 <= i < n ensures s[i] == email[i] {
      if i < n - 9 {
      } else if i < n - 6 {
        assert email[i] == email[n - 9..n - 6][i - (n - 9)];
      } else if i < n - 3 {
        if i != n - 6 {
          assert email[i] == email[n - 5..n - 3][i - (n - 5)];
        }
      } else if i > n - 3 {
        assert email[i] == email[n - 2..][i - (n - 2)];
      }
    }
  }

  /** The five criteria of `calculatePasswordStrength`. */
  datatype Criterion = MinLength | Lowercase | Uppercase | Digit | Symbol

  /** The criteria in the order the page tests them. */
  const Criteria: seq<Criterion> := [MinLength, Lowercase, Uppercase, Digit, Symbol]

  predicate HasCharIn(password: string, lo: char, hi: char)
  {
    exists i :: 0 <= i < |password| && lo <= password[i] <= hi
  }

  predicate HasSymbol(password: string)
  {
    exists i :: 0 <= i < |password| && password[i] in "$@#&!"
  }

  /** Whether `password` satisfies one criterion: length at least 6 (in UTF-16 units), or
      some character of `[a-z]`, `[A-Z]`, `[0-9]` or `[$@#&!]`. */
  predicate Meets(password: string, c: Criterion)
  {
    match c
    case MinLength => Utf16Length(password) >= 6
    case Lowercase => HasCharIn(password, 'a', 'z')
    case Uppercase => HasCharIn(password, 'A', 'Z')
    case Digit => HasCharIn(password, '0', '9')
    case Symbol => HasSymbol(password)
  }

  /** How many of the criteria `cs` the password meets. */
  function CountMet(password: string, cs: seq<Criterion>): nat
  {
    if cs == [] then 0
    else CountMet(password, cs[..|cs| - 1]) + (if Meets(password, cs[|cs| - 1]) then 1 else 0)
  }

  /** The count lies between 0 and the number of criteria; it reaches the top exactly when every
      criterion is met and is 0 exactly when none is. */
  lemma {:induction false} CountMetBounds(password: string, cs: seq<Criterion>)
    ensures CountMet(password, cs) <= |cs|
    ensures CountMet(password, cs) == |cs| <==> forall i :: 0 <= i < |cs| ==> Meets(password, cs[i])
    ensures CountMet(password, cs) == 0 <==> forall i :: 0 <= i < |cs| ==> !Meets(password, cs[i])
  {
    if cs != [] {
      var init := cs[..|cs| - 1];
      CountMetBounds(password, init);
      assert forall i :: 0 <= i < |init| ==> init[i] == cs[i];
    }
  }

  /** `calculatePasswordStrength`: one point per criterion met, accumulated step by step.
      The score is the number of criteria the password meets, so it lies in 0..5, is 5
      exactly when all are met and 0 exactly when none is. */
  method CalculatePasswordStrength(password: string) returns (strength: nat)
    ensures strength == CountMet(password, Criteria)
    ensures strength <= 5
    ensures strength == 5 <==> forall c :: Meets(password, c)
    ensures strength == 0 <==> forall c :: !Meets(password, c)
  {
    strength := 0;
    if Utf16Length(password) >= 6 { strength := strength + 1; }
    assert strength == CountMet(password, Criteria[..1]);
    if HasCharIn(password, 'a', 'z') { strength := strength + 1; }
    assert Criteria[..2][..1] == Criteria[..1];
    assert strength == CountMet(password, Criteria[..2]);
    if HasCharIn(password, 'A', 'Z') { strength := strength + 1; }
    assert Criteria[..3][..2] == Criteria[..2];
    assert strength == CountMet(password, Criteria[..3]);
    if HasCharIn(password, '0', '9') { strength := strength + 1; }
    assert Criteria[..4][..3] == Criteria[..3];
    assert strength == CountMet(password, Criteria[..4]);
    if HasSymbol(password) { strength := strength + 1; }
    assert Criteria[..5][..4] == Criteria[..4] && Criteria[..5] == Criteria;
    CountMetBounds(password, Criteria);
    forall c: Criterion ensures c in Criteria {
      match c
      case MinLength => assert Criteria[0] == c;
      case Lowercase => assert Criteria[1] == c;
      case Uppercase => assert Criteria[2] == c;
      case Digit => assert Criteria[3] == c;
      case Symbol => assert Criteria[4] == c;
    }
  }

  /** `getPasswordStrengthColor`. */
  function StrengthColor(strength: int): string
  {
    if strength < 2 then "bg-red-500"
    else if strength < 4 then "bg-yellow-500"
    else "bg-green-500"
  }

  /** The strength caption, written separately in the markup. */
  function StrengthLabel(strength: int): string
  {
    if strength < 2 then "ต่ำ" else if strength < 4 then "ปานกลาง" else "สูง"
  }

  /** The bar colour and the caption use the same thresholds: red with low,
      yellow with medium (2 and 3), green with high (4 and 5). */
  lemma ColorMatchesLabel(strength: int)
    ensures StrengthColor(strength) == "bg-red-500" <==> StrengthLabel(strength) == "ต่ำ"
    ensures StrengthColor(strength) == "bg-yellow-500" <==> StrengthLabel(strength) == "ปานกลาง"
    ensures StrengthColor(strength) == "bg-green-500" <==> StrengthLabel(strength) == "สูง"
    ensures StrengthColor(strength) == "bg-yellow-500" <==> 2 <= strength <= 3
  {
  }

  /** The `passwordsMatch` effect: the confirmation agrees, or has not been typed yet. */
  predicate PasswordsMatch(password: string, confirmPassword: string)
  {
    password == confirmPassword || confirmPassword == ""
  }

  /** `isFormValid`, over the page's state. */
  predicate FormValid(email: string, password: string, confirmPassword: string,
                      passwordsMatch: bool, isEmailAvailable: bool)
  {
    && IsValidEmail(email)
    && Utf16Length(password) >= 6
    && !IsBlank(password)
    && !IsBlank(confirmPassword)
    && passwordsMatch
    && isEmailAvailable
  }

  /** With the effect applied, a valid form has a confirmation equal to the password:
      the "not typed yet" leniency of `passwordsMatch` never lets a form through. */
  lemma ValidFormHasMatchingPasswords(email: string, password: string, confirmPassword: string, available: bool)
    requires FormValid(email, password, confirmPassword, PasswordsMatch(password, confirmPassword), available)
    ensures password == confirmPassword && confirmPassword != ""
  {
  }

  /** The answer of the availability endpoint, or a failed request. */
  datatype AvailabilityAnswer = Answered(available: bool) | CheckFailed

  /** The answer of the registration endpoint; `message` is the server's message, "" when it sent none. */
  datatype RegisterOutcome = Registered | Rejected(message: string)

  const DefaultRegisterError := "เกิดข้อผิดพลาดระหว่างการลงทะเบียน กรุณาลองอีกครั้ง"

  class RegisterForm {
    var email: string
    var password: string
    var confirmPassword: string
    var passwordsMatch: bool
    var isEmailAvailable: bool
    var isLoading: bool
    var error: string
    var passwordStrength: nat

    /** The password effect has run: the flag and the score follow the two password fields. */
    ghost predicate Valid()
      reads this
    {
      passwordsMatch == PasswordsMatch(password, confirmPassword)
      && passwordStrength == CountMet(password, Criteria)
    }

    constructor ()
      ensures Valid()
      ensures email == "" && password == "" && confirmPassword == ""
      ensures isEmailAvailable && !isLoading && error == "" && passwordStrength == 0
    {
      email, password, confirmPassword := "", "", "";
      passwordsMatch, isEmailAvailable, isLoading := true, true, false;
      error := "";
      passwordStrength := 0;
      CountMetBounds("", Criteria);
    }

    /** The effect on [password, confirmPassword]. */
    method PasswordEffect()
      modifies this
      ensures Valid()
      ensures email == old(email) && password == old(password) && confirmPassword == old(confirmPassword)
      ensures isEmailAvailable == old(isEmailAvailable) && isLoading == old(isLoading) && error == old(error)
    {
      passwordsMatch := password == confirmPassword || confirmPassword == "";
      passwordStrength := CalculatePasswordStrength(password);
    }

    method SetPassword(value: string)
      modifies this
      ensures Valid() && password == value
      ensures email == old(email) && confirmPassword == old(confirmPassword)
      ensures isEmailAvailable == old(isEmailAvailable) && isLoading == old(isLoading) && error == old(error)
    {
      password := value;
      PasswordEffect();
    }

    method SetConfirmPassword(value: string)
      modifies this
      ensures Valid() && confirmPassword == value
      ensures email == old(email) && password == old(password)
      ensures isEmailAvailable == old(isEmailAvailable) && isLoading == old(isLoading) && error == old(error)
    {
      confirmPassword := value;
      PasswordEffect();
    }

    method SetEmail(value: string)
      modifies this`email
      ensures email == value
    {
      email := value;
    }

    /** The debounced check on [email], up to the request. A blank or invalid address is never
        sent and counts as available; a valid one is sent and availability waits for the answer. */
    method CheckEmail() returns (request: Option<string>)
      modifies this`isEmailAvailable
      ensures request.Some? <==> !IsBlank(email) && IsValidEmail(email)
      ensures request.Some? ==> request.value == email && isEmailAvailable == old(isEmailAvailable)
      ensures request.None? ==> isEmailAvailable
    {
      if IsBlank(email) || !IsValidEmail(email) {
        isEmailAvailable := true;
        return None;
      }
      request := Some(email);
    }

    /** The availability answer arrives. The effect's cleanup only cancels the pending timer, not a
        request already sent, so the answer is taken whatever the address has become since: it does
        not look at [email]. A failed request counts as available. */
    method ReceiveAvailability(answer: AvailabilityAnswer)
      modifies this`isEmailAvailable
      ensures isEmailAvailable <==> answer.CheckFailed? || answer.available
    {
      match answer
      case Answered(available) => isEmailAvailable := available;
      case CheckFailed => isEmailAvailable := true;
    }

    predicate IsFormValid()
      reads this
    {
      FormValid(email, password, confirmPassword, passwordsMatch, isEmailAvailable)
    }

    /** The submit button's `disabled`. */
    predicate ButtonDisabled()
      reads this
    {
      !IsFormValid() || isLoading
    }

    /** `handleSubmit` up to the request: an invalid form sends nothing and changes nothing. */
    method BeginSubmit() returns (request: Option<(string, string)>)
      requires Valid()
      modifies this`isLoading, this`error
      ensures !old(IsFormValid()) ==> request == None && isLoading == old(isLoading) && error == old(error)
      ensures old(IsFormValid()) ==> request == Some((email, password)) && isLoading && error == ""
      ensures request.Some? ==> password == confirmPassword && IsValidEmail(email)
      ensures !old(ButtonDisabled()) ==> request.Some?
    {
      if !IsFormValid() {
        return None;
      }
      ValidFormHasMatchingPasswords(email, password, confirmPassword, isEmailAvailable);
      isLoading := true;
      error := "";
      request := Some((email, password));
    }

    /** `handleSubmit` after the answer: success moves on to the login page; a failure shows the
        server's message or the default one. Loading ends either way. */
    method FinishSubmit(outcome: RegisterOutcome) returns (toLogin: bool)
      modifies this`isLoading, this`error
      ensures !isLoading
      ensures toLogin <==> outcome.Registered?
      ensures outcome.Registered? ==> error == old(error)
      ensures outcome.Rejected? ==> error == if outcome.message != "" then outcome.message else DefaultRegisterError
    {
      toLogin := outcome.Registered?;
      if outcome.Rejected? {
        error := if outcome.message != "" then outcome.message else DefaultRegisterError;
      }
      isLoading := false;
    }
  }

  /** An address typed after a check was sent does not discard that check's answer: the answer
      "taken" for the first address marks the second one unavailable. */
  method StaleAnswerApplies(f: RegisterForm, first: string, second: string) returns (request: Option<string>)
    requires !IsBlank(first) && IsValidEmail(first)
    modifies f
    ensures request == Some(first)
    ensures f.email == second && !f.isEmailAvailable
  {
    f.SetEmail(first);
    request := f.CheckEmail();
    f.SetEmail(second);
    f.ReceiveAvailability(Answered(false));
  }
}
