/** The dashboard: the signed-in user's student id, taken from the e-mail, and the list of
    reports with a colour per status. */
module DashboardPage {
  import opened Text
  import opened Domain
  import AuthContext
  import LoginPage
  import AdminPage

  const FetchFailedMessage := "Failed to fetch reports. Please try again later."

  /** `getUsernameFromEmail`: `email.split('@')[0]`. */
  function UsernameFromEmail(email: string): (name: string)
    ensures |name| <= |email| && email[..|name|] == name && '@' !in name
    ensures |name| < |email| ==> email[|name|] == '@'
  {
    BeforeFirst(email, '@')
  }

  /** For every address the login page accepts, the name shown is the part before
      "@up.ac.th", which is the student id. */
  lemma {:induction false} UsernameOfUniversityAddress(email: string)
    requires LoginPage.IsValidEmail(email)
    ensures UsernameFromEmail(email) == email[..|email| - 9]
  {
    var local := email[..|email| - 9];
    assert email[|email| - 9..] == LoginPage.UniversitySuffix;
    assert email[|local|] == '@';
    assert '@' !in local by {
      forall i | 0 <= i < |local| ensures local[i] != '@' {
        assert IsLocalPartChar(local[i]);
      }
    }
    BeforeFirstUnique(email, '@', local);
  }

  /** The greeting line appears only for a user with a non-empty e-mail, and names its id. */
  function Greeting(user: Option<AuthContext.User>): (shown: Option<string>)
    ensures shown.Some? <==> user.Some? && user.value.email != ""
    ensures shown.Some? ==> shown.value == UsernameFromEmail(user.value.email)
  {
    if user.Some? && user.value.email != "" then Some(UsernameFromEmail(user.value.email)) else None
  }

  /** The status colour: yellow for pending, blue for in progress, green for anything else. */
  function StatusColor(status: string): (color: string)
    ensures color == "text-yellow-600" <==> status == Pending
    ensures color == "text-blue-600" <==> status == InProgress
    ensures color == "text-green-600" <==> status != Pending && status != InProgress
  {
    if status == Pending then "text-yellow-600"
    else if status == InProgress then "text-blue-600"
    else "text-green-600"
  }

  /** The three states the admin can choose get three different colours, completed in green. */
  lemma StatusOptionsHaveDistinctColors()
    ensures forall i, j :: 0 <= i < j < |AdminPage.StatusOptions| ==>
      StatusColor(AdminPage.StatusOptions[i]) != StatusColor(AdminPage.StatusOptions[j])
    ensures StatusColor(Completed) == "text-green-600"
  {
    assert Pending != InProgress && Pending != Completed && InProgress != Completed by {
      assert Pending[0] != InProgress[0];
      assert |Pending| != |Completed| && |InProgress| != |Completed|;
    }
  }

  class Dashboard {
    var reports: seq<Report>
    var error: string
    var loading: bool

    constructor ()
      ensures reports == [] && error == "" && loading
    {
      reports, error, loading := [], "", true;
    }

    /** The start of `fetchReports`. */
    method BeginFetch()
      modifies this`loading
      ensures loading
    {
      loading := true;
    }

    /** The end of `fetchReports`: a listing replaces the reports and clears the error, a failure
        sets it and keeps the old reports; loading ends either way. */
    method FinishFetch(answer: ListAnswer)
      modifies this
      ensures !loading
      ensures answer.Listed? ==> reports == answer.data && error == ""
      ensures answer.ListFailed? ==> reports == old(reports) && error == FetchFailedMessage
    {
      match answer {
        case Listed(data) =>
          reports := data;
          error := "";
        case ListFailed =>
          error := FetchFailedMessage;
      }
      loading := false;
    }
  }
}
