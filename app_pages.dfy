/**
 * The page logic of the single-page client (frontend/js/app.js): which page
 * loadPage ends up showing, the checks the registration and profile forms run
 * before calling the API, the buttons a book card offers and the check on the
 * answer to the loan extension prompt. The DOM, the messages shown and the
 * API calls themselves are not part of this model.
 */
module AppPages {
  import opened Common
  import opened JsValues

  // -------------------------------------------------------------- loadPage

  /** The page loaders the switch of loadPage can run. */
  datatype Loader = LoginPage | RegisterPage | BooksPage | ProfilePage | UsersPage | LoansPage | MyLoansPage

  const AUTH_REQUIRED_PAGES: seq<string> := ["books", "profile", "users", "loans", "my-loans", "categories"]
  const ADMIN_REQUIRED_PAGES: seq<string> := ["users", "loans", "categories"]

  /** `user && user.is_admin`, as a truth value. */
  predicate IsAdmin(user: Json)
  {
    Truthy(user) && Present(Member(Some(user), "is_admin"))
  }

  /** The switch of loadPage: a page with no case of its own, "categories" included, shows the login page. */
  function Dispatch(page: string): (loader: Loader)
    ensures loader == LoginPage <==> page !in ["register", "books", "profile", "users", "loans", "my-loans"]
    ensures loader == UsersPage <==> page == "users"
    ensures loader == LoansPage <==> page == "loans"
  {
    match page
    case "register" => RegisterPage
    case "books" => BooksPage
    case "profile" => ProfilePage
    case "users" => UsersPage
    case "loans" => LoansPage
    case "my-loans" => MyLoansPage
    case _ => LoginPage
  }

  /**
   * loadPage: first send an unauthenticated visitor of a protected page to
   * login, then send a non-admin visitor of an admin page to books, then
   * dispatch on the page that is left.
   */
  method LoadPage(page: string, authenticated: bool, user: Json) returns (loader: Loader)
    ensures page in AUTH_REQUIRED_PAGES && !authenticated ==> loader == LoginPage
    ensures page in ADMIN_REQUIRED_PAGES && authenticated && !IsAdmin(user) ==> loader == BooksPage
    ensures (page !in AUTH_REQUIRED_PAGES || authenticated) && (page !in ADMIN_REQUIRED_PAGES || IsAdmin(user)) ==>
      loader == Dispatch(page)
    ensures !authenticated ==> loader == LoginPage || loader == RegisterPage
    ensures !IsAdmin(user) ==> loader != UsersPage && loader != LoansPage
  {
    var isAdmin := IsAdmin(user);
    var current := page;
    if current in AUTH_REQUIRED_PAGES && !authenticated {
      current := "login";
    }
    if current in ADMIN_REQUIRED_PAGES && !isAdmin {
      current := "books";
    }
    loader := Dispatch(current);
  }

  // ---------------------------------------------------------- registration

  const PASSWORDS_DIFFER: string := "Les mots de passe ne correspondent pas"
  const PASSWORD_TOO_SHORT: string := "Le mot de passe doit contenir au moins 8 caractères"
  const FULL_NAME_REQUIRED: string := "Le nom complet est requis"
  const MIN_PASSWORD_LENGTH: nat := 8

  /** The body Api.register receives. */
  datatype Registration = Registration(fullName: string, email: string, password: string)

  /**
   * The register form's submit handler: the message of the first check that
   * fails, in the order password match, password length, non-blank name, or
   * the payload sent to Api.register when all three pass.
   */
  function ValidateRegistration(fullName: string, email: string, password: string, confirmPassword: string): (r: Result<Registration, string>)
    ensures r.Ok? <==>
      password == confirmPassword && Utf16Length(password) >= MIN_PASSWORD_LENGTH && Trim(fullName) != ""
    ensures password != confirmPassword ==> r == Err(PASSWORDS_DIFFER)
    ensures password == confirmPassword && Utf16Length(password) < MIN_PASSWORD_LENGTH ==> r == Err(PASSWORD_TOO_SHORT)
    ensures password == confirmPassword && Utf16Length(password) >= MIN_PASSWORD_LENGTH && Trim(fullName) == "" ==>
      r == Err(FULL_NAME_REQUIRED)
    ensures r.Ok? ==> r.value == Registration(fullName, email, password)
  {
    if password != confirmPassword then Err(PASSWORDS_DIFFER)
    else if Utf16Length(password) < MIN_PASSWORD_LENGTH then Err(PASSWORD_TOO_SHORT)
    else if Utf16Length(Trim(fullName)) < 1 then Err(FULL_NAME_REQUIRED)
    else Ok(Registration(fullName, email, password))
  }

  /** A name made only of whitespace is refused even with a good password. */
  lemma BlankNameRefused(email: string, password: string)
    requires Utf16Length(password) >= MIN_PASSWORD_LENGTH
    ensures ValidateRegistration(" \t", email, password, password) == Err(FULL_NAME_REQUIRED)
  {
    assert IsJsWhitespace(" \t"[0]) && IsJsWhitespace(" \t"[1]);
  }

  // --------------------------------------------------------------- profile

  /** The body Api.updateCurrentUser receives; a field that is None is null, or absent for the password. */
  datatype ProfileUpdate = ProfileUpdate(fullName: string, phone: Option<string>, address: Option<string>, password: Option<string>)

  /** `value || null` for a form field. */
  function OrNull(field: string): (r: Option<string>)
    ensures r.None? <==> field == ""
    ensures r.Some? ==> r.value == field
  {
    if field == "" then None else Some(field)
  }

  /**
   * The edit-profile form's submit handler: when either password field is
   * filled, the new password must be long enough and then match its
   * confirmation; the payload carries the password only when one was typed.
   */
  function ValidateProfileEdit(fullName: string, phone: string, address: string, newPassword: string, confirmPassword: string): (r: Result<ProfileUpdate, string>)
    ensures newPassword == "" && confirmPassword == "" ==> r.Ok?
    ensures r.Err? <==> ((newPassword != "" || confirmPassword != "") &&
      (Utf16Length(newPassword) < MIN_PASSWORD_LENGTH || newPassword != confirmPassword))
    ensures (newPassword != "" || confirmPassword != "") && Utf16Length(newPassword) < MIN_PASSWORD_LENGTH ==>
      r == Err(PASSWORD_TOO_SHORT)
    ensures r.Err? && Utf16Length(newPassword) >= MIN_PASSWORD_LENGTH ==> r.error == PASSWORDS_DIFFER
    ensures r.Ok? ==> r.value.fullName == fullName && r.value.phone == OrNull(phone) && r.value.address == OrNull(address)
    ensures r.Ok? ==> (r.value.password.Some? <==> newPassword != "")
    ensures r.Ok? && r.value.password.Some? ==>
      r.value.password.value == newPassword == confirmPassword && Utf16Length(newPassword) >= MIN_PASSWORD_LENGTH
  {
    if (newPassword != "" || confirmPassword != "") && Utf16Length(newPassword) < MIN_PASSWORD_LENGTH then
      Err(PASSWORD_TOO_SHORT)
    else if (newPassword != "" || confirmPassword != "") && newPassword != confirmPassword then
      Err(PASSWORDS_DIFFER)
    else
      Ok(ProfileUpdate(fullName, OrNull(phone), OrNull(address), OrNull(newPassword)))
  }

  /** A confirmation typed without a new password is reported as a short password, not as a mismatch. */
  lemma ConfirmationAloneIsTooShort(fullName: string, phone: string, address: string, confirmPassword: string)
    requires confirmPassword != ""
    ensures ValidateProfileEdit(fullName, phone, address, "", confirmPassword) == Err(PASSWORD_TOO_SHORT)
  {
  }

  // ------------------------------------------------------------- book card

  /** The buttons in a book card's footer besides "Voir détails". */
  datatype CardActions = EditAndDelete | Borrow | Unavailable

  /** createBookCard: admins edit and delete; others may borrow exactly when a copy is left. */
  function BookCardActions(isAdmin: bool, quantity: int): (actions: CardActions)
    ensures actions == EditAndDelete <==> isAdmin
    ensures actions == Borrow <==> !isAdmin && quantity > 0
  {
    if isAdmin then EditAndDelete
    else if quantity > 0 then Borrow
    else Unavailable
  }

  // ------------------------------------------------------- extension prompt

  /** What extendLoan does with the prompt's answer: nothing, or Api.extendLoan with parseInt of it (None is NaN). */
  datatype ExtendDecision = Abort | Extend(days: Option<int>)

  /**
   * extendLoan as written: abort on a cancelled or empty answer, on an answer
   * Number() cannot read, or on one whose parseInt is at most 0. An answer of
   * blanks passes all three tests, because Number("  ") is 0 and NaN <= 0 is false.
   */
  function ExtendPromptAsWritten(answer: Option<string>): (d: ExtendDecision)
    ensures answer.None? || answer == Some("") ==> d == Abort
    ensures d.Extend? <==> (answer.Some? && answer.value != "" && IsNumericText(answer.value)
      && !(ParseInt(answer.value).Some? && ParseInt(answer.value).value <= 0))
    ensures d.Extend? ==> answer.Some? && IsNumericText(answer.value) && d.days == ParseInt(answer.value)
    ensures d.Extend? && d.days.Some? ==> d.days.value > 0
  {
    if answer.None? || answer.value == "" || !IsNumericText(answer.value) then Abort
    else
      var days := ParseInt(answer.value);
      if days.Some? && days.value <= 0 then Abort else Extend(days)
  }

  /** An answer of two spaces goes through and asks for an extension of NaN days. */
  lemma BlankAnswerExtendsByNaN()
    ensures ExtendPromptAsWritten(Some("  ")) == Extend(None)
  {
    var answer := "  ";
    assert IsJsWhitespace(answer[0]) && IsJsWhitespace(answer[1]);
    assert Trim(answer) == [];
    assert TrimStart(answer) == [];
  }

  /** Every non-empty numeric answer that parseInt cannot read ("  ", "Infinity", ".5") reaches the API with NaN days. */
  lemma NumericNaNAnswerExtendsByNaN(answer: string)
    requires answer != "" && IsNumericText(answer) && ParseInt(answer).None?
    ensures ExtendPromptAsWritten(Some(answer)) == Extend(None)
  {
  }

  /** The check as intended: the prompt goes on only with numeric text whose parseInt is positive. */
  function ExtendPrompt(answer: Option<string>): (d: ExtendDecision)
    ensures d.Extend? <==> (answer.Some? && answer.value != "" && IsNumericText(answer.value)
      && ParseInt(answer.value).Some? && ParseInt(answer.value).value > 0)
    ensures d.Extend? ==> d.days == ParseInt(answer.value)
  {
    if answer.None? || answer.value == "" || !IsNumericText(answer.value) then Abort
    else
      match ParseInt(answer.value)
      case None => Abort
      case Some(n) => if n <= 0 then Abort else Extend(Some(n))
  }

  /** Both checks agree on every answer except those whose parseInt is NaN. */
  lemma ExtendPromptDiffersOnlyOnNaN(answer: Option<string>)
    requires answer.Some? ==> ParseInt(answer.value).Some?
    ensures ExtendPrompt(answer) == ExtendPromptAsWritten(answer)
  {
  }
}
