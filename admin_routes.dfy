/**
 * The admin listing of the server (src/api/routes/admin.py): every user with
 * the loans they hold, reduced to a few fields, for administrators only.
 */
module AdminRoutes {
  import opened Common
  import opened Models

  const ADMINS_ONLY: string := "Accès réservé aux administrateurs"

  /** What the listing shows of a user. */
  datatype UserSummary = UserSummary(id: int, email: string)

  /** What the listing shows of a loan. */
  datatype LoanSummary = LoanSummary(bookId: int, dueDate: int, returnDate: Option<int>)

  /** One entry of the listing. */
  datatype UserLoans = UserLoans(user: UserSummary, loans: seq<LoanSummary>)

  /** The loans whose user_id is the given id, in table order. */
  function LoansOfUser(loans: seq<Loan>, userId: int): (r: seq<Loan>)
    ensures forall loan :: loan in r <==> loan in loans && loan.userId == userId
    ensures forall loan :: multiset(r)[loan] == if loan.userId == userId then multiset(loans)[loan] else 0
    ensures SubsequenceOf(r, loans)
  {
    if loans == [] then []
    else
      var rest := LoansOfUser(loans[1..], userId);
      assert loans == [loans[0]] + loans[1..];
      if loans[0].userId == userId then [loans[0]] + rest else rest
  }

  function SummaryOfUser(user: User): (s: UserSummary)
    ensures s.id == user.id && s.email == user.email
  {
    UserSummary(user.id, user.email)
  }

  function SummaryOfLoan(loan: Loan): (s: LoanSummary)
    ensures s.bookId == loan.bookId && s.dueDate == loan.dueDate && s.returnDate == loan.returnDate
  {
    LoanSummary(loan.bookId, loan.dueDate, loan.returnDate)
  }

  /** The list comprehension that turns a user's loans into their summaries. */
  function Summaries(loans: seq<Loan>): (r: seq<LoanSummary>)
    ensures |r| == |loans|
    ensures forall i :: 0 <= i < |loans| ==> r[i] == SummaryOfLoan(loans[i])
  {
    seq(|loans|, i requires 0 <= i < |loans| => SummaryOfLoan(loans[i]))
  }

  /** The entry of one user: the user's summary and the summaries of the loans the user holds. */
  function Entry(user: User, loans: seq<Loan>): UserLoans
  {
    UserLoans(SummaryOfUser(user), Summaries(LoansOfUser(loans, user.id)))
  }

  /** GET /api/admin/users_loans: 403 for a non-admin; otherwise one entry per user, in user order. */
  method ListUsersLoans(caller: User, users: seq<User>, loans: seq<Loan>) returns (r: Result<seq<UserLoans>, HttpError>)
    ensures r.Err? <==> !caller.isAdmin
    ensures r.Err? ==> r.error == HttpError(FORBIDDEN, ADMINS_ONLY)
    ensures r.Ok? ==> |r.value| == |users|
    ensures r.Ok? ==> forall i :: 0 <= i < |users| ==>
      && r.value[i].user == SummaryOfUser(users[i])
      && r.value[i].loans == Summaries(LoansOfUser(loans, users[i].id))
  {
    if !caller.isAdmin {
      return Err(HttpError(FORBIDDEN, ADMINS_ONLY));
    }
    var results: seq<UserLoans> := [];
    var i := 0;
    while i < |users|
      invariant 0 <= i <= |users|
      invariant |results| == i
      invariant forall j :: 0 <= j < i ==> results[j] == Entry(users[j], loans)
    {
      var entry := Entry(users[i], loans);
      results := results + [entry];
      i := i + 1;
    }
    r := Ok(results);
  }

  /** An entry's loans are exactly the summaries of the loans held by that entry's user. */
  lemma EntryLoansBelongToUser(users: seq<User>, loans: seq<Loan>, results: seq<UserLoans>, i: int, loan: Loan)
    requires |results| == |users|
    requires forall j :: 0 <= j < |users| ==> results[j].loans == Summaries(LoansOfUser(loans, users[j].id))
    requires 0 <= i < |users|
    requires loan in loans && loan.userId == users[i].id
    ensures SummaryOfLoan(loan) in results[i].loans
  {
    var owned := LoansOfUser(loans, users[i].id);
    assert loan in owned;
    var k :| 0 <= k < |owned| && owned[k] == loan;
    assert results[i].loans[k] == SummaryOfLoan(loan);
  }
}
