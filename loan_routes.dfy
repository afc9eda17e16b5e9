/**
 * The loan routes of the server (src/api/routes/loans.py): the one-shot
 * extension, the owner-or-admin checks on reads, and the defaults and error
 * mapping around the loan service, whose own rules are not part of this model
 * (it is passed in as a function).
 */
module LoanRoutes {
  import opened Common
  import opened Models

  const DEFAULT_LOAN_PERIOD_DAYS: int := 14
  const EXTENSION_DAYS: int := 21
  const EXTENSION_MILLIS: int := EXTENSION_DAYS * MILLIS_PER_DAY

  const LOAN_NOT_FOUND: string := "Emprunt non trouvé"
  const LOAN_MISSING: string := "Emprunt introuvable"
  const ALREADY_EXTENDED: string := "L'emprunt a déjà été prolongé"
  const ACCESS_DENIED: string := "Accès non autorisé"
  const BORROWED: string := "Livre emprunté avec succès"

  // ------------------------------------------------------------- extension

  /** The loan after its one permitted extension. */
  function Extended(loan: Loan): (r: Loan)
    ensures r.dueDate == loan.dueDate + EXTENSION_MILLIS && r.extended
    ensures r.(dueDate := loan.dueDate, extended := loan.extended) == loan
  {
    loan.(dueDate := loan.dueDate + EXTENSION_MILLIS, extended := true)
  }

  /** What one extension request answers, and the loans table afterwards. */
  datatype ExtendOutcome = ExtendOutcome(response: Result<Loan, HttpError>, loans: map<int, Loan>)

  /** The extension route as a function of the loans table. */
  function ExtendStep(loans: map<int, Loan>, loanId: int): (o: ExtendOutcome)
    ensures loanId !in loans ==> o.response == Err(HttpError(NOT_FOUND, LOAN_MISSING))
    ensures loanId in loans && loans[loanId].extended ==> o.response == Err(HttpError(BAD_REQUEST, ALREADY_EXTENDED))
    ensures o.response.Err? ==> o.loans == loans
    ensures o.response.Ok? <==> loanId in loans && !loans[loanId].extended
    ensures o.response.Ok? ==>
      && o.response.value == Extended(loans[loanId])
      && o.loans.Keys == loans.Keys
      && o.loans[loanId] == o.response.value
      && forall id :: id in loans && id != loanId ==> o.loans[id] == loans[id]
  {
    if loanId !in loans then ExtendOutcome(Err(HttpError(NOT_FOUND, LOAN_MISSING)), loans)
    else if loans[loanId].extended then ExtendOutcome(Err(HttpError(BAD_REQUEST, ALREADY_EXTENDED)), loans)
    else
      var loan := Extended(loans[loanId]);
      ExtendOutcome(Ok(loan), loans[loanId := loan])
  }

  /** The loans table after a series of extension requests, one per id, in order. */
  function ExtendAll(loans: map<int, Loan>, requests: seq<int>): map<int, Loan>
  {
    if requests == [] then loans else ExtendAll(ExtendStep(loans, requests[0]).loans, requests[1..])
  }

  /** A second extension of the same loan always fails and changes nothing. */
  lemma ExtendAtMostOnce(loans: map<int, Loan>, loanId: int)
    requires ExtendStep(loans, loanId).response.Ok?
    ensures var after := ExtendStep(loans, loanId).loans;
      ExtendStep(after, loanId) == ExtendOutcome(Err(HttpError(BAD_REQUEST, ALREADY_EXTENDED)), after)
  {
  }

  /** Extension consults only existence and the extended flag: the return date plays no part. */
  lemma ExtendIgnoresReturnDate(loans: map<int, Loan>, loanId: int, returnDate: Option<int>)
    requires loanId in loans
    ensures var changed := loans[loanId := loans[loanId].(returnDate := returnDate)];
      && (ExtendStep(changed, loanId).response.Ok? <==> ExtendStep(loans, loanId).response.Ok?)
      && (ExtendStep(changed, loanId).response.Ok? ==>
            ExtendStep(changed, loanId).response.value.dueDate == ExtendStep(loans, loanId).response.value.dueDate)
  {
  }

  /** However many extension requests arrive, each loan gains 21 days at most once. */
  lemma {:induction false} ExtendAllAddsAtMostOnce(loans: map<int, Loan>, requests: seq<int>, id: int)
    requires id in loans
    ensures id in ExtendAll(loans, requests)
    ensures var final := ExtendAll(loans, requests)[id];
      && final.dueDate == loans[id].dueDate + (if !loans[id].extended && id in requests then EXTENSION_MILLIS else 0)
      && final.extended == (loans[id].extended || id in requests)
      && final.(dueDate := loans[id].dueDate, extended := loans[id].extended) == loans[id]
  {
    if requests != [] {
      var next := ExtendStep(loans, requests[0]).loans;
      ExtendAllAddsAtMostOnce(next, requests[1..], id);
      assert id in requests <==> id == requests[0] || id in requests[1..];
    }
  }

  /** The loans table as the extension route mutates it in place. */
  class LoanTable {
    var loans: map<int, Loan>

    constructor (initial: map<int, Loan>)
      ensures loans == initial
    {
      loans := initial;
    }

    /** POST /loans/{loan_id}/extend: look the loan up, refuse a second extension, else push the due date by 21 days. */
    method ExtendLoan(loanId: int) returns (r: Result<Loan, HttpError>)
      modifies this
      ensures ExtendOutcome(r, loans) == ExtendStep(old(loans), loanId)
    {
      if loanId !in loans {
        return Err(HttpError(NOT_FOUND, LOAN_MISSING));
      }
      var loan := loans[loanId];
      if loan.extended {
        return Err(HttpError(BAD_REQUEST, ALREADY_EXTENDED));
      }
      loan := loan.(dueDate := loan.dueDate + EXTENSION_MILLIS);
      loan := loan.(extended := true);
      loans := loans[loanId := loan];
      r := Ok(loan);
    }
  }

  // ----------------------------------------------------------------- reads

  /** GET /loans/{id}: a missing loan is 404 for everyone; otherwise only an admin or the borrower may read it. */
  function ReadLoan(loans: map<int, Loan>, id: int, caller: User): (r: Result<Loan, HttpError>)
    ensures id !in loans ==> r == Err(HttpError(NOT_FOUND, LOAN_NOT_FOUND))
    ensures id in loans && !caller.isAdmin && caller.id != loans[id].userId ==> r == Err(HttpError(FORBIDDEN, ACCESS_DENIED))
    ensures r.Ok? <==> id in loans && (caller.isAdmin || caller.id == loans[id].userId)
    ensures r.Ok? ==> r.value == loans[id]
  {
    if id !in loans then Err(HttpError(NOT_FOUND, LOAN_NOT_FOUND))
    else if !caller.isAdmin && caller.id != loans[id].userId then Err(HttpError(FORBIDDEN, ACCESS_DENIED))
    else Ok(loans[id])
  }

  /** The lookup a route asks of the loan service. */
  datatype LoanQuery = LoansOfUser(userId: int)

  /** GET /loans/user/{user_id}: a non-admin may list only their own loans; the check comes before any lookup. */
  function ReadUserLoans(caller: User, userId: int): (r: Result<LoanQuery, HttpError>)
    ensures r.Err? <==> !caller.isAdmin && caller.id != userId
    ensures r.Err? ==> r.error == HttpError(FORBIDDEN, ACCESS_DENIED)
    ensures r.Ok? ==> r.value == LoansOfUser(userId)
  {
    if !caller.isAdmin && caller.id != userId then Err(HttpError(FORBIDDEN, ACCESS_DENIED))
    else Ok(LoansOfUser(userId))
  }

  // ------------------------------------------------- creating and returning

  /** The arguments the routes pass to the loan service's create_loan. */
  datatype LoanRequest = LoanRequest(userId: int, bookId: int, loanPeriodDays: int)

  /** What a loan service call does: return its value, or raise ValueError with a message. */
  datatype ServiceOutcome<T> = Completed(value: T) | ValueError(message: string)

  /** A ValueError from the service becomes a 400 carrying its message; anything else passes through. */
  function ServiceResponse<T>(outcome: ServiceOutcome<T>): (r: Result<T, HttpError>)
    ensures r.Ok? <==> outcome.Completed?
    ensures outcome.Completed? ==> r.value == outcome.value
    ensures outcome.ValueError? ==> r.error == HttpError(BAD_REQUEST, outcome.message)
  {
    match outcome
    case Completed(v) => Ok(v)
    case ValueError(message) => Err(HttpError(BAD_REQUEST, message))
  }

  /** POST /loans/: create a loan for the given user and book, 14 days when no period is given. */
  function CreateLoan(createLoan: LoanRequest -> ServiceOutcome<Loan>, userId: int, bookId: int, loanPeriodDays: Option<int>)
    : (r: Result<Loan, HttpError>)
    ensures var asked := LoanRequest(userId, bookId, if loanPeriodDays.Some? then loanPeriodDays.value else DEFAULT_LOAN_PERIOD_DAYS);
      match createLoan(asked)
      case Completed(loan) => r == Ok(loan)
      case ValueError(message) => r == Err(HttpError(BAD_REQUEST, message))
  {
    var period := match loanPeriodDays case Some(days) => days case None => DEFAULT_LOAN_PERIOD_DAYS;
    ServiceResponse(createLoan(LoanRequest(userId, bookId, period)))
  }

  /** POST /loans/{id}/return: the service's answer, with a ValueError turned into 400. */
  function ReturnLoan(returnLoan: int -> ServiceOutcome<Loan>, loanId: int): (r: Result<Loan, HttpError>)
    ensures match returnLoan(loanId)
      case Completed(loan) => r == Ok(loan)
      case ValueError(message) => r == Err(HttpError(BAD_REQUEST, message))
  {
    ServiceResponse(returnLoan(loanId))
  }

  /** POST /loans/{book_id}/borrow: the caller borrows for themself, always for 14 days. */
  function BorrowBook(createLoan: LoanRequest -> ServiceOutcome<Loan>, caller: User, bookId: int): (r: Result<string, HttpError>)
    ensures var asked := LoanRequest(caller.id, bookId, DEFAULT_LOAN_PERIOD_DAYS);
      match createLoan(asked)
      case Completed(_) => r == Ok(BORROWED)
      case ValueError(message) => r == Err(HttpError(BAD_REQUEST, message))
  {
    match ServiceResponse(createLoan(LoanRequest(caller.id, bookId, DEFAULT_LOAN_PERIOD_DAYS)))
    case Ok(_) => Ok(BORROWED)
    case Err(e) => Err(e)
  }

  /** Borrowing succeeds exactly when an admin creating the same loan with the default period would. */
  lemma BorrowIsDefaultCreateForCaller(createLoan: LoanRequest -> ServiceOutcome<Loan>, caller: User, bookId: int)
    ensures BorrowBook(createLoan, caller, bookId).Ok? <==> CreateLoan(createLoan, caller.id, bookId, None).Ok?
    ensures BorrowBook(createLoan, caller, bookId).Err? ==>
      BorrowBook(createLoan, caller, bookId).error == CreateLoan(createLoan, caller.id, bookId, None).error
  {
  }
}
