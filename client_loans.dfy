/**
 * Loans as the browser client sees them: the three-way status shown on loan
 * cards (frontend/js/app.js) and the active and overdue filters over the
 * current user's loans (frontend/js/api.js). Timestamps are milliseconds.
 */
module ClientLoans {
  import opened Common

  /**
   * A loan's due_date as JavaScript reads it: missing (undefined, empty or not
   * a date), null (which new Date reads as the epoch), or a date.
   */
  datatype DueDate = NoDueDate | NullDueDate | DueAt(time: int)

  /** A loan object received from the server; returnDate is None when return_date is falsy. */
  datatype ClientLoan = ClientLoan(id: int, returnDate: Option<int>, dueDate: DueDate)

  datatype LoanStatus = Returned | Overdue | Active

  /** The status a loan card shows: overdue takes precedence, then active, then returned. */
  function StatusOf(loan: ClientLoan, now: int): (s: LoanStatus)
    ensures s == Returned <==> loan.returnDate.Some?
    ensures s == Overdue <==> loan.returnDate.None? && loan.dueDate.DueAt? && loan.dueDate.time < now
    ensures s == Active <==> loan.returnDate.None? && !(loan.dueDate.DueAt? && loan.dueDate.time < now)
  {
    var isOverdue := loan.dueDate.DueAt? && loan.dueDate.time < now && loan.returnDate.None?;
    var isActive := loan.returnDate.None?;
    if isOverdue then Overdue else if isActive then Active else Returned
  }

  /** A returned loan shows Returned whatever its due date and whatever the time. */
  lemma ReturnedIsFinal(loan: ClientLoan, returnedAt: int, dueDate: DueDate, now: int)
    ensures StatusOf(loan.(returnDate := Some(returnedAt), dueDate := dueDate), now) == Returned
  {
  }

  /** An open loan moves from Active to Overdue once the clock passes its due date, and never back. */
  lemma OverdueIsMonotoneInTime(loan: ClientLoan, now: int, later: int)
    requires now <= later
    ensures StatusOf(loan, now) == Overdue ==> StatusOf(loan, later) == Overdue
  {
  }

  /** `!loan.return_date`: the loan is still out. */
  predicate IsOpen(loan: ClientLoan)
  {
    loan.returnDate.None?
  }

  /** The time new Date(due_date) stands for, or None when it is an invalid date. */
  function DueTime(d: DueDate): Option<int>
  {
    match d
    case NoDueDate => None
    case NullDueDate => Some(0)
    case DueAt(t) => Some(t)
  }

  /** `!loan.return_date && new Date(loan.due_date) < now`. */
  predicate IsPastDue(loan: ClientLoan, now: int)
  {
    IsOpen(loan) && DueTime(loan.dueDate).Some? && DueTime(loan.dueDate).value < now
  }

  /** getMyActiveLoans: exactly the open loans, in their original order. */
  function ActiveLoans(loans: seq<ClientLoan>): (r: seq<ClientLoan>)
    ensures forall l :: l in r <==> l in loans && IsOpen(l)
    ensures forall l :: multiset(r)[l] == if IsOpen(l) then multiset(loans)[l] else 0
    ensures SubsequenceOf(r, loans)
  {
    if loans == [] then []
    else
      var rest := ActiveLoans(loans[1..]);
      assert loans == [loans[0]] + loans[1..];
      if IsOpen(loans[0]) then [loans[0]] + rest else rest
  }

  /** getMyOverdueLoans: exactly the open loans whose due date is before now, in their original order. */
  function OverdueLoans(loans: seq<ClientLoan>, now: int): (r: seq<ClientLoan>)
    ensures forall l :: l in r <==> l in loans && IsPastDue(l, now)
    ensures forall l :: multiset(r)[l] == if IsPastDue(l, now) then multiset(loans)[l] else 0
    ensures SubsequenceOf(r, loans)
  {
    if loans == [] then []
    else
      var rest := OverdueLoans(loans[1..], now);
      assert loans == [loans[0]] + loans[1..];
      if IsPastDue(loans[0], now) then [loans[0]] + rest else rest
  }

  /** The overdue loans are a subsequence of the active ones. */
  lemma {:induction false} OverdueWithinActive(loans: seq<ClientLoan>, now: int)
    ensures SubsequenceOf(OverdueLoans(loans, now), ActiveLoans(loans))
  {
    if loans != [] {
      OverdueWithinActive(loans[1..], now);
    }
  }

  /** The active filter keeps exactly the loans whose card does not say Returned. */
  lemma ActiveMatchesStatus(loans: seq<ClientLoan>, loan: ClientLoan, now: int)
    ensures loan in ActiveLoans(loans) <==> loan in loans && StatusOf(loan, now) != Returned
  {
  }

  /**
   * The overdue filter and the card agree on every loan with a due date or
   * none; they part only on a null due date, which the filter reads as the
   * epoch and the card as no due date.
   */
  lemma OverdueMatchesStatus(loans: seq<ClientLoan>, loan: ClientLoan, now: int)
    requires loan in loans
    ensures !loan.dueDate.NullDueDate? ==> (loan in OverdueLoans(loans, now) <==> StatusOf(loan, now) == Overdue)
    ensures loan.dueDate.NullDueDate? && IsOpen(loan) && 0 < now ==>
      loan in OverdueLoans(loans, now) && StatusOf(loan, now) == Active
  {
  }
}
