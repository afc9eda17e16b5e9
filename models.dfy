/** The database rows the server routes read and write, as far as the routes use them. */
module Models {
  import opened Common

  /** A row of the loans table; dates are timestamps in milliseconds. */
  datatype Loan = Loan(
    id: int,
    userId: int,
    bookId: int,
    loanDate: int,
    dueDate: int,
    returnDate: Option<int>,
    extended: bool)

  /** A row of the users table: the authenticated caller of a route, or a listed user. */
  datatype User = User(id: int, email: string, isAdmin: bool)
}
