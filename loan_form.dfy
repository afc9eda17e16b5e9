/**
 * The admin's "new loan" form (setupLoanFormHandlers and updateSubmitButton in
 * frontend/js/app.js): the user and the book selected by the two lookups, the
 * state of the submit button, and what a submission hands to Api.createLoan.
 * The lookups (Api.getUserByEmail, Api.searchBookByISBN) are parameters: a
 * function from the trimmed input to the record found, None when the call
 * throws. The DOM updates and messages are not part of this model.
 */
module LoanForm {
  import opened Common
  import opened JsValues
  import ApiClient

  /** `+v` for the values a record field can hold; None is NaN. Strings, arrays and objects read as NaN here. */
  function NumberValue(v: Option<Json>): (r: Option<int>)
    ensures v.Some? && v.value.JNum? ==> r == Some(v.value.n)
    ensures v.None? ==> r.None?
  {
    match v
    case None => None
    case Some(JNull) => Some(0)
    case Some(JBool(b)) => Some(if b then 1 else 0)
    case Some(JNum(n)) => Some(n)
    case Some(_) => None
  }

  /** `book.quantity > 0`; false whenever the quantity is NaN. */
  predicate InStock(book: Json)
  {
    var q := NumberValue(Member(Some(book), "quantity"));
    q.Some? && q.value > 0
  }

  /** `book.quantity <= 0`; also false whenever the quantity is NaN. */
  predicate OutOfStock(book: Json)
  {
    var q := NumberValue(Member(Some(book), "quantity"));
    q.Some? && q.value <= 0
  }

  /** `user && book && book.quantity > 0`: when the submit button is enabled. */
  predicate CanSubmit(user: Option<Json>, book: Option<Json>)
  {
    Present(user) && Present(book) && InStock(book.value)
  }

  /** The period argument parseInt(loan-period) gives createLoan. */
  function PeriodFrom(text: string): (p: ApiClient.PeriodArg)
    ensures !p.Undefined?
    ensures p.NotANumber? <==> ParseInt(text).None?
    ensures p.Days? ==> p.n == ParseInt(text).value
  {
    match ParseInt(text)
    case None => ApiClient.NotANumber
    case Some(n) => ApiClient.Days(n)
  }

  /** The arguments of the Api.createLoan call a submission makes: selectedUser.id, selectedBook.id and the period. */
  datatype LoanCall = LoanCall(userId: Option<Json>, bookId: Option<Json>, period: ApiClient.PeriodArg)

  /** What a lookup leaves selected: the record found, or null when the call threw or the record was null. */
  function Found(result: Option<Json>): (selected: Option<Json>)
    ensures selected.Some? <==> result.Some? && result.value != JNull
    ensures selected.Some? ==> selected == result
  {
    if result.Some? && result.value != JNull then result else None
  }

  class LoanFormState {
    var selectedUser: Option<Json>
    var selectedBook: Option<Json>
    var submitEnabled: bool

    /** The button always shows whether the current selections allow a submission. */
    ghost predicate Valid()
      reads this
    {
      submitEnabled == CanSubmit(selectedUser, selectedBook)
    }

    /** The form as the loans page first builds it: nothing selected, submission disabled. */
    constructor ()
      ensures Valid()
      ensures selectedUser.None? && selectedBook.None? && !submitEnabled
    {
      selectedUser := None;
      selectedBook := None;
      submitEnabled := false;
    }

    /** updateSubmitButton. */
    method UpdateSubmitButton()
      modifies this
      ensures Valid()
      ensures selectedUser == old(selectedUser) && selectedBook == old(selectedBook)
    {
      submitEnabled := CanSubmit(selectedUser, selectedBook);
    }

    /**
     * The "search user" button: a blank email changes nothing; otherwise the
     * user found for the trimmed email is selected, or the selection is reset
     * to null when the lookup fails; the button follows either way.
     */
    method SearchUser(emailInput: string, lookup: string -> Option<Json>)
      requires Valid()
      modifies this
      ensures Valid()
      ensures selectedBook == old(selectedBook)
      ensures Trim(emailInput) == "" ==> selectedUser == old(selectedUser) && submitEnabled == old(submitEnabled)
      ensures Trim(emailInput) != "" ==> selectedUser == Found(lookup(Trim(emailInput)))
    {
      var email := Trim(emailInput);
      if email == "" {
        return;
      }
      selectedUser := Found(lookup(email));
      UpdateSubmitButton();
    }

    /**
     * The "search book" button: a blank ISBN changes nothing; otherwise the
     * book found for the trimmed ISBN is selected (even with no copy left),
     * or the selection is reset to null when the lookup fails.
     */
    method SearchBook(isbnInput: string, lookup: string -> Option<Json>)
      requires Valid()
      modifies this
      ensures Valid()
      ensures selectedUser == old(selectedUser)
      ensures Trim(isbnInput) == "" ==> selectedBook == old(selectedBook) && submitEnabled == old(submitEnabled)
      ensures Trim(isbnInput) != "" ==> selectedBook == Found(lookup(Trim(isbnInput)))
    {
      var isbn := Trim(isbnInput);
      if isbn == "" {
        return;
      }
      selectedBook := Found(lookup(isbn));
      UpdateSubmitButton();
    }

    /**
     * The form's submit handler: no call without both selections or with a
     * book whose quantity is at most 0; otherwise Api.createLoan with the two
     * ids and parseInt of the period field.
     */
    method Submit(periodInput: string) returns (call: Option<LoanCall>)
      ensures call.None? <==> !Present(selectedUser) || !Present(selectedBook) || OutOfStock(selectedBook.value)
      ensures call.Some? ==> call.value == LoanCall(
        Member(selectedUser, "id"), Member(selectedBook, "id"), PeriodFrom(periodInput))
    {
      if !Present(selectedUser) || !Present(selectedBook) {
        return None;
      }
      if OutOfStock(selectedBook.value) {
        return None;
      }
      var loanPeriod := PeriodFrom(periodInput);
      call := Some(LoanCall(Member(selectedUser, "id"), Member(selectedBook, "id"), loanPeriod));
    }
  }

  /** A submission that the enabled button allows always reaches Api.createLoan. */
  lemma EnabledSubmitCalls(user: Option<Json>, book: Option<Json>)
    requires CanSubmit(user, book)
    ensures Present(user) && Present(book) && !OutOfStock(book.value)
  {
  }

  /** A book record with no quantity disables the button, yet a submission would go through. */
  lemma MissingQuantityDisablesOnlyTheButton()
    ensures var user := Some(JObj(map["id" := JNum(1)]));
      var book := Some(JObj(map["id" := JNum(2)]));
      !CanSubmit(user, book) && Present(user) && Present(book) && !OutOfStock(book.value)
  {
    var book := JObj(map["id" := JNum(2)]);
    assert Member(Some(book), "quantity").None?;
  }

  /** A failed user lookup disables submission whatever book is selected. */
  lemma FailedLookupDisables(book: Option<Json>)
    ensures !CanSubmit(Found(None), book)
  {
  }
}
