# Library loans: server routes and browser client

This project models the rule-bearing core of a small library management
application. The server is a FastAPI application with loan, category and
admin routes. The browser client is a single-page JavaScript application with
an API wrapper, a session store in `localStorage` and page logic. Each part is
modelled in Dafny, and the properties its code promises are proved.

Modules, one per source area:

- `LoanRoutes` (`loan_routes.dfy`) covers the loan routes. It models the
  one-shot 21-day extension as a class over the loans table, the
  owner-or-admin read checks, and the defaults and `ValueError` to 400 mapping
  around the loan service. The loan service is a function parameter.
- `CategoryRoutes` (`category_routes.dfy`) covers the category routes as a
  class over a table of categories that keeps names unique. It includes the
  update route as written, with the defect listed under Findings.
- `AdminRoutes` (`admin_routes.dfy`) covers the admin listing: a loop that
  builds one entry per user holding that user's loans.
- `SessionStore` (`session_store.dfy`) covers the `Auth` object: a class over
  the storage map, with the clock as a parameter.
- `ClientLoans` (`client_loans.dfy`) covers the loan status shown on loan
  cards and the active and overdue filters over the user's loans.
- `ApiClient` (`api_client.dfy`) covers `Api.call`:
  - how the request is built and the response becomes data or an error message;
  - list normalisation;
  - the search query builders, step by step, against a specification of the
    appended parameters;
  - the current user's loan endpoint;
  - the `createLoan` query and its default period.
- `AppPages` (`app_pages.dfy`) covers the page logic:
  - `loadPage` gating;
  - the register and profile validators;
  - the book card buttons;
  - the extension prompt check.
- `LoanForm` (`loan_form.dfy`) covers the "new loan" form, as a class holding
  the two selections and the state of the submit button.
- Shared modules:
  - `Common`: `Option`, `Result`, HTTP errors and `SubsequenceOf`.
  - `Models`: the `User` and `Loan` records.
  - `JsValues`: JSON values, truthiness, `String()`, `parseInt`, the test
    behind `isNaN`, `trim` and the UTF-16 length.
  - `FormEncoding`: `URLSearchParams` serialisation.

Timestamps are integer milliseconds on both sides, and 21 days is
`21 * 86_400_000`. The code extends once, by 21 days, and ignores any day
count the client sends.

## Model

| member | source | states |
|---|---|---|
| LoanRoutes.Extended | src/api/routes/loans.py:137-138 | the due date moves 21 days later, the loan is marked extended, and no other field changes |
| LoanRoutes.ExtendStep | src/api/routes/loans.py:126-143 | missing id gives 404 "Emprunt introuvable"; an already extended loan gives 400; both leave the table unchanged; success happens exactly for an existing, unextended loan and replaces only that loan by its extended copy |
| LoanRoutes.LoanTable.ExtendLoan | src/api/routes/loans.py:126-143 | the in-place extension answers and updates the table exactly as ExtendStep describes |
| LoanRoutes.ExtendAtMostOnce | src/api/routes/loans.py:134-138 | after a successful extension a second request for the same loan fails with 400 and changes nothing |
| LoanRoutes.ExtendIgnoresReturnDate | src/api/routes/loans.py:126-143 | whether an extension succeeds, and the new due date, do not depend on the return date |
| LoanRoutes.ExtendAllAddsAtMostOnce | src/api/routes/loans.py:134-138 | after any sequence of extension requests, each loan has gained 21 days at most once, exactly when it was unextended and was requested |
| LoanRoutes.ReadLoan | src/api/routes/loans.py:84-98 | missing id is 404 before any ownership check; a non-admin who is not the borrower gets 403; an admin or the borrower gets the loan |
| LoanRoutes.ReadUserLoans | src/api/routes/loans.py:188-199 | a non-admin asking for another user's loans gets 403 before any lookup; otherwise the service is asked for that user's loans |
| LoanRoutes.ServiceResponse | src/api/routes/loans.py:62-66 | a service ValueError becomes 400 with its message as detail; a completed call passes its value through |
| LoanRoutes.CreateLoan | src/api/routes/loans.py:38-66 | the service is asked for the given user and book with the given period, or 14 days when none is given; a ValueError becomes 400 |
| LoanRoutes.ReturnLoan | src/api/routes/loans.py:116-123 | the service's returned loan, or 400 with the ValueError's message |
| LoanRoutes.BorrowBook | src/api/routes/loans.py:221-245 | the caller's own id and a period of 14 days go to the service; success answers the fixed message, a ValueError gives 400 |
| LoanRoutes.BorrowIsDefaultCreateForCaller | src/api/routes/loans.py:238-242 | borrowing succeeds or fails exactly as an admin creation for the caller with the default period would, with the same error |
| CategoryRoutes.Applied | src/api/routes/categories.py:101 | an update writes exactly the supplied name and description and keeps the id |
| CategoryRoutes.UpdateAsWritten | src/api/routes/categories.py:84-102 | the update route as written: 404 for a missing id; for a present id, 400 with the name-taken message exactly when a non-empty supplied name differs from the current one and is taken; no change on any error; an empty, absent or unchanged name is never checked; on success only that category is replaced by its updated copy |
| CategoryRoutes.AsWrittenKeepsUniqueUnlessEmpty | src/api/routes/categories.py:92-97 | as written, every update other than a rename to the empty string keeps category names unique |
| CategoryRoutes.EmptyRenameDuplicatesName | src/api/routes/categories.py:93 | renaming a category to "" while another category is called "" succeeds and breaks name uniqueness |
| CategoryRoutes.CategoryTable.FindByName | src/api/routes/categories.py:137 | the lookup finds a category with the name when one exists, and reports none only when no category has it |
| CategoryRoutes.CategoryTable.Create | src/api/routes/categories.py:42-50 | a taken name fails with 400 and inserts nothing; otherwise exactly one new category is added under a fresh id; names stay unique |
| CategoryRoutes.CategoryTable.Read | src/api/routes/categories.py:63-70 | the category under the id, or 404 exactly when it is missing |
| CategoryRoutes.CategoryTable.Update | src/api/routes/categories.py:84-102 | 404 for a missing id; 400 with the name-taken message exactly when a different, supplied name is already taken; no change on error; no name change means no check; names stay unique |
| CategoryRoutes.CategoryTable.Delete | src/api/routes/categories.py:115-124 | 404 with no change for a missing id; otherwise exactly that id is removed and the removed category is answered |
| CategoryRoutes.CategoryTable.GetByName | src/api/routes/categories.py:136-142 | 404 exactly when no category has the name; otherwise a category with that name |
| AdminRoutes.LoansOfUser | src/api/routes/admin.py:17 | exactly the loans whose user id matches, with their multiplicities, in table order |
| AdminRoutes.SummaryOfUser | src/api/routes/admin.py:19 | a user entry shows only the id and the email |
| AdminRoutes.SummaryOfLoan | src/api/routes/admin.py:20 | a loan entry shows only the book id, the due date and the return date |
| AdminRoutes.Summaries | src/api/routes/admin.py:20 | one summary per loan, position by position |
| AdminRoutes.ListUsersLoans | src/api/routes/admin.py:10-22 | 403 exactly for a non-admin; otherwise one entry per user in user order, each with the summaries of that user's loans |
| AdminRoutes.EntryLoansBelongToUser | src/api/routes/admin.py:17-20 | every loan held by a user appears, summarised, in that user's entry |
| ClientLoans.StatusOf | frontend/js/app.js:1479-1483 | Returned iff a return date is set; Overdue iff not returned and a due date lies before now; Active otherwise; exactly one holds |
| ClientLoans.ReturnedIsFinal | frontend/js/app.js:1480-1482 | a returned loan shows Returned whatever its due date and the time |
| ClientLoans.OverdueIsMonotoneInTime | frontend/js/app.js:1480 | a loan that is overdue stays overdue as time passes |
| ClientLoans.ActiveLoans | frontend/js/api.js:409-420 | exactly the loans with no return date, with their multiplicities, in original order |
| ClientLoans.OverdueLoans | frontend/js/api.js:423-437 | exactly the unreturned loans whose due date is before now, with their multiplicities, in original order |
| ClientLoans.OverdueWithinActive | frontend/js/api.js:426-430 | the overdue loans are a subsequence of the active loans |
| ClientLoans.ActiveMatchesStatus | frontend/js/api.js:413 | a loan is in the active list iff its card does not show Returned |
| ClientLoans.OverdueMatchesStatus | frontend/js/api.js:428-430 | the overdue filter agrees with the card's Overdue status, except for a null due date, which the filter reads as the epoch |
| SessionStore.StoredUser | frontend/js/auth.js:44-50 | null when no user is stored, otherwise exactly the stored record |
| SessionStore.SetTokenAuthenticates | frontend/js/auth.js:6-30 | right after storing a non-empty token with a positive lifetime, the session is authenticated |
| SessionStore.SetTokenExpires | frontend/js/auth.js:18-33 | after storing a token, the session is authenticated at a later time exactly while that time is before now plus the lifetime |
| SessionStore.EmptyTokenNeverAuthenticates | frontend/js/auth.js:22 | an empty token never authenticates |
| SessionStore.LogoutClearsSession | frontend/js/auth.js:53-57 | after logout the session is not authenticated, there is no user, and every other key keeps its value |
| SessionStore.Session.SetToken | frontend/js/auth.js:4-10 | writes the token and the expiry now + lifetime, and no other key |
| SessionStore.Session.GetToken | frontend/js/auth.js:13-15 | the stored token, or none |
| SessionStore.Session.IsAuthenticated | frontend/js/auth.js:18-34 | false without a token or without an expiry; otherwise whether now is before the parsed expiry |
| SessionStore.Session.SetUser | frontend/js/auth.js:37-41 | stores the user record under the user key and changes nothing else |
| SessionStore.Session.GetUser | frontend/js/auth.js:44-50 | reads back StoredUser of the current storage |
| SessionStore.Session.Logout | frontend/js/auth.js:53-57 | removes exactly the token, expiry and user keys |
| SessionStore.SetUserThenGetUser | frontend/js/auth.js:37-50 | getUser returns the value last given to setUser |
| JsValues.ParseIntOfIntToString | frontend/js/auth.js:9-30 | parseInt reads back exactly the integer that was stored as text |
| JsValues.Trim | frontend/js/app.js:194 | the trimmed text is a contiguous slice of the input with only whitespace before and after it; it is empty iff the input is all whitespace, and otherwise neither starts nor ends with whitespace |
| JsValues.Utf16Length | frontend/js/app.js:188 | a password's length counts between one and two code units per character |
| FormEncoding.FormEncode | frontend/js/api.js:262 | an encoded name or value uses only unreserved characters, '+' and '%', and is never shorter than the input |
| FormEncoding.EncodePair | frontend/js/api.js:262 | an encoded pair contains '=' and never the '&' that separates pairs |
| FormEncoding.QueryString | frontend/js/api.js:262 | the query string is empty iff no parameter was appended |
| FormEncoding.QueryStringSplits | frontend/js/api.js:262 | splitting the query string on '&' gives back one encoded pair per parameter, in order |
| ApiClient.BuildRequest | frontend/js/api.js:26-34 | the URL is the base URL plus the endpoint; a JSON body is attached iff the data is truthy and the method is POST, PUT or PATCH |
| ApiClient.NoBodyWithoutPayloadMethod | frontend/js/api.js:32-34 | a GET or a DELETE never carries a body |
| ApiClient.FailureMessage | frontend/js/api.js:54-61 | for 422: detail[0].msg, else detail, else "Erreur de validation"; for other statuses: detail, else "Erreur <status>: <statusText>" |
| ApiClient.StringDetailIsMessage | frontend/js/api.js:58-61 | a non-empty string detail is the message, whatever the status |
| ApiClient.ValidationListShowsFirstMsg | frontend/js/api.js:56-59 | a 422 validation list shows the message of its first entry |
| ApiClient.HandleResponse | frontend/js/api.js:39-65 | data iff the body parses and the status is 2xx; an unparsable body gives the communication error with the status; otherwise the chosen message, or a TypeError for a null body |
| ApiClient.BooksOf | frontend/js/api.js:147-157 | the items of a page; else a bare array as it is; else an empty list |
| ApiClient.BookSearchResult | frontend/js/api.js:270-274 | a page with items as it is; else the empty page; the result always has items |
| ApiClient.LoanSearchResult | frontend/js/api.js:575-579 | a page with items or a bare array as it is; else an empty list |
| ApiClient.AppendedLookup | frontend/js/api.js:250-260 | with distinct names, each name maps to the value its guarded append supplied, or to nothing when its guard failed |
| ApiClient.AppendedInOrder | frontend/js/api.js:250-260 | the appended names come in the order they were tried |
| ApiClient.WithQuery | frontend/js/api.js:262-263 | the endpoint is the bare path when nothing was appended, and the path, '?' and the query string otherwise |
| ApiClient.QueryMarkIffParams | frontend/js/api.js:263 | for a path without '?', the endpoint contains '?' iff some parameter was appended |
| ApiClient.BookSearchNames | frontend/js/api.js:253-260 | searchBooks tries query, category_id, author, publication_year, skip, limit, sort_by and sort_desc, all different |
| ApiClient.LoanSearchNames | frontend/js/api.js:558-565 | searchLoans tries user_id, book_id, status, is_overdue, skip, limit, sort_by and sort_desc, all different |
| ApiClient.BookSearchParams | frontend/js/api.js:250-263 | each searchBooks parameter is sent under its own name: text ones only when truthy, skip, limit and sort_desc whenever defined, even 0 or false; the names keep the fixed order |
| ApiClient.LoanSearchParams | frontend/js/api.js:555-568 | each searchLoans parameter is sent under its own name: ids, status and sort_by only when truthy, the others whenever defined; the names keep the fixed order |
| ApiClient.AppendWhen | frontend/js/api.js:253 | one guarded append adds the parameter exactly when its value was supplied |
| ApiClient.SearchBooksRequest | frontend/js/api.js:250-263 | the step-by-step appends leave exactly the specified parameters, and the endpoint is /books/search/ with their query string |
| ApiClient.SearchLoansRequest | frontend/js/api.js:555-568 | the step-by-step appends leave exactly the specified parameters, and the endpoint is /loans/search with their query string |
| ApiClient.MyLoansEndpoint | frontend/js/api.js:395-399 | "User not authenticated" iff there is no user or no truthy id; otherwise /loans/user/ followed by String(id) |
| ApiClient.SignedOutCannotListOwnLoans | frontend/js/api.js:395-398 | after logout, asking for one's own loans fails before any request |
| ApiClient.NumericIdEndpoint | frontend/js/api.js:399 | a user with a non-zero numeric id asks for /loans/user/ followed by that number |
| ApiClient.PeriodText | frontend/js/api.js:453-458 | the period the query carries reads back as the caller's number, as 14 when left out, and as no number for NaN |
| ApiClient.CreateLoanEndpoint | frontend/js/api.js:455-461 | the endpoint starts with /loans/? and carries a query |
| ApiClient.CreateLoanHasNoBody | frontend/js/api.js:461 | the createLoan POST carries no body |
| ApiClient.CreateLoanQuery | frontend/js/api.js:455-461 | the endpoint is /loans/? plus a query that splits into the encoded user_id, book_id and loan_period_days pairs, in that order |
| ApiClient.CreateLoanPeriod | frontend/js/api.js:453-458 | loan_period_days in the query is the caller's number, 14 when left out, and not a number for NaN |
| AppPages.Dispatch | frontend/js/app.js:53-77 | a page with no case of its own, "categories" included, loads the login page; users and loans load only for those names |
| AppPages.LoadPage | frontend/js/app.js:32-78 | unauthenticated requests for protected pages end at login; non-admin requests for admin pages end at books; the auth redirect comes first; otherwise the page is dispatched; an unauthenticated visitor only ever reaches login or register, and a non-admin never reaches users or loans |
| AppPages.ValidateRegistration | frontend/js/app.js:176-206 | the payload goes out iff the passwords match, the password has at least 8 code units and the trimmed name is non-empty; the failure message is that of the first failing check, in that order |
| AppPages.BlankNameRefused | frontend/js/app.js:194 | a name made only of whitespace is refused even with a good password |
| AppPages.OrNull | frontend/js/app.js:883-884 | an empty field becomes null, any other field is kept |
| AppPages.ValidateProfileEdit | frontend/js/app.js:864-889 | checks run only when either password field is filled, length before match; the payload carries a password iff a new one was typed; empty phone and address become null |
| AppPages.ConfirmationAloneIsTooShort | frontend/js/app.js:870-874 | a confirmation typed without a new password is reported as too short |
| AppPages.BookCardActions | frontend/js/app.js:310-316 | admins get edit and delete; others get the borrow button iff the quantity is positive |
| AppPages.ExtendPromptAsWritten | frontend/js/app.js:1812-1816 | the API is called exactly when the answer is non-empty text Number() can read whose parseInt is not a number of 0 or less (NaN passes), with parseInt of it; every other answer aborts |
| AppPages.NumericNaNAnswerExtendsByNaN | frontend/js/app.js:1813-1814 | every non-empty numeric answer that parseInt cannot read reaches the API with NaN days |
| AppPages.BlankAnswerExtendsByNaN | frontend/js/app.js:1813-1814 | an answer of blanks passes the check and asks for an extension of NaN days |
| AppPages.ExtendPrompt | frontend/js/app.js:1813-1816 | corrected check: the API is called iff the answer is numeric text whose parseInt is a positive number |
| AppPages.ExtendPromptDiffersOnlyOnNaN | frontend/js/app.js:1813-1816 | the corrected check and the code agree on every answer parseInt can read |
| LoanForm.Found | frontend/js/app.js:1705-1715 | a lookup selects the record it returned, or null when it threw or returned null |
| LoanForm.PeriodFrom | frontend/js/app.js:1771 | the period passed on is parseInt of the field: a number, or NaN, never left out |
| LoanForm.LoanFormState.UpdateSubmitButton | frontend/js/app.js:1785-1790 | the button is enabled iff a user and a book are selected and the book's quantity is positive |
| LoanForm.LoanFormState.SearchUser | frontend/js/app.js:1696-1721 | a blank email changes nothing; otherwise the user found for the trimmed email is selected, or null on failure; the button follows |
| LoanForm.LoanFormState.SearchBook | frontend/js/app.js:1724-1755 | a blank ISBN changes nothing; otherwise the book found for the trimmed ISBN is selected, or null on failure; the button follows |
| LoanForm.LoanFormState.Submit | frontend/js/app.js:1758-1781 | no createLoan call without both selections or with a quantity of 0 or less; otherwise the call gets the two ids and parseInt of the period |
| LoanForm.EnabledSubmitCalls | frontend/js/app.js:1761-1788 | whenever the button is enabled, a submission reaches createLoan |
| LoanForm.MissingQuantityDisablesOnlyTheButton | frontend/js/app.js:1766-1787 | a book with no quantity disables the button, yet the submit handler's own check would let it through |
| LoanForm.FailedLookupDisables | frontend/js/app.js:1715-1717 | a failed user lookup disables submission whatever book is selected |

## Left out

- The loan service, the repositories, the database session and FastAPI dependency injection are not part of this model. Service calls are function parameters that complete or raise ValueError. The admin dependency of create, return and the category writes is assumed to have run.
- The list routes that only forward to the service are left out, because they carry no rule of their own: `read_loans`, `read_active_loans`, `read_overdue_loans`, `read_book_loans` and the category list.
- fetch, the DOM, UI messages, loading spinners and console logging are left out; responses and lookup results are parameters.
- The clock is a parameter (`now`, in milliseconds).
- Floating-point numbers are not modelled. JSON numbers, quantities and periods are integers, and date strings are taken as already-parsed timestamps.
- LoanForm.NumberValue: a string or an array in a `quantity` field reads as NaN here, whereas JavaScript converts it through ToPrimitive and would compare a numeric string, `[]` or `[5]` as a number.
- JSON.stringify followed by JSON.parse is taken to give back the same value in the session store.
- JsValues.IsNumericText covers the string numeric literals of ECMAScript on integers and decimals. The numeric value of a fraction or an exponent is not computed, because only whether it is NaN matters here.
- The query strings are followed as far as the encoded pairs. Decoding percent escapes back to text is not modelled.
- The duplicated, shadowed definitions of `extendLoan` and `loadMyLoansPage` are left out; only the later definitions take effect.
- The date arithmetic of the remaining-days display is left out.
- LoanRoutes.ExtendStep: `extend_loan` (src/api/routes/loans.py:126-128) is the only loan route without a current-user dependency, so any request, even an anonymous one, may extend any loan; the model takes no caller, as the code does.
- LoanRoutes.ExtendStep: `extend_loan` builds `LoanService` with the loan repository alone, where the other loan routes pass three repositories; LoanService is not part of this model, so whether that constructor call succeeds is not captured, and the model assumes `get` works.

## Findings

| source | as written | input that shows it | evidently intended | confidence | as-written member | corrected member |
|---|---|---|---|---|---|---|
| src/api/routes/categories.py:93 | the duplicate-name check is skipped when the new name is falsy, so an empty new name is never checked | categories 1 "Roman" and 2 "", then PUT /categories/1 with name "" | every supplied name that differs from the current one is checked, so names stay unique | not executed | CategoryRoutes.UpdateAsWritten | CategoryRoutes.CategoryTable.Update |
| frontend/js/app.js:1814 | `isNaN(days)` is false for an answer of blanks, and `parseInt(days) <= 0` is false for NaN | answering the prompt with "  " | abort unless the answer is numeric text whose parseInt is a positive number, so that NaN never reaches the API | not executed | AppPages.ExtendPromptAsWritten | AppPages.ExtendPrompt |
