/**
 * The API client of the browser (frontend/js/api.js): how `call` builds a
 * request and turns a response into data or an error message, how list
 * responses are normalised, how the search endpoints build their query
 * strings, the current user's loan endpoint and the loan creation query.
 * fetch itself is not part of this model: the parsed response is a parameter.
 */
module ApiClient {
  import opened Common
  import opened JsValues
  import opened FormEncoding
  import SessionStore

  // ------------------------------------------------------------------ call

  /** What `call` hands to fetch: the URL, the method and the JSON body, if any. */
  datatype Request = Request(url: string, httpMethod: string, body: Option<Json>)

  /** The methods that carry a body. */
  predicate CarriesBody(httpMethod: string)
  {
    httpMethod == "POST" || httpMethod == "PUT" || httpMethod == "PATCH"
  }

  /** The request `call(endpoint, method, data)` sends (the defaults are "GET" and null). */
  function BuildRequest(apiUrl: string, endpoint: string, httpMethod: string, data: Json): (r: Request)
    ensures r.url == apiUrl + endpoint && r.httpMethod == httpMethod
    ensures r.body.Some? <==> Truthy(data) && CarriesBody(httpMethod)
    ensures r.body.Some? ==> r.body.value == data
  {
    Request(apiUrl + endpoint, httpMethod, if Truthy(data) && CarriesBody(httpMethod) then Some(data) else None)
  }

  /** A GET or DELETE never carries a body, whatever data is passed. */
  lemma NoBodyWithoutPayloadMethod(apiUrl: string, endpoint: string, data: Json)
    ensures BuildRequest(apiUrl, endpoint, "GET", data).body.None?
    ensures BuildRequest(apiUrl, endpoint, "DELETE", data).body.None?
  {
  }

  /** Why `call` throws: an Error with a message, or the TypeError of reading `detail` off a null body. */
  datatype CallError = Thrown(message: string) | NullBodyTypeError

  const VALIDATION_ERROR: string := "Erreur de validation"

  /** `responseData.detail`. */
  function Detail(body: Json): Option<Json>
  {
    Member(Some(body), "detail")
  }

  /** `responseData.detail?.[0]?.msg`: the message of the first validation error. */
  function FirstMsg(body: Json): Option<Json>
  {
    Member(Index0(Detail(body)), "msg")
  }

  /** The message used when the body gives none: generic for 422, status and status text otherwise. */
  function FallbackMessage(status: int, statusText: string): string
  {
    if status == 422 then VALIDATION_ERROR else "Erreur " + IntToString(status) + ": " + statusText
  }

  /**
   * The text of the Error thrown for a non-ok response whose body is not null:
   * for 422 the first validation message, then the detail, then a generic text;
   * for any other status the detail, then the status and its text.
   */
  function FailureMessage(status: int, statusText: string, body: Json): (m: string)
    ensures !Present(Detail(body)) ==> m == FallbackMessage(status, statusText)
    ensures status == 422 && Present(FirstMsg(body)) ==> m == ToJsString(FirstMsg(body).value)
    ensures Present(Detail(body)) && (status != 422 || !Present(FirstMsg(body))) ==> m == ToJsString(Detail(body).value)
  {
    var detail := Detail(body);
    if status == 422 then
      ToJsString(OrElse(Member(Index0(detail), "msg"), OrElse(detail, JStr(VALIDATION_ERROR))))
    else
      ToJsString(OrElse(detail, JStr("Erreur " + IntToString(status) + ": " + statusText)))
  }

  /** A non-empty string detail is the message, whatever the status. */
  lemma StringDetailIsMessage(status: int, statusText: string, body: Json, text: string)
    requires Detail(body) == Some(JStr(text)) && text != ""
    ensures FailureMessage(status, statusText, body) == text
  {
    assert FirstMsg(body).None?;
  }

  /** A FastAPI validation error list shows the message of its first entry. */
  lemma ValidationListShowsFirstMsg(statusText: string, body: Json, entries: seq<Json>, msg: string)
    requires Detail(body) == Some(JArr(entries)) && entries != []
    requires Member(Some(entries[0]), "msg") == Some(JStr(msg)) && msg != ""
    ensures FailureMessage(422, statusText, body) == msg
  {
  }

  /**
   * What `call` makes of a response: the parsed body when the status is 2xx,
   * otherwise the error it throws. `parsed` is None when the body is not JSON,
   * which fails even for a 2xx status.
   */
  function HandleResponse(status: int, statusText: string, parsed: Option<Json>): (r: Result<Json, CallError>)
    ensures r.Ok? <==> parsed.Some? && 200 <= status < 300
    ensures r.Ok? ==> r.value == parsed.value
    ensures parsed.None? ==> r == Err(Thrown("Erreur de communication avec le serveur (" + IntToString(status) + ")"))
    ensures parsed.Some? && !(200 <= status < 300) && parsed.value.JNull? ==> r == Err(NullBodyTypeError)
    ensures parsed.Some? && !(200 <= status < 300) && !parsed.value.JNull? ==>
      r == Err(Thrown(FailureMessage(status, statusText, parsed.value)))
  {
    match parsed
    case None => Err(Thrown("Erreur de communication avec le serveur (" + IntToString(status) + ")"))
    case Some(body) =>
      if 200 <= status < 300 then Ok(body)
      else if body.JNull? then Err(NullBodyTypeError)
      else Err(Thrown(FailureMessage(status, statusText, body)))
  }

  // ------------------------------------------------------ list responses

  /** `response && response.items`. */
  predicate HasItems(response: Json)
  {
    Truthy(response) && Present(Member(Some(response), "items"))
  }

  /** getBooks: the items of a page, a bare array as it is, anything else as an empty list. */
  function BooksOf(response: Json): (r: Json)
    ensures HasItems(response) ==> r == response.fields["items"]
    ensures !HasItems(response) && response.JArr? ==> r == response
    ensures !HasItems(response) && !response.JArr? ==> r == JArr([])
  {
    if HasItems(response) then response.fields["items"]
    else if response.JArr? then response
    else JArr([])
  }

  /** The page searchBooks answers when the response has no items. */
  const EMPTY_PAGE: Json :=
    JObj(map["items" := JArr([]), "total" := JNum(0), "page" := JNum(1), "size" := JNum(0), "pages" := JNum(0)])

  /** searchBooks: a page with items as it is, anything else as the empty page. */
  function BookSearchResult(response: Json): (r: Json)
    ensures HasItems(r)
    ensures HasItems(response) ==> r == response
    ensures !HasItems(response) ==> r == EMPTY_PAGE
  {
    if HasItems(response) then response else EMPTY_PAGE
  }

  /** searchLoans: a page with items as it is, a bare array as it is, anything else as an empty list. */
  function LoanSearchResult(response: Json): (r: Json)
    ensures HasItems(response) || response.JArr? ==> r == response
    ensures !HasItems(response) && !response.JArr? ==> r == JArr([])
  {
    if HasItems(response) then response
    else if response.JArr? then response
    else JArr([])
  }

  // -------------------------------------------------------- query strings

  /** URLSearchParams.get: the value of the first parameter with the given name. */
  function Lookup(params: seq<QueryParam>, name: string): (r: Option<string>)
    ensures r.Some? <==> exists i :: 0 <= i < |params| && params[i].name == name
  {
    if params == [] then None
    else if params[0].name == name then Some(params[0].value)
    else Lookup(params[1..], name)
  }

  lemma {:induction false} LookupConcat(a: seq<QueryParam>, b: seq<QueryParam>, name: string)
    ensures Lookup(a + b, name) == if Lookup(a, name).Some? then Lookup(a, name) else Lookup(b, name)
  {
    if a != [] {
      LookupConcat(a[1..], b, name);
      assert (a + b)[1..] == a[1..] + b;
    } else {
      assert a + b == b;
    }
  }

  /**
   * One `if (guard) queryParams.append(name, value)`: the name, and String(value)
   * when the guard held.
   */
  datatype Attempt = Attempt(name: string, value: Option<string>)

  /** What one guarded append adds: the parameter when the guard held, nothing otherwise. */
  function Candidate(a: Attempt): seq<QueryParam>
  {
    if a.value.Some? then [QueryParam(a.name, a.value.value)] else []
  }

  /** The parameters a run of guarded appends leaves. */
  function Appended(attempts: seq<Attempt>): seq<QueryParam>
  {
    if attempts == [] then [] else Candidate(attempts[0]) + Appended(attempts[1..])
  }

  /** The names tried, in order. */
  function Names(attempts: seq<Attempt>): (names: seq<string>)
    ensures |names| == |attempts|
    ensures forall i :: 0 <= i < |attempts| ==> names[i] == attempts[i].name
  {
    seq(|attempts|, i requires 0 <= i < |attempts| => attempts[i].name)
  }

  predicate Distinct(names: seq<string>)
  {
    forall i, j :: 0 <= i < j < |names| ==> names[i] != names[j]
  }

  /** One more guarded append adds that parameter, or nothing, at the end. */
  lemma {:induction false} AppendedSnoc(attempts: seq<Attempt>, next: Attempt)
    ensures Appended(attempts + [next]) == Appended(attempts) + Candidate(next)
  {
    if attempts == [] {
      assert [next][1..] == [];
    } else {
      assert (attempts + [next])[1..] == attempts[1..] + [next];
      AppendedSnoc(attempts[1..], next);
    }
  }

  /** Only the names tried appear. */
  lemma {:induction false} AppendedNames(attempts: seq<Attempt>)
    ensures forall q :: q in Appended(attempts) ==> q.name in Names(attempts)
  {
    if attempts != [] {
      AppendedNames(attempts[1..]);
      assert forall n :: n in Names(attempts[1..]) ==> n in Names(attempts);
    }
  }

  /** Each name tried is found with exactly the value it was appended with, or is absent. */
  lemma {:induction false} AppendedLookup(attempts: seq<Attempt>, k: int)
    requires Distinct(Names(attempts)) && 0 <= k < |attempts|
    ensures Lookup(Appended(attempts), attempts[k].name) == attempts[k].value
  {
    var head := Candidate(attempts[0]);
    var tail := Appended(attempts[1..]);
    assert Appended(attempts) == head + tail;
    LookupConcat(head, tail, attempts[k].name);
    AppendedNames(attempts[1..]);
    assert Distinct(Names(attempts[1..])) by {
      assert forall i :: 0 <= i < |attempts| - 1 ==> Names(attempts[1..])[i] == Names(attempts)[i + 1];
    }
    if k > 0 {
      assert attempts[1..][k - 1] == attempts[k];
      assert Names(attempts)[k] != Names(attempts)[0];
      AppendedLookup(attempts[1..], k - 1);
    } else if Lookup(tail, attempts[0].name).Some? {
      var i :| 0 <= i < |tail| && tail[i].name == attempts[0].name;
      assert tail[i] in tail;
      var j :| 0 <= j < |attempts| - 1 && Names(attempts[1..])[j] == attempts[0].name;
      assert Names(attempts)[j + 1] == Names(attempts)[0];
    }
  }

  /** A name among the later ones is not the first one. */
  lemma LaterNameDiffers(names: seq<string>, name: string)
    requires Distinct(names) && names != [] && name in names[1..]
    ensures name != names[0]
  {
    var j :| 0 <= j < |names[1..]| && names[1..][j] == name;
    assert names[j + 1] == name;
  }

  /**
   * The names of the parameters, in order. Names does the same for the
   * attempts, which carry an optional value; the appended parameters carry a
   * value, so their names are taken separately.
   */
  function ParamNames(params: seq<QueryParam>): (names: seq<string>)
    ensures |names| == |params|
    ensures forall i :: 0 <= i < |params| ==> names[i] == params[i].name
  {
    seq(|params|, i requires 0 <= i < |params| => params[i].name)
  }

  /** The parameters appear in the order their names were tried. */
  lemma {:induction false} AppendedInOrder(attempts: seq<Attempt>)
    requires Distinct(Names(attempts))
    ensures SubsequenceOf(ParamNames(Appended(attempts)), Names(attempts))
  {
    if attempts != [] {
      var names := Names(attempts);
      assert Names(attempts[1..]) == names[1..];
      assert Distinct(names[1..]) by {
        assert forall i :: 0 <= i < |names| - 1 ==> names[1..][i] == names[i + 1];
      }
      AppendedInOrder(attempts[1..]);
      var tail := Appended(attempts[1..]);
      var s := ParamNames(Appended(attempts));
      if attempts[0].value.Some? {
        assert Appended(attempts) == [QueryParam(names[0], attempts[0].value.value)] + tail;
        assert s[1..] == ParamNames(tail);
      } else {
        assert Appended(attempts) == tail;
        if s != [] {
          AppendedNames(attempts[1..]);
          assert tail[0] in tail;
          LaterNameDiffers(names, s[0]);
        }
      }
    }
  }

  /** A parameter appended when its value is truthy (`if (x) append(...)`). */
  function WhenTruthy(v: Option<Json>): Option<string>
  {
    if Present(v) then Some(ToJsString(v.value)) else None
  }

  /** A parameter appended whenever it is defined, 0, false and null included (`if (x !== undefined)`). */
  function WhenDefined(v: Option<Json>): Option<string>
  {
    if v.Some? then Some(ToJsString(v.value)) else None
  }

  /**
   * The endpoint for a path and its query string: '?' and the query only when
   * something was appended (the query string is empty exactly then).
   */
  function WithQuery(path: string, params: seq<QueryParam>): (endpoint: string)
    ensures params == [] ==> endpoint == path
    ensures params != [] ==> endpoint == path + "?" + QueryString(params)
  {
    var query := QueryString(params);
    if query != "" then path + "?" + query else path
  }

  /** For a path without '?', the endpoint has a '?' exactly when some parameter was appended. */
  lemma QueryMarkIffParams(path: string, params: seq<QueryParam>)
    requires '?' !in path
    ensures '?' in WithQuery(path, params) <==> params != []
  {
    if params != [] {
      assert WithQuery(path, params)[|path|] == '?';
    }
  }

  /** The search parameters of searchBooks; None is undefined. */
  datatype BookSearch = BookSearch(
    query: Option<Json>, categoryId: Option<Json>, author: Option<Json>, publicationYear: Option<Json>,
    skip: Option<Json>, limit: Option<Json>, sortBy: Option<Json>, sortDesc: Option<Json>)

  /** The search parameters of searchLoans; None is undefined. */
  datatype LoanSearch = LoanSearch(
    userId: Option<Json>, bookId: Option<Json>, status: Option<Json>, isOverdue: Option<Json>,
    skip: Option<Json>, limit: Option<Json>, sortBy: Option<Json>, sortDesc: Option<Json>)

  /** The appends of searchBooks, in source order. */
  function BookSearchAttempts(p: BookSearch): seq<Attempt>
  {
    [Attempt("query", WhenTruthy(p.query)), Attempt("category_id", WhenTruthy(p.categoryId)),
     Attempt("author", WhenTruthy(p.author)), Attempt("publication_year", WhenTruthy(p.publicationYear)),
     Attempt("skip", WhenDefined(p.skip)), Attempt("limit", WhenDefined(p.limit)),
     Attempt("sort_by", WhenTruthy(p.sortBy)), Attempt("sort_desc", WhenDefined(p.sortDesc))]
  }

  /** The appends of searchLoans, in source order. */
  function LoanSearchAttempts(p: LoanSearch): seq<Attempt>
  {
    [Attempt("user_id", WhenTruthy(p.userId)), Attempt("book_id", WhenTruthy(p.bookId)),
     Attempt("status", WhenTruthy(p.status)), Attempt("is_overdue", WhenDefined(p.isOverdue)),
     Attempt("skip", WhenDefined(p.skip)), Attempt("limit", WhenDefined(p.limit)),
     Attempt("sort_by", WhenTruthy(p.sortBy)), Attempt("sort_desc", WhenDefined(p.sortDesc))]
  }

  const BOOK_SEARCH_NAMES: seq<string> :=
    ["query", "category_id", "author", "publication_year", "skip", "limit", "sort_by", "sort_desc"]

  const LOAN_SEARCH_NAMES: seq<string> :=
    ["user_id", "book_id", "status", "is_overdue", "skip", "limit", "sort_by", "sort_desc"]

  /** The names searchBooks tries, all different. */
  lemma BookSearchNames(p: BookSearch)
    ensures Names(BookSearchAttempts(p)) == BOOK_SEARCH_NAMES && Distinct(BOOK_SEARCH_NAMES)
  {
  }

  /** The names searchLoans tries, all different. */
  lemma LoanSearchNames(p: LoanSearch)
    ensures Names(LoanSearchAttempts(p)) == LOAN_SEARCH_NAMES && Distinct(LOAN_SEARCH_NAMES)
  {
  }

  /**
   * searchBooks sends each supplied parameter once under its own name: the
   * text ones only when truthy, skip, limit and sort_desc whenever defined;
   * and they come in the fixed order of BOOK_SEARCH_NAMES.
   */
  lemma BookSearchParams(p: BookSearch)
    ensures var params := Appended(BookSearchAttempts(p));
      && Lookup(params, "query") == WhenTruthy(p.query)
      && Lookup(params, "category_id") == WhenTruthy(p.categoryId)
      && Lookup(params, "author") == WhenTruthy(p.author)
      && Lookup(params, "publication_year") == WhenTruthy(p.publicationYear)
      && Lookup(params, "skip") == WhenDefined(p.skip)
      && Lookup(params, "limit") == WhenDefined(p.limit)
      && Lookup(params, "sort_by") == WhenTruthy(p.sortBy)
      && Lookup(params, "sort_desc") == WhenDefined(p.sortDesc)
      && SubsequenceOf(ParamNames(params), BOOK_SEARCH_NAMES)
  {
    var attempts := BookSearchAttempts(p);
    BookSearchNames(p);
    AppendedLookup(attempts, 0);
    AppendedLookup(attempts, 1);
    AppendedLookup(attempts, 2);
    AppendedLookup(attempts, 3);
    AppendedLookup(attempts, 4);
    AppendedLookup(attempts, 5);
    AppendedLookup(attempts, 6);
    AppendedLookup(attempts, 7);
    AppendedInOrder(attempts);
  }

  /**
   * searchLoans sends each supplied parameter once under its own name: the
   * ids, status and sort_by only when truthy, the others whenever defined; and
   * they come in the fixed order of LOAN_SEARCH_NAMES.
   */
  lemma LoanSearchParams(p: LoanSearch)
    ensures var params := Appended(LoanSearchAttempts(p));
      && Lookup(params, "user_id") == WhenTruthy(p.userId)
      && Lookup(params, "book_id") == WhenTruthy(p.bookId)
      && Lookup(params, "status") == WhenTruthy(p.status)
      && Lookup(params, "is_overdue") == WhenDefined(p.isOverdue)
      && Lookup(params, "skip") == WhenDefined(p.skip)
      && Lookup(params, "limit") == WhenDefined(p.limit)
      && Lookup(params, "sort_by") == WhenTruthy(p.sortBy)
      && Lookup(params, "sort_desc") == WhenDefined(p.sortDesc)
      && SubsequenceOf(ParamNames(params), LOAN_SEARCH_NAMES)
  {
    var attempts := LoanSearchAttempts(p);
    LoanSearchNames(p);
    AppendedLookup(attempts, 0);
    AppendedLookup(attempts, 1);
    AppendedLookup(attempts, 2);
    AppendedLookup(attempts, 3);
    AppendedLookup(attempts, 4);
    AppendedLookup(attempts, 5);
    AppendedLookup(attempts, 6);
    AppendedLookup(attempts, 7);
    AppendedInOrder(attempts);
  }

  /** The first k + 1 appends are the first k and then the next one. */
  lemma AppendedStep(attempts: seq<Attempt>, k: nat)
    requires k < |attempts|
    ensures Appended(attempts[..k + 1]) == Appended(attempts[..k]) + Candidate(attempts[k])
  {
    assert attempts[..k] + [attempts[k]] == attempts[..k + 1];
    AppendedSnoc(attempts[..k], attempts[k]);
  }

  /** Four guarded appends in a row after the first k. */
  lemma AppendedFour(attempts: seq<Attempt>, k: nat)
    requires k + 4 <= |attempts|
    ensures Appended(attempts[..k + 4]) ==
      Appended(attempts[..k]) + Candidate(attempts[k]) + Candidate(attempts[k + 1])
      + Candidate(attempts[k + 2]) + Candidate(attempts[k + 3])
  {
    AppendedStep(attempts, k);
    AppendedStep(attempts, k + 1);
    AppendedStep(attempts, k + 2);
    AppendedStep(attempts, k + 3);
  }

  /** Eight guarded appends in a row, grouped as the source performs them. */
  lemma AppendedEight(attempts: seq<Attempt>)
    requires |attempts| == 8
    ensures Appended(attempts) ==
      [] + Candidate(attempts[0]) + Candidate(attempts[1]) + Candidate(attempts[2]) + Candidate(attempts[3])
      + Candidate(attempts[4]) + Candidate(attempts[5]) + Candidate(attempts[6]) + Candidate(attempts[7])
  {
    assert attempts[..0] == [] && attempts[..8] == attempts;
    AppendedFour(attempts, 0);
    AppendedFour(attempts, 4);
  }

  /** `if (guard) queryParams.append(name, value)`: the parameter when the guard held, nothing otherwise. */
  method AppendWhen(params: seq<QueryParam>, name: string, value: Option<string>) returns (r: seq<QueryParam>)
    ensures r == params + Candidate(Attempt(name, value))
  {
    r := params;
    if value.Some? {
      r := r + [QueryParam(name, value.value)];
    }
  }

  /**
   * searchBooks: append each supplied parameter in turn, then request
   * /books/search/ with the query string when there is one.
   */
  method SearchBooksRequest(p: BookSearch) returns (params: seq<QueryParam>, endpoint: string)
    ensures params == Appended(BookSearchAttempts(p))
    ensures endpoint == WithQuery("/books/search/", params)
  {
    AppendedEight(BookSearchAttempts(p));
    params := [];
    params := AppendWhen(params, "query", WhenTruthy(p.query));
    params := AppendWhen(params, "category_id", WhenTruthy(p.categoryId));
    params := AppendWhen(params, "author", WhenTruthy(p.author));
    params := AppendWhen(params, "publication_year", WhenTruthy(p.publicationYear));
    params := AppendWhen(params, "skip", WhenDefined(p.skip));
    params := AppendWhen(params, "limit", WhenDefined(p.limit));
    params := AppendWhen(params, "sort_by", WhenTruthy(p.sortBy));
    params := AppendWhen(params, "sort_desc", WhenDefined(p.sortDesc));
    endpoint := WithQuery("/books/search/", params);
  }

  /**
   * searchLoans: append each supplied parameter in turn, then request
   * /loans/search with the query string when there is one.
   */
  method SearchLoansRequest(p: LoanSearch) returns (params: seq<QueryParam>, endpoint: string)
    ensures params == Appended(LoanSearchAttempts(p))
    ensures endpoint == WithQuery("/loans/search", params)
  {
    AppendedEight(LoanSearchAttempts(p));
    params := [];
    params := AppendWhen(params, "user_id", WhenTruthy(p.userId));
    params := AppendWhen(params, "book_id", WhenTruthy(p.bookId));
    params := AppendWhen(params, "status", WhenTruthy(p.status));
    params := AppendWhen(params, "is_overdue", WhenDefined(p.isOverdue));
    params := AppendWhen(params, "skip", WhenDefined(p.skip));
    params := AppendWhen(params, "limit", WhenDefined(p.limit));
    params := AppendWhen(params, "sort_by", WhenTruthy(p.sortBy));
    params := AppendWhen(params, "sort_desc", WhenDefined(p.sortDesc));
    endpoint := WithQuery("/loans/search", params);
  }
  // ------------------------------------------------------ the user's loans

  const NOT_AUTHENTICATED: string := "User not authenticated"

  /**
   * getMyLoans: the endpoint of the stored user's loans, or the error thrown
   * when there is no user or the user has no (truthy) id.
   */
  function MyLoansEndpoint(user: Json): (r: Result<string, string>)
    ensures r.Err? <==> !Truthy(user) || !Present(Member(Some(user), "id"))
    ensures r.Err? ==> r.error == NOT_AUTHENTICATED
    ensures r.Ok? ==> (user.JObj? && "id" in user.fields && Truthy(user.fields["id"])
      && r.value == "/loans/user/" + ToJsString(user.fields["id"]))
  {
    if !Truthy(user) || !Present(Member(Some(user), "id")) then Err(NOT_AUTHENTICATED)
    else Ok("/loans/user/" + ToJsString(user.fields["id"]))
  }

  /** After logout there is no user, so asking for one's own loans fails before any request. */
  lemma SignedOutCannotListOwnLoans(storage: map<SessionStore.StorageKey, SessionStore.Entry>)
    ensures MyLoansEndpoint(SessionStore.StoredUser(SessionStore.SignedOut(storage))) == Err(NOT_AUTHENTICATED)
  {
    SessionStore.LogoutClearsSession(storage, 0);
  }

  /** A stored user whose id is a non-zero number asks for the loans under that number. */
  lemma NumericIdEndpoint(user: Json, id: int)
    requires user.JObj? && "id" in user.fields && user.fields["id"] == JNum(id) && id != 0
    ensures MyLoansEndpoint(user) == Ok("/loans/user/" + IntToString(id))
  {
  }

  // ----------------------------------------------------------- createLoan

  /** The loan period argument: left out (the default applies), NaN from parseInt, or a number. */
  datatype PeriodArg = Undefined | NotANumber | Days(n: int)

  const DEFAULT_LOAN_PERIOD_DAYS: int := 14

  /** String() of the period once the default parameter has been applied. */
  function PeriodText(period: PeriodArg): (s: string)
    ensures period.Undefined? ==> ParseInt(s) == Some(DEFAULT_LOAN_PERIOD_DAYS)
    ensures period.Days? ==> ParseInt(s) == Some(period.n)
    ensures period.NotANumber? ==> ParseInt(s).None?
  {
    match period
    case Undefined =>
      ParseIntOfIntToString(DEFAULT_LOAN_PERIOD_DAYS);
      IntToString(DEFAULT_LOAN_PERIOD_DAYS)
    case NotANumber => "NaN"
    case Days(n) =>
      ParseIntOfIntToString(n);
      IntToString(n)
  }

  /** The three parameters createLoan puts in its query string, in this order. */
  function CreateLoanParams(userId: Json, bookId: Json, period: PeriodArg): (params: seq<QueryParam>)
    ensures |params| == 3
  {
    [QueryParam("user_id", ToJsString(userId)),
     QueryParam("book_id", ToJsString(bookId)),
     QueryParam("loan_period_days", PeriodText(period))]
  }

  const CREATE_LOAN_PREFIX: string := "/loans/?"

  /** createLoan: the endpoint it POSTs to, /loans/? followed by the encoded user id, book id and period. */
  function CreateLoanEndpoint(userId: Json, bookId: Json, period: PeriodArg): (endpoint: string)
    ensures |endpoint| > |CREATE_LOAN_PREFIX| && endpoint[..|CREATE_LOAN_PREFIX|] == CREATE_LOAN_PREFIX
  {
    var query := QueryString(CreateLoanParams(userId, bookId, period));
    CREATE_LOAN_PREFIX + query
  }

  /** createLoan sends no data, so its POST carries no body. */
  lemma CreateLoanHasNoBody(apiUrl: string, userId: Json, bookId: Json, period: PeriodArg)
    ensures BuildRequest(apiUrl, CreateLoanEndpoint(userId, bookId, period), "POST", JNull).body.None?
  {
  }

  /** A query string of three parameters splits into their three encoded pairs. */
  lemma ThreePairsSplit(params: seq<QueryParam>)
    requires |params| == 3
    ensures Split(QueryString(params), '&') == [EncodePair(params[0]), EncodePair(params[1]), EncodePair(params[2])]
  {
    QueryStringSplits(params);
    assert EncodedPairs(params) == [EncodePair(params[0]), EncodePair(params[1]), EncodePair(params[2])];
  }

  /** The value of the third of three parameters when the first two carry other names. */
  lemma LookupThird(params: seq<QueryParam>, name: string)
    requires |params| == 3 && params[0].name != name && params[1].name != name && params[2].name == name
    ensures Lookup(params, name) == Some(params[2].value)
  {
    var rest := params[1..];
    assert rest[1..][0] == params[2];
    assert Lookup(rest[1..], name) == Some(params[2].value);
    assert Lookup(rest, name) == Lookup(rest[1..], name);
  }

  /**
   * The query of a createLoan request splits into exactly the three encoded
   * pairs, user id, book id and period, in that order.
   */
  lemma CreateLoanQuery(userId: Json, bookId: Json, period: PeriodArg)
    ensures var params := CreateLoanParams(userId, bookId, period);
      && CreateLoanEndpoint(userId, bookId, period) == CREATE_LOAN_PREFIX + QueryString(params)
      && Split(QueryString(params), '&') == [EncodePair(params[0]), EncodePair(params[1]), EncodePair(params[2])]
  {
    ThreePairsSplit(CreateLoanParams(userId, bookId, period));
  }

  /** The period written into the query, as parseInt reads it back: the caller's, 14 when left out, and none for NaN. */
  lemma CreateLoanPeriod(userId: Json, bookId: Json, period: PeriodArg)
    ensures var days := Lookup(CreateLoanParams(userId, bookId, period), "loan_period_days");
      && days.Some?
      && (period.Undefined? ==> ParseInt(days.value) == Some(DEFAULT_LOAN_PERIOD_DAYS))
      && (period.Days? ==> ParseInt(days.value) == Some(period.n))
      && (period.NotANumber? ==> ParseInt(days.value).None?)
  {
    LookupThird(CreateLoanParams(userId, bookId, period), "loan_period_days");
  }
}
