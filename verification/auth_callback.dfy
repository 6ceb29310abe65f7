/** The e-mail confirmation callback route (`GET /auth/callback`): where the
    browser is redirected, given the query's `code` and `next` and whether the
    backend's code-for-session exchange succeeds. */
module AuthCallback {
  import opened Basics

  const DefaultNext: string := "/confirmEmail"
  const SuccessSuffix: string := "?status=success"
  const ErrorSuffix: string := "?status=error"

  /** `searchParams.get('next') ?? '/confirmEmail'`: only a missing parameter is
      replaced; an empty one is kept. */
  function NextPath(next: Option<string>): (r: string)
    ensures next.None? ==> r == DefaultNext
    ensures next.Some? ==> r == next.value
  {
    if next.Some? then next.value else DefaultNext
  }

  /** The redirect target, and whether the exchange was attempted. */
  datatype Redirect = Redirect(location: string, exchangeAttempted: bool)

  /** `GET`: with a non-empty code the exchange is attempted, and only its success
      leads to the success status; every other case leads to the error status.
      Both go to `origin + next`. */
  function CallbackRedirect(origin: string, code: Option<string>, next: Option<string>,
                            exchangeSucceeds: bool): (r: Redirect)
    ensures r.exchangeAttempted <==> Truthy(code)
    ensures StartsWith(r.location, origin + NextPath(next))
    ensures r.location == origin + NextPath(next) + SuccessSuffix <==> Truthy(code) && exchangeSucceeds
    ensures r.location == origin + NextPath(next) + ErrorSuffix <==> !(Truthy(code) && exchangeSucceeds)
  {
    var base := origin + NextPath(next);
    SuffixesDiffer(base);
    if Truthy(code) && exchangeSucceeds then Redirect(base + SuccessSuffix, true)
    else Redirect(base + ErrorSuffix, Truthy(code))
  }

  /** The success and error targets of one base are never the same URL. */
  lemma SuffixesDiffer(base: string)
    ensures base + SuccessSuffix != base + ErrorSuffix
    ensures StartsWith(base + SuccessSuffix, base) && StartsWith(base + ErrorSuffix, base)
  {
    assert (base + SuccessSuffix)[|base| + 8] == 's';
    assert (base + ErrorSuffix)[|base| + 8] == 'e';
    assert (base + SuccessSuffix)[..|base|] == base;
    assert (base + ErrorSuffix)[..|base|] == base;
  }
}
