/** The error panel's logic (src/Components/ErrorDisplay.jsx): the classifier that turns a
    failure text into one of four messages by ordered, case-sensitive substring tests, and
    the retry button's fixed fetch. */
module ErrorDisplay {
  import Text
  import opened Assets
  import opened CryptoSlice

  const ConnectionLost: string := "Connection lost! " + "Please check your internet connection and try again."
  const RateLimited: string := "Whoa! " + "We're hitting API rate limits. Please wait a moment before retrying."
  const AuthenticationFailed: string := "Authentication error. " + "API key might be invalid or expired."
  const UnexpectedPrefix: string := "Unexpected error: "
  const UnexpectedSuffix: string := ". Our crypto-gnomes are working on it!"

  predicate IsConnectivity(errorText: string) {
    Text.Contains(errorText, "Network")
  }

  predicate IsRateLimit(errorText: string) {
    Text.Contains(errorText, "429") || Text.Contains(errorText, "too many")
  }

  predicate IsAuthentication(errorText: string) {
    Text.Contains(errorText, "unauthorized") || Text.Contains(errorText, "401")
  }

  /** `getErrorMessage`. The tests run in order, so each message is chosen exactly when its
      test passes and no earlier one does; anything else is reported with its own text. The
      fallback's prefix-and-contains clause is a corollary of the exact clause after it. */
  function ErrorMessage(errorText: string): (r: string)
    ensures r == ConnectionLost <==> IsConnectivity(errorText)
    ensures r == RateLimited <==> !IsConnectivity(errorText) && IsRateLimit(errorText)
    ensures r == AuthenticationFailed <==>
              !IsConnectivity(errorText) && !IsRateLimit(errorText) && IsAuthentication(errorText)
    ensures !IsConnectivity(errorText) && !IsRateLimit(errorText) && !IsAuthentication(errorText)
            ==> |r| >= |UnexpectedPrefix| && r[..|UnexpectedPrefix|] == UnexpectedPrefix
                && Text.Contains(r, errorText)
    ensures !IsConnectivity(errorText) && !IsRateLimit(errorText) && !IsAuthentication(errorText)
            ==> r == UnexpectedPrefix + errorText + UnexpectedSuffix
  {
    if IsConnectivity(errorText) then ConnectionLost
    else if IsRateLimit(errorText) then
      assert RateLimited[0] != ConnectionLost[0];
      RateLimited
    else if IsAuthentication(errorText) then
      assert AuthenticationFailed[0] != ConnectionLost[0] && AuthenticationFailed[0] != RateLimited[0];
      AuthenticationFailed
    else
      var r := UnexpectedPrefix + errorText + UnexpectedSuffix;
      assert r[0] == 'U';
      assert r[0] != ConnectionLost[0] && r[0] != RateLimited[0] && r[0] != AuthenticationFailed[0];
      assert r[..|UnexpectedPrefix|] == UnexpectedPrefix;
      Text.ContainsInfix(UnexpectedPrefix, errorText, UnexpectedSuffix);
      r
  }

  /** The thunk's error for a non-OK HTTP status is always shown as a lost connection,
      whatever the body. */
  lemma NotOkIsConnectionLost(request: FetchRequest, body: Common.Result<seq<RawRecord>, string>)
    ensures ThunkOutcome(request, Response(false, body)) == Rejected(NotOkMessage)
    ensures ErrorMessage(ThunkOutcome(request, Response(false, body)).message) == ConnectionLost
  {
    var network := "Network";
    assert NotOkMessage[..|network|] == network;
    assert Text.OccursAt(NotOkMessage, network, 0);
  }

  /** A rejected fetch stored in the slice is shown through the classifier; for a non-OK
      status that is the lost-connection message. */
  method RejectedNotOkShowsConnectionLost(store: CryptoStore, request: FetchRequest,
                                         body: Common.Result<seq<RawRecord>, string>,
                                         now: Timestamp)
    returns (shown: string)
    modifies store
    ensures shown == ConnectionLost
    ensures store.error.Some?
  {
    store.Settle(ThunkOutcome(request, Response(false, body)), now);
    NotOkIsConnectionLost(request, body);
    shown := ErrorMessage(store.error.value);
  }

  /** The retry button's request: page 1 with 5 per page, whatever the current pagination. */
  const RetryRequest: FetchRequest := FetchRequest(1, 5)

  /** `handleRetry`: dispatches the fixed request; the pending case runs at once. */
  method HandleRetry(store: CryptoStore) returns (request: FetchRequest)
    modifies store
    ensures request == RetryRequest && request.page == 1 && request.perPage == 5
    ensures store.loading
    ensures store.assets == old(store.assets) && store.error == old(store.error)
    ensures store.lastUpdated == old(store.lastUpdated) && store.favorites == old(store.favorites)
    ensures store.storage == old(store.storage) && store.hasMore == old(store.hasMore)
    ensures store.currentPage == old(store.currentPage)
    ensures store.itemsPerPage == old(store.itemsPerPage)
    ensures store.totalPages == old(store.totalPages)
  {
    request := RetryRequest;
    store.FetchPending();
  }
}
