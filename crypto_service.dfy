/** The refresh scheduler (src/services/cryptoService.js): a two-state machine over
    `isRunning` and the interval handle. Starting fetches once, immediately, and arms a recurring
    timer whose every tick re-reads the store's pagination; stopping clears the timer. A tick
    of the armed timer is an explicit method; the dispatched fetches are kept as a log. */
module CryptoService {
  import opened Common
  import opened Assets
  import opened CryptoSlice

  /** The handle `setInterval` returns, supplied by the caller. */
  type TimerHandle = nat

  class CryptoApiService {
    const store: CryptoStore
    var interval: Option<TimerHandle>
    var isRunning: bool
    /** Every fetch this service has dispatched, oldest first. */
    var dispatched: seq<FetchRequest>

    /** The timer is armed exactly while the service runs. */
    ghost predicate Valid()
      reads this
    {
      isRunning <==> interval.Some?
    }

    constructor (store: CryptoStore)
      ensures Valid()
      ensures this.store == store && interval == None && !isRunning && dispatched == []
    {
      this.store := store;
      interval := None;
      isRunning := false;
      dispatched := [];
    }

    /** The store's current pagination, read at call time. */
    function CurrentRequest(): (r: FetchRequest)
      reads this, store
      ensures r.page == store.currentPage && r.perPage == store.itemsPerPage
    {
      FetchRequest(store.currentPage, store.itemsPerPage)
    }

    /** `dispatch(fetchCryptoData(request))`: the thunk's pending case runs at once; the
        request itself settles later, through `store.Settle`. */
    method Dispatch(request: FetchRequest)
      modifies this, store
      ensures dispatched == old(dispatched) + [request]
      ensures interval == old(interval) && isRunning == old(isRunning)
      ensures store.loading
      ensures store.assets == old(store.assets) && store.error == old(store.error)
      ensures store.lastUpdated == old(store.lastUpdated) && store.favorites == old(store.favorites)
      ensures store.storage == old(store.storage) && store.hasMore == old(store.hasMore)
      ensures store.currentPage == old(store.currentPage)
      ensures store.itemsPerPage == old(store.itemsPerPage)
      ensures store.totalPages == old(store.totalPages)
    {
      dispatched := dispatched + [request];
      store.FetchPending();
    }

    /** `start`: a no-op while running; otherwise one fetch for the current pagination, then
        the timer is armed. */
    method Start(timer: TimerHandle)
      requires Valid()
      modifies this, store
      ensures Valid() && isRunning
      ensures old(isRunning) ==> interval == old(interval) && dispatched == old(dispatched)
                                 && unchanged(store)
      ensures !old(isRunning) ==> interval == Some(timer)
                                  && dispatched == old(dispatched) + [old(CurrentRequest())]
                                  && store.loading
      ensures store.assets == old(store.assets) && store.error == old(store.error)
      ensures store.lastUpdated == old(store.lastUpdated) && store.favorites == old(store.favorites)
      ensures store.storage == old(store.storage) && store.hasMore == old(store.hasMore)
      ensures store.currentPage == old(store.currentPage)
      ensures store.itemsPerPage == old(store.itemsPerPage)
      ensures store.totalPages == old(store.totalPages)
    {
      if isRunning {
        return;
      }
      var request := CurrentRequest();
      Dispatch(request);
      interval := Some(timer);
      isRunning := true;
    }

    /** One firing of the timer: while it is armed, a fetch for the pagination the store
        holds now; once cleared, nothing. */
    method Tick()
      requires Valid()
      modifies this, store
      ensures Valid()
      ensures interval == old(interval) && isRunning == old(isRunning)
      ensures old(interval).None? ==> dispatched == old(dispatched) && unchanged(store)
      ensures old(interval).Some? ==> dispatched == old(dispatched) + [old(CurrentRequest())]
                                      && store.loading
      ensures store.assets == old(store.assets) && store.error == old(store.error)
      ensures store.lastUpdated == old(store.lastUpdated) && store.favorites == old(store.favorites)
      ensures store.storage == old(store.storage) && store.hasMore == old(store.hasMore)
      ensures store.currentPage == old(store.currentPage)
      ensures store.itemsPerPage == old(store.itemsPerPage)
      ensures store.totalPages == old(store.totalPages)
    {
      if interval.Some? {
        Dispatch(CurrentRequest());
      }
    }

    /** `stop`: a no-op while stopped; otherwise the timer is cleared. A fetch already
        dispatched is not cancelled. */
    method Stop()
      requires Valid()
      modifies this
      ensures Valid() && !isRunning && interval == None
      ensures dispatched == old(dispatched)
    {
      if !isRunning {
        return;
      }
      interval := None;
      isRunning := false;
    }
  }

  /** A pagination change between ticks is honoured by the next tick, without a restart. */
  method TickFollowsPagination(service: CryptoApiService, timer: TimerHandle, page: int)
    requires service.Valid() && !service.isRunning
    modifies service, service.store
    ensures |service.dispatched| == |old(service.dispatched)| + 2
    ensures service.dispatched[|service.dispatched| - 2]
            == FetchRequest(old(service.store.currentPage), old(service.store.itemsPerPage))
    ensures service.dispatched[|service.dispatched| - 1]
            == FetchRequest(page, old(service.store.itemsPerPage))
  {
    service.Start(timer);
    service.store.SetCurrentPage(page);
    service.Tick();
  }

  /** After `stop`, ticks dispatch nothing. */
  method NoTicksAfterStop(service: CryptoApiService, timer: TimerHandle)
    requires service.Valid()
    modifies service, service.store
    ensures !service.isRunning
    ensures |service.dispatched| == |old(service.dispatched)| + (if old(service.isRunning) then 0 else 1)
  {
    service.Start(timer);
    service.Stop();
    service.Tick();
    service.Tick();
  }
}
