/** The crypto slice of the store (src/features/crypto/cryptoSlice.js): one mutable record
    that changes only through the named reducers, plus the durable key/value storage that
    `toggleFavorite` writes to. Timestamps are injected by the caller instead of read from
    a clock. */
module CryptoSlice {
  import opened Common
  import Seqs
  import opened Assets
  import opened FavoritesCodec

  /** An ISO-8601 time stamp, supplied by the caller. */
  type Timestamp = string

  /** The favorites list with `id` flipped: every occurrence removed when present, appended
      at the end when absent. */
  function Toggled(favorites: seq<string>, id: string): (r: seq<string>)
    ensures id in favorites ==> id !in r && |r| < |favorites|
    ensures id !in favorites ==> r == favorites + [id]
  {
    if id in favorites then
      var r := Seqs.Filter(favorites, (x: string) => x != id);
      Seqs.FilterCounts(favorites, (x: string) => x != id, id);
      assert multiset(r)[id] == 0 < multiset(favorites)[id];
      assert |r| != |favorites| by {
        if |r| == |favorites| {
          Seqs.FilterCounts(favorites, (x: string) => x != id, id);
          SameSizeFilterKeepsAll(favorites, (x: string) => x != id);
          assert false;
        }
      }
      r
    else favorites + [id]
  }

  /** A filter that keeps as many elements as it was given kept every element. */
  lemma {:induction false} SameSizeFilterKeepsAll(s: seq<string>, keep: string -> bool)
    requires |Seqs.Filter(s, keep)| == |s|
    ensures forall x :: x in s ==> keep(x)
    decreases |s|
  {
    if s != [] {
      var rest := Seqs.Filter(s[1..], keep);
      if !keep(s[0]) {
        assert false;
      }
      assert Seqs.Filter(s, keep) == [s[0]] + rest;
      SameSizeFilterKeepsAll(s[1..], keep);
      assert forall x :: x in s ==> x == s[0] || x in s[1..];
    }
  }

  /** Removing a present id keeps every other id, in order and with its multiplicity. */
  lemma ToggleRemoves(favorites: seq<string>, id: string)
    requires id in favorites
    ensures Seqs.IsSubseq(Toggled(favorites, id), favorites)
    ensures forall y :: y != id ==> multiset(Toggled(favorites, id))[y] == multiset(favorites)[y]
  {
    var keep := (x: string) => x != id;
    Seqs.FilterIsSubseq(favorites, keep);
    forall y | y != id
      ensures multiset(Toggled(favorites, id))[y] == multiset(favorites)[y]
    {
      Seqs.FilterCounts(favorites, keep, y);
    }
  }

  /** Toggling the same id twice restores the membership of every id. */
  lemma ToggleTwiceMembership(favorites: seq<string>, id: string, y: string)
    ensures y in Toggled(Toggled(favorites, id), id) <==> y in favorites
  {
    if id in favorites {
      Seqs.FilterMembership(favorites, (x: string) => x != id, y);
    } else {
      ToggleTwiceAbsent(favorites, id);
    }
  }

  /** Adding an absent id and removing it again gives back exactly the original list. */
  lemma ToggleTwiceAbsent(favorites: seq<string>, id: string)
    requires id !in favorites
    ensures Toggled(Toggled(favorites, id), id) == favorites
  {
    var keep := (x: string) => x != id;
    Seqs.FilterAppend(favorites, [id], keep);
    Seqs.FilterKeepsAll(favorites, keep);
    assert Seqs.Filter([id], keep) == [];
  }

  /** The first asset with the given id (`selectAssetById`), or `None`. */
  function AssetById(assets: seq<Asset>, id: string): (r: Option<Asset>)
    ensures r.None? <==> forall i :: 0 <= i < |assets| ==> assets[i].id != id
    ensures r.Some? ==> exists i :: 0 <= i < |assets| && assets[i] == r.value && r.value.id == id
                                   && forall j :: 0 <= j < i ==> assets[j].id != id
  {
    if assets == [] then None
    else if assets[0].id == id then Some(assets[0])
    else
      var r := AssetById(assets[1..], id);
      assert forall i :: 1 <= i < |assets| ==> assets[i] == assets[1..][i - 1];
      if r.None? then r
      else
        var i :| 0 <= i < |assets[1..]| && assets[1..][i] == r.value && r.value.id == id
                 && forall j :: 0 <= j < i ==> assets[1..][j].id != id;
        assert assets[i + 1] == r.value;
        r
  }

  class CryptoStore {
    var assets: seq<Asset>
    var loading: bool
    var error: Option<string>
    var lastUpdated: Option<Timestamp>
    var favorites: seq<string>
    var currentPage: int
    var itemsPerPage: int
    var totalPages: int
    var hasMore: bool
    /** The browser's durable key/value storage. */
    var storage: map<string, string>

    /** The durable copy of the favorites always reloads as the in-memory list. */
    ghost predicate Valid()
      reads this
    {
      LoadFavorites(storage) == favorites
    }

    /** The initial state, with the favorites read back from `storage`. */
    constructor (storage: map<string, string>)
      ensures Valid()
      ensures this.storage == storage && favorites == LoadFavorites(storage)
      ensures assets == [] && !loading && error == None && lastUpdated == None
      ensures currentPage == 1 && itemsPerPage == 5 && totalPages == 1 && hasMore
    {
      this.storage := storage;
      favorites := LoadFavorites(storage);
      assets := [];
      loading := false;
      error := None;
      lastUpdated := None;
      currentPage := 1;
      itemsPerPage := 5;
      totalPages := 1;
      hasMore := true;
    }

    /** `updateLastUpdated`. */
    method UpdateLastUpdated(now: Timestamp)
      modifies this
      ensures lastUpdated == Some(now)
      ensures assets == old(assets) && loading == old(loading) && error == old(error)
      ensures favorites == old(favorites) && storage == old(storage)
      ensures currentPage == old(currentPage) && itemsPerPage == old(itemsPerPage)
      ensures totalPages == old(totalPages) && hasMore == old(hasMore)
    {
      lastUpdated := Some(now);
    }

    /** `toggleFavorite`: flips `id` in the list and overwrites the stored copy with the
        encoding of the new list. */
    method ToggleFavorite(id: string)
      modifies this
      ensures Valid()
      ensures favorites == Toggled(old(favorites), id)
      ensures storage == old(storage)[FavoritesKey := Encode(favorites)]
      ensures assets == old(assets) && loading == old(loading) && error == old(error)
      ensures lastUpdated == old(lastUpdated) && hasMore == old(hasMore)
      ensures currentPage == old(currentPage) && itemsPerPage == old(itemsPerPage)
      ensures totalPages == old(totalPages)
    {
      if id in favorites {
        favorites := Seqs.Filter(favorites, (x: string) => x != id);
      } else {
        favorites := favorites + [id];
      }
      storage := storage[FavoritesKey := Encode(favorites)];
      LoadAfterSave(old(storage), favorites);
    }

    /** `setCurrentPage`: no clamping. */
    method SetCurrentPage(page: int)
      modifies this
      ensures currentPage == page
      ensures assets == old(assets) && loading == old(loading) && error == old(error)
      ensures lastUpdated == old(lastUpdated) && favorites == old(favorites)
      ensures storage == old(storage) && itemsPerPage == old(itemsPerPage)
      ensures totalPages == old(totalPages) && hasMore == old(hasMore)
    {
      currentPage := page;
    }

    /** `setItemsPerPage`: a new page size always restarts at page 1. */
    method SetItemsPerPage(n: int)
      modifies this
      ensures itemsPerPage == n && currentPage == 1
      ensures assets == old(assets) && loading == old(loading) && error == old(error)
      ensures lastUpdated == old(lastUpdated) && favorites == old(favorites)
      ensures storage == old(storage) && totalPages == old(totalPages) && hasMore == old(hasMore)
    {
      itemsPerPage := n;
      currentPage := 1;
    }

    /** The pending case of the fetch: stale data stays visible while loading. */
    method FetchPending()
      modifies this
      ensures loading
      ensures assets == old(assets) && error == old(error) && lastUpdated == old(lastUpdated)
      ensures favorites == old(favorites) && storage == old(storage)
      ensures currentPage == old(currentPage) && itemsPerPage == old(itemsPerPage)
      ensures totalPages == old(totalPages) && hasMore == old(hasMore)
    {
      loading := true;
    }

    /** The fulfilled case: the snapshot is replaced by the normalised batch, the pagination
        follows the request, and `hasMore` records whether the batch was full. */
    method FetchFulfilled(data: seq<RawRecord>, page: int, perPage: int, now: Timestamp)
      modifies this
      ensures !loading && error == None && lastUpdated == Some(now)
      ensures assets == NormalizeAll(data) && |assets| == |data|
      ensures hasMore <==> |data| == perPage
      ensures currentPage == page && itemsPerPage == perPage
      ensures favorites == old(favorites) && storage == old(storage)
      ensures totalPages == old(totalPages)
    {
      loading := false;
      assets := NormalizeAll(data);
      currentPage := page;
      itemsPerPage := perPage;
      hasMore := |data| == perPage;
      lastUpdated := Some(now);
      error := None;
    }

    /** The rejected case: the message is recorded and the last snapshot is kept. */
    method FetchRejected(message: string)
      modifies this
      ensures !loading && error == Some(message)
      ensures assets == old(assets) && lastUpdated == old(lastUpdated)
      ensures favorites == old(favorites) && storage == old(storage)
      ensures currentPage == old(currentPage) && itemsPerPage == old(itemsPerPage)
      ensures totalPages == old(totalPages) && hasMore == old(hasMore)
    {
      loading := false;
      error := Some(message);
    }

    /** Applies a settled fetch through the matching reducer case. */
    method Settle(outcome: FetchOutcome, now: Timestamp)
      modifies this
      ensures !loading
      ensures outcome.Rejected? ==> error == Some(outcome.message) && assets == old(assets)
                                    && lastUpdated == old(lastUpdated)
                                    && currentPage == old(currentPage)
                                    && itemsPerPage == old(itemsPerPage)
                                    && hasMore == old(hasMore)
      ensures outcome.Fulfilled? ==> error == None && assets == NormalizeAll(outcome.data)
                                     && lastUpdated == Some(now)
                                     && (hasMore <==> |outcome.data| == outcome.perPage)
                                     && currentPage == outcome.page
                                     && itemsPerPage == outcome.perPage
      ensures favorites == old(favorites) && storage == old(storage)
      ensures totalPages == old(totalPages)
    {
      match outcome
      case Fulfilled(data, page, perPage) => FetchFulfilled(data, page, perPage, now);
      case Rejected(message) => FetchRejected(message);
    }
  }

  /** Scenario: a first fetch of page 1 with 5 per page that returns 5 records leaves the
      store loaded, error-free, with five assets and more pages to come. */
  method FullFirstPage(storage: map<string, string>, data: seq<RawRecord>, now: Timestamp)
    returns (store: CryptoStore)
    requires |data| == 5
    ensures !store.loading && store.error == None && store.hasMore && |store.assets| == 5
    ensures store.favorites == LoadFavorites(storage)
  {
    store := new CryptoStore(storage);
    store.FetchPending();
    store.FetchFulfilled(data, 1, 5, now);
  }

  /** Scenario: a failed refresh after a successful one keeps the earlier snapshot. */
  method FailedRefreshKeepsSnapshot(store: CryptoStore, data: seq<RawRecord>, now: Timestamp)
    modifies store
    ensures store.assets == NormalizeAll(data) && store.error == Some(NotOkMessage)
    ensures !store.loading
  {
    store.FetchPending();
    store.FetchFulfilled(data, store.currentPage, store.itemsPerPage, now);
    store.FetchPending();
    store.Settle(ThunkOutcome(FetchRequest(1, 5), Response(false, Failure("ignored"))), now);
  }
}
