/** The separate recent-search helpers over the platform key-value store.
    The platform store is a map from keys to stored search lists; each of
    its calls either completes or throws, and which one happens is a
    parameter of the call (the platform's faults are not predictable). */
module Storage {
  import opened Types
  import RouteStore

  /** The key the helpers keep their list under. */
  const RecentSearchesKey: string := "recentSearches"

  /** How one call to the platform store turns out. */
  datatype Io = Completes | Throws

  /** The result of `getItem`: the stored value, no value, or a fault. */
  datatype Read = Absent | Present(value: seq<SearchQuery>) | ReadFailed

  /** The platform key-value store. */
  class KeyValueStore {
    var items: map<string, seq<SearchQuery>>

    constructor ()
      ensures items == map[]
    {
      items := map[];
    }

    method GetItem(key: string, io: Io) returns (r: Read)
      ensures io == Throws ==> r == ReadFailed
      ensures io == Completes ==> r == if key in items then Present(items[key]) else Absent
    {
      if io == Throws {
        r := ReadFailed;
      } else if key in items {
        r := Present(items[key]);
      } else {
        r := Absent;
      }
    }

    /** Overwrites the value under `key`; a fault leaves the store as it was. */
    method SetItem(key: string, value: seq<SearchQuery>, io: Io) returns (ok: bool)
      modifies this
      ensures ok <==> io == Completes
      ensures items == if ok then old(items)[key := value] else old(items)
    {
      ok := io == Completes;
      if ok {
        items := items[key := value];
      }
    }

    /** Deletes `key`; a fault leaves the store as it was. */
    method RemoveItem(key: string, io: Io) returns (ok: bool)
      modifies this
      ensures ok <==> io == Completes
      ensures items == if ok then old(items) - {key} else old(items)
    {
      ok := io == Completes;
      if ok {
        items := items - {key};
      }
    }
  }

  /** The list the helpers read from a store: a missing key is an empty list. */
  function StoredSearches(items: map<string, seq<SearchQuery>>): (r: seq<SearchQuery>)
    ensures RecentSearchesKey !in items ==> r == []
  {
    if RecentSearchesKey in items then items[RecentSearchesKey] else []
  }

  /** The store after a successful `storeRecentSearch`: the list under the
      key is the recent-search rule applied to the list read, and no other
      key changes. */
  function AfterStore(items: map<string, seq<SearchQuery>>, search: SearchQuery): (m: map<string, seq<SearchQuery>>)
    ensures RecentSearchesKey in m
    ensures StoredSearches(m) == RouteStore.AddRecent(StoredSearches(items), search)
    ensures forall k :: k != RecentSearchesKey ==> (k in m <==> k in items)
    ensures forall k :: k != RecentSearchesKey && k in items ==> m[k] == items[k]
  {
    items[RecentSearchesKey := RouteStore.AddRecent(StoredSearches(items), search)]
  }

  /** The store after a successful `clearRecentSearches`: the key is gone,
      so the list reads as empty, and no other key changes. */
  function AfterClear(items: map<string, seq<SearchQuery>>): (m: map<string, seq<SearchQuery>>)
    ensures RecentSearchesKey !in m && StoredSearches(m) == []
    ensures forall k :: k != RecentSearchesKey ==> (k in m <==> k in items)
    ensures forall k :: k != RecentSearchesKey && k in items ==> m[k] == items[k]
  {
    items - {RecentSearchesKey}
  }

  /** `storeRecentSearch`: read the list, apply the recent-search rule, write
      it back. A fault is caught: when the read fails nothing is written, and
      a failed write leaves the store as it was. */
  method StoreRecentSearch(storage: KeyValueStore, search: SearchQuery, read: Io, write: Io)
    modifies storage
    ensures storage.items
            == if read == Completes && write == Completes then AfterStore(old(storage.items), search)
               else old(storage.items)
  {
    var existing := storage.GetItem(RecentSearchesKey, read);
    if existing != ReadFailed {
      var current := if existing.Present? then existing.value else [];
      var updated := RouteStore.AddRecent(current, search);
      var _ := storage.SetItem(RecentSearchesKey, updated, write);
    }
  }

  /** `getRecentSearches`: the stored list, an empty list when the key is
      missing, and an empty list instead of a fault. */
  method GetRecentSearches(storage: KeyValueStore, read: Io) returns (searches: seq<SearchQuery>)
    ensures read == Throws ==> searches == []
    ensures read == Completes && RecentSearchesKey in storage.items ==> searches == storage.items[RecentSearchesKey]
    ensures read == Completes && RecentSearchesKey !in storage.items ==> searches == []
  {
    var stored := storage.GetItem(RecentSearchesKey, read);
    match stored
    case Present(value) => searches := value;
    case Absent => searches := [];
    case ReadFailed => searches := [];
  }

  /** `clearRecentSearches`: remove the key; a fault is caught and leaves the
      store as it was. */
  method ClearRecentSearches(storage: KeyValueStore, remove: Io)
    modifies storage
    ensures storage.items == if remove == Completes then AfterClear(old(storage.items)) else old(storage.items)
  {
    var _ := storage.RemoveItem(RecentSearchesKey, remove);
  }

  /** A stored list never holds more than five searches, whatever was stored
      before, and the newest search is first. */
  lemma StoredListBounded(items: map<string, seq<SearchQuery>>, search: SearchQuery)
    ensures 1 <= |StoredSearches(AfterStore(items, search))| <= RouteStore.MaxRecentSearches
    ensures StoredSearches(AfterStore(items, search))[0] == search
  {
  }

  /** The helpers' key is not the store's key, so storing or clearing here
      never touches what the store persisted, and the two lists evolve
      independently. */
  lemma KeysIndependent(items: map<string, seq<SearchQuery>>, search: SearchQuery)
    ensures RecentSearchesKey != RouteStore.StorageName
    ensures RouteStore.StorageName in AfterStore(items, search) <==> RouteStore.StorageName in items
    ensures RouteStore.StorageName in items ==>
              AfterStore(items, search)[RouteStore.StorageName] == items[RouteStore.StorageName]
              && AfterClear(items)[RouteStore.StorageName] == items[RouteStore.StorageName]
  {
    assert |RecentSearchesKey| != |RouteStore.StorageName|;
  }

  /** Clearing and then reading, both without fault, gives the empty list. */
  method ClearThenRead(storage: KeyValueStore) returns (searches: seq<SearchQuery>)
    modifies storage
    ensures searches == []
  {
    ClearRecentSearches(storage, Completes);
    searches := GetRecentSearches(storage, Completes);
  }

  /** On a fresh store, storing a search and reading the list back, both
      without fault, gives exactly that search. */
  method StoreThenRead(storage: KeyValueStore, search: SearchQuery) returns (searches: seq<SearchQuery>)
    requires storage.items == map[]
    modifies storage
    ensures searches == [search]
  {
    StoreRecentSearch(storage, search, Completes, Completes);
    searches := GetRecentSearches(storage, Completes);
  }
}
