/** The browser's `localStorage`, reduced to what the wallet reads and writes:
    string keys mapped to stored values, with the JSON text abstracted to the
    transaction list it encodes. */
module Storage {
  import opened Ledger

  datatype Option<T> = None | Some(value: T)

  /** A stored value as the loader sees it: the empty string (falsy, so it is
      skipped), or the JSON text of a transaction list. */
  datatype StoredValue = EmptyText | JsonList(items: seq<Transaction>)

  /** The one key the wallet uses. */
  const TransactionsKey: string := "transactions"

  /** A key-value store shared between the wallet and the backup component,
      which may overwrite it at any time. */
  class LocalStorage {
    var items: map<string, StoredValue>

    constructor (initial: map<string, StoredValue>)
      ensures items == initial
    {
      items := initial;
    }

    /** `getItem`: `None` plays the part of `null` for a missing key. */
    function GetItem(key: string): (r: Option<StoredValue>)
      reads this
      ensures r.None? <==> key !in items
      ensures r.Some? ==> r.value == items[key]
    {
      if key in items then Some(items[key]) else None
    }

    /** `setItem`: overwrites one key and leaves every other key alone. */
    method SetItem(key: string, value: StoredValue)
      modifies this
      ensures items == old(items)[key := value]
      ensures GetItem(key) == Some(value)
      ensures forall k :: k != key ==> GetItem(k) == old(GetItem(k))
    {
      items := items[key := value];
    }
  }

  /** The slot content is truthy: `loadTransactions` parses it. */
  predicate HoldsList(slot: Option<StoredValue>) {
    slot.Some? && slot.value.JsonList?
  }

  /** The list `loadTransactions` installs for a given slot content: the
      parsed list when the slot holds one, and otherwise (missing key or empty
      text) the list already in memory. */
  function Loaded(slot: Option<StoredValue>, current: seq<Transaction>): (r: seq<Transaction>)
    ensures HoldsList(slot) ==> r == slot.value.items
    ensures !HoldsList(slot) ==> r == current
  {
    match slot
    case Some(JsonList(l)) => l
    case _ => current
  }

  /** Persisting a list and loading it back gives the same list, whatever was
      in memory before. */
  lemma PersistLoadRoundTrip(ts: seq<Transaction>, current: seq<Transaction>, store: map<string, StoredValue>)
    ensures var written := store[TransactionsKey := JsonList(ts)];
      Loaded(if TransactionsKey in written then Some(written[TransactionsKey]) else None, current) == ts
  {
  }

  /** A missing or empty slot never resets the list in memory. */
  lemma LoadKeepsListWithoutData(slot: Option<StoredValue>, current: seq<Transaction>)
    requires slot == None || slot == Some(EmptyText)
    ensures Loaded(slot, current) == current
  {
  }
}
