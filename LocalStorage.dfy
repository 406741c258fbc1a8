/**
 * Browser storage as the component uses it: a map from key to text, read
 * with `JSON.parse(localStorage.getItem(key) || "[]")` and written with
 * `localStorage.setItem(key, JSON.stringify(items))`.
 */
module LocalStorage {
  import opened Wrappers
  import opened Catalog

  /** localStorage: keys and values are both text. */
  type Store = map<string, string>

  const CartKey: string := "cart"
  const WishlistKey: string := "wishlist"

  /** The fallback text used when a key holds nothing. */
  const EmptyList: string := "[]"

  /**
   * JSON for product lists, kept abstract: `parse` is `JSON.parse` with a
   * thrown error as `None`, `stringify` is `JSON.stringify`.
   */
  datatype Codec = Codec(parse: string -> Option<seq<Product>>, stringify: seq<Product> -> string)

  /** What the component relies on from JSON: a serialized list is never the
      empty string, the empty list is "[]", and parsing a serialized list gives
      it back. */
  ghost predicate ValidCodec(c: Codec) {
    && c.stringify([]) == EmptyList
    && forall items: seq<Product> :: c.stringify(items) != "" && c.parse(c.stringify(items)) == Some(items)
  }

  /** The key holds the same text, or is absent, in both stores. */
  predicate SameEntry(a: Store, b: Store, key: string) {
    (key in a <==> key in b) && (key in a ==> a[key] == b[key])
  }

  /** `localStorage.getItem(key) || "[]"`: a missing key (null) and a stored
      empty string (falsy) both fall back to "[]". */
  function StoredText(store: Store, key: string): (text: string)
    ensures text != ""
    ensures text == EmptyList <==> key !in store || store[key] == "" || store[key] == EmptyList
    ensures key in store && store[key] != "" ==> text == store[key]
  {
    if key in store && store[key] != "" then store[key] else EmptyList
  }

  /** Parse the list stored under `key`; `None` is a parse that throws. */
  function Read(c: Codec, store: Store, key: string): (r: Option<seq<Product>>)
    requires ValidCodec(c)
    ensures key !in store ==> r == Some([])
    ensures key in store && store[key] == "" ==> r == Some([])
  {
    c.parse(StoredText(store, key))
  }

  /** Two stores that agree on a key read the same list from it. */
  lemma ReadSameEntry(c: Codec, a: Store, b: Store, key: string)
    requires ValidCodec(c)
    requires SameEntry(a, b, key)
    ensures Read(c, a, key) == Read(c, b, key)
  {
  }

  /** `localStorage.setItem(key, JSON.stringify(items))`: what is written reads
      back as the same list, and every other key is left as it was. */
  function Write(c: Codec, store: Store, key: string, items: seq<Product>): (r: Store)
    requires ValidCodec(c)
    ensures key in r
    ensures Read(c, r, key) == Some(items)
    ensures forall k :: k != key ==> SameEntry(store, r, k)
  {
    store[key := c.stringify(items)]
  }
}
