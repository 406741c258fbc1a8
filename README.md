# Cart and wishlist state of the furniture storefront's product listing

This project models the client-side cart and wishlist handling of the
storefront's `Products` listing component (`components/ui/Products.tsx`)
and proves properties of it in Dafny.

The component keeps two ordered lists of products, `cart` and `wishlist`, in
React state. It mirrors each list into browser localStorage under the keys
`"cart"` and `"wishlist"`:

- On mount, both keys are read with `JSON.parse(localStorage.getItem(key) || "[]")`.
  If anything in that block throws, both lists are reset to empty. Storage is never written here.
- `addToCart` / `addToWishlist` reject a product whose `_id` is already in the list.
  Otherwise they append it, set the new list as state, and write the whole list to its key.
- `urlFor` gives the image builder's URL for a present image source and `"/placeholder.png"` otherwise.

Modules:

- `Wrappers`: `Option`, used for absent values and for a parse that throws.
- `Catalog`: the `Product` record (`_id`, `title`, optional `productImage.asset`, optional `price` text) and `UrlFor`.
- `Collection`: the pure list logic, i.e. the duplicate test `some(item => item._id === id)` and add-if-absent.
- `LocalStorage`: storage as a map from key to text.
  JSON is an abstract `Codec` (`parse` returns `None` where `JSON.parse` throws).
  `ValidCodec` states the three facts the component relies on:
  - a serialized list parses back to itself;
  - it is never the empty string;
  - the empty list serializes to `"[]"`.
- `CartState`: the component's state as a value (`Session`), each handler as a function on it, and the lemmas.
- `ProductsComponent`: the class `Products`, whose fields `cart`, `wishlist` and `storage` its methods update in place.
  Each method's postcondition ties the new state to the matching `CartState` function of the old state.

Notes on the component against the rest of the storefront:

- The Sanity schema (`sanity/schemaTypes/product.ts`) also defines a discount, tags and a "new" flag, and a numeric price.
  This component's `Product` interface reads only `_id`, `title`, an optional image and an optional price string, and so does the model.
- Loading is all-or-nothing: when either key fails to parse, both lists are reset, even the one that parsed.
- This component checks for duplicates in both lists.

Other pages (for example `app/(main)/shop/page.tsx:70-75`) write the same keys without a duplicate check.
A stored list may therefore already hold repeated ids. "No duplicate ids" is proved to be preserved by both handlers, not established by loading.

## Model

| member | source | states |
|---|---|---|
| Catalog.UrlFor | components/ui/Products.tsx:26-28 | an absent image source gives `"/placeholder.png"`; a present one gives the builder's URL for it |
| Catalog.UrlForPlaceholderExactlyWhenAbsent | components/ui/Products.tsx:26-28 | if the builder never returns the placeholder path, the placeholder is returned if and only if the source is absent |
| Collection.ContainsId | components/ui/Products.tsx:78 | the duplicate test is true exactly when some entry of the list has the given `_id` |
| Collection.AddIfAbsent | components/ui/Products.tsx:78-84 | rejected exactly when the id is listed, with the list unchanged; otherwise the new list keeps the old one as a prefix and has the product last, one longer; the id is listed afterwards; the listed ids become the old ones plus the product's; distinct ids stay distinct |
| Collection.AddIfAbsentIdempotent | components/ui/Products.tsx:78-84 | adding the same product twice equals adding it once, and the second attempt is reported as already present |
| LocalStorage.StoredText | components/ui/Products.tsx:65-66 | the fallback read of a key is never empty; it is `"[]"` exactly when the key is missing, holds `""` or holds `"[]"`; otherwise it is the stored text |
| LocalStorage.Read | components/ui/Products.tsx:65-66 | a missing key and a key holding `""` both read as the empty list |
| LocalStorage.Write | components/ui/Products.tsx:86 | after `setItem(key, JSON.stringify(items))` the key reads back as `items`, and every other key holds what it held before |
| CartState.Load | components/ui/Products.tsx:63-74 | storage is unchanged; if both keys parse, the in-memory lists equal what storage holds; if either fails, both lists are empty |
| CartState.LoadFromEmptyStorage | components/ui/Products.tsx:65-66 | with neither key stored, both lists load empty, and storage already mirrors them |
| CartState.LoadEstablishesConsistent | components/ui/Products.tsx:64-68 | loading stored lists with distinct ids yields a state where storage mirrors memory and no id repeats |
| CartState.AddAndPersist | components/ui/Products.tsx:77-101 | the shared add handler: rejected exactly when the id is listed, and then list and storage are unchanged; otherwise the list gains the product at the end and the key reads back as the new list; no other key changes; distinct ids stay distinct |
| CartState.AddToCart | components/ui/Products.tsx:77-88 | reports already-present exactly when the cart lists the id, and then the whole state is unchanged; otherwise cart becomes `cart + [product]` and the `"cart"` key reads back as it; the wishlist and every key other than `"cart"` are untouched; distinct ids stay distinct |
| CartState.AddToWishlist | components/ui/Products.tsx:90-101 | the same contract for the wishlist and the `"wishlist"` key; the cart and every key other than `"wishlist"` are untouched |
| CartState.AddToCartTwice | components/ui/Products.tsx:78-84 | a second "Add to Cart" of the same product reports already present and changes nothing |
| CartState.AddToWishlistTwice | components/ui/Products.tsx:91-97 | a second "Add to Wishlist" of the same product reports already present and changes nothing |
| CartState.Handle | components/ui/Products.tsx:146-159 | a press on either button runs the matching handler; a rejected press changes nothing; a cart press leaves the wishlist alone and a wishlist press leaves the cart alone |
| CartState.HandleKeepsMirrors | components/ui/Products.tsx:77-101 | either handler keeps storage mirroring both lists, even when a list already holds a repeated id |
| CartState.HandleKeepsConsistent | components/ui/Products.tsx:77-101 | either handler preserves "storage mirrors both lists and neither list repeats an id" |
| CartState.RunKeepsMirrors | components/ui/Products.tsx:77-101 | after any sequence of button presses from a mirrored state, storage still mirrors both lists |
| CartState.RunKeepsConsistent | components/ui/Products.tsx:77-101 | after any sequence of button presses, storage still mirrors both lists and no id repeats |
| CartState.ReloadAfterRun | components/ui/Products.tsx:63-101 | mounting again after any sequence of presses from a state that storage mirrors restores exactly the in-memory lists, repeated ids included |
| CartState.LoadKeepsRepeatedIds | components/ui/Products.tsx:64-67 | a stored cart with a repeated id loads as it is: storage mirrors memory, but the state is not free of duplicates |
| CartState.MalformedWishlistDropsSavedCart | components/ui/Products.tsx:64-88 | with an intact stored cart and an unparseable wishlist, loading empties the cart, and the next "Add to Cart" overwrites the stored cart with just the new product |
| ProductsComponent.Products.constructor | components/ui/Products.tsx:44-45 | both lists start empty; storage is what the browser holds |
| ProductsComponent.Products.Load | components/ui/Products.tsx:63-74 | the new state is `CartState.Load` of the old one, and storage is not written |
| ProductsComponent.Products.AddToCart | components/ui/Products.tsx:77-88 | the outcome and new state are `CartState.AddToCart` of the old state; the wishlist is unchanged |
| ProductsComponent.Products.AddToWishlist | components/ui/Products.tsx:90-101 | the outcome and new state are `CartState.AddToWishlist` of the old state; the cart is unchanged |

## Left out

- Product fetching: the Sanity query, `isLoading` and `error` state (components/ui/Products.tsx:47-61, 103-117). This is asynchronous network I/O through an external client.
- The image builder's URL (`builder.image(source).url()`). It is a library call, so `UrlFor` takes it as a function parameter.
- Catalog.UrlFor: the "placeholder exactly when absent" direction holds only if the builder never yields `"/placeholder.png"`. The builder is outside the model, so the lemma assumes this.
- JSON internals. `JSON.parse` and `JSON.stringify` are the abstract `Codec`.
- A stored text that parses as JSON but is not a list of products (for example `"5"`). The source would put such a value in state unchecked. The model treats every parse result as either a product list or a failure.
- `alert` messages and `console.error` logging. They are returned as the outcome `AlreadyPresent` / `Added`, or dropped.
- CartState.Load: a throwing storage read (`getItem` raising, for example when storage is disabled) also lands in the `catch` and resets both lists. The model's read always succeeds, so only a failed parse resets them.
- A `setItem` that throws, for example on a full storage quota. The model's storage write always succeeds.
- React's asynchronous state updates. Each button press is modelled as seeing the state the previous press left, as happens when a re-render runs between events.
- All JSX rendering, including the `priority` index test (components/ui/Products.tsx:119-175). Of the buttons, only the dispatch of a press to its handler is modelled, as `CartState.Handle`.
- Remove, toggle, total and checkout, and the other pages that use the same storage keys. None of them are part of this component.
- Several tabs sharing one storage. The model has one session.
