/**
 * The `Products` listing component's cart and wishlist handling, as an
 * object whose fields are updated in place: the React state `cart` and
 * `wishlist`, and the browser's localStorage.
 */
module ProductsComponent {
  import opened Wrappers
  import opened Catalog
  import opened Collection
  import opened LocalStorage
  import CartState

  class Products {
    var cart: seq<Product>
    var wishlist: seq<Product>
    var storage: Store
    /** How this browser's JSON reads and writes product lists. */
    const codec: Codec

    /** The whole observable state as a value. */
    ghost function State(): CartState.Session
      reads this
    {
      CartState.Session(cart, wishlist, storage)
    }

    /** First render: both lists start empty (`useState([])`); storage is whatever the browser holds. */
    constructor (codec: Codec, storage: Store)
      requires ValidCodec(codec)
      ensures this.codec == codec
      ensures cart == [] && wishlist == [] && this.storage == storage
    {
      this.codec := codec;
      this.storage := storage;
      cart := [];
      wishlist := [];
    }

    /** The mount effect's storage block: read both keys, and if either fails to
        parse reset both lists. */
    method Load()
      requires ValidCodec(codec)
      modifies this
      ensures State() == CartState.Load(codec, old(State()))
      ensures storage == old(storage)
    {
      var savedCart := Read(codec, storage, CartKey);
      var savedWishlist := Read(codec, storage, WishlistKey);
      if savedCart.Some? && savedWishlist.Some? {
        cart := savedCart.value;
        wishlist := savedWishlist.value;
      } else {
        cart := [];
        wishlist := [];
      }
    }

    /** `addToCart`: reject a listed id; otherwise append, then write the new cart to storage. */
    method AddToCart(product: Product) returns (outcome: AddOutcome)
      requires ValidCodec(codec)
      modifies this
      ensures CartState.Step(outcome, State()) == CartState.AddToCart(codec, old(State()), product)
      ensures wishlist == old(wishlist)
    {
      var isInCart := ContainsId(cart, product.id);
      if isInCart {
        return AlreadyPresent;
      }
      var updatedCart := cart + [product];
      cart := updatedCart;
      storage := Write(codec, storage, CartKey, updatedCart);
      return Added;
    }

    /** `addToWishlist`: reject a listed id; otherwise append, then write the new wishlist to storage. */
    method AddToWishlist(product: Product) returns (outcome: AddOutcome)
      requires ValidCodec(codec)
      modifies this
      ensures CartState.Step(outcome, State()) == CartState.AddToWishlist(codec, old(State()), product)
      ensures cart == old(cart)
    {
      var isInWishlist := ContainsId(wishlist, product.id);
      if isInWishlist {
        return AlreadyPresent;
      }
      var updatedWishlist := wishlist + [product];
      wishlist := updatedWishlist;
      storage := Write(codec, storage, WishlistKey, updatedWishlist);
      return Added;
    }
  }
}
