/**
 * The cart and wishlist state of the product listing as values: the two
 * in-memory lists and browser storage. Each handler of the component is a
 * function from the state before to the state after.
 */
module CartState {
  import opened Wrappers
  import opened Catalog
  import opened Collection
  import opened LocalStorage

  /** The component's `cart` and `wishlist` state together with localStorage. */
  datatype Session = Session(cart: seq<Product>, wishlist: seq<Product>, store: Store)

  /** Both in-memory lists equal what their storage keys parse to. */
  ghost predicate Mirrors(c: Codec, s: Session)
    requires ValidCodec(c)
  {
    Read(c, s.store, CartKey) == Some(s.cart) && Read(c, s.store, WishlistKey) == Some(s.wishlist)
  }

  /** The invariant the two add handlers keep: storage mirrors memory and no
      list holds a product id twice. */
  ghost predicate Consistent(c: Codec, s: Session)
    requires ValidCodec(c)
  {
    Mirrors(c, s) && DistinctIds(s.cart) && DistinctIds(s.wishlist)
  }

  /**
   * The mount effect: both keys are parsed; if both parse, the lists take the
   * stored values, and if either parse throws, both lists are reset to empty.
   * Storage is only read, and reading it never throws here.
   */
  function Load(c: Codec, s: Session): (r: Session)
    requires ValidCodec(c)
    ensures r.store == s.store
    ensures Read(c, s.store, CartKey).Some? && Read(c, s.store, WishlistKey).Some? ==> Mirrors(c, r)
    ensures Read(c, s.store, CartKey).None? || Read(c, s.store, WishlistKey).None? ==> r.cart == [] && r.wishlist == []
  {
    match (Read(c, s.store, CartKey), Read(c, s.store, WishlistKey))
    case (Some(savedCart), Some(savedWishlist)) => Session(savedCart, savedWishlist, s.store)
    case _ => Session([], [], s.store)
  }

  /** With nothing stored under either key, loading yields two empty lists that
      storage already mirrors. */
  lemma LoadFromEmptyStorage(c: Codec, s: Session)
    requires ValidCodec(c)
    requires CartKey !in s.store && WishlistKey !in s.store
    ensures Load(c, s) == Session([], [], s.store)
    ensures Mirrors(c, Load(c, s))
  {
  }

  /** Loading lists whose ids are distinct establishes the invariant. */
  lemma LoadEstablishesConsistent(c: Codec, s: Session, savedCart: seq<Product>, savedWishlist: seq<Product>)
    requires ValidCodec(c)
    requires Read(c, s.store, CartKey) == Some(savedCart) && DistinctIds(savedCart)
    requires Read(c, s.store, WishlistKey) == Some(savedWishlist) && DistinctIds(savedWishlist)
    ensures Consistent(c, Load(c, s))
  {
  }

  /** The result of one add handler on one list and its storage key. */
  datatype Persisted = Persisted(outcome: AddOutcome, items: seq<Product>, store: Store)

  /**
   * The body shared by `addToCart` and `addToWishlist`: a duplicate id is
   * rejected and nothing changes; otherwise the product is appended and the
   * whole new list is written under `key`.
   */
  function AddAndPersist(c: Codec, items: seq<Product>, store: Store, key: string, product: Product): (r: Persisted)
    requires ValidCodec(c)
    ensures r.outcome == AlreadyPresent <==> ContainsId(items, product.id)
    ensures r.outcome == AlreadyPresent ==> r.items == items && r.store == store
    ensures r.outcome == Added ==> r.items == items + [product] && Read(c, r.store, key) == Some(r.items)
    ensures forall k :: k != key ==> SameEntry(store, r.store, k)
    ensures DistinctIds(items) ==> DistinctIds(r.items)
  {
    var added := AddIfAbsent(items, product);
    match added.outcome
    case AlreadyPresent => Persisted(AlreadyPresent, items, store)
    case Added => Persisted(Added, added.items, Write(c, store, key, added.items))
  }

  /** The session after a handler, and what the user was told. */
  datatype Step = Step(outcome: AddOutcome, session: Session)

  /** `addToCart`. */
  function AddToCart(c: Codec, s: Session, product: Product): (r: Step)
    requires ValidCodec(c)
    ensures r.outcome == AlreadyPresent <==> ContainsId(s.cart, product.id)
    ensures r.outcome == AlreadyPresent ==> r.session == s
    ensures r.outcome == Added ==> r.session.cart == s.cart + [product] && Read(c, r.session.store, CartKey) == Some(r.session.cart)
    ensures r.session.wishlist == s.wishlist
    ensures forall k :: k != CartKey ==> SameEntry(s.store, r.session.store, k)
    ensures DistinctIds(s.cart) ==> DistinctIds(r.session.cart)
  {
    var p := AddAndPersist(c, s.cart, s.store, CartKey, product);
    Step(p.outcome, s.(cart := p.items, store := p.store))
  }

  /** `addToWishlist`. */
  function AddToWishlist(c: Codec, s: Session, product: Product): (r: Step)
    requires ValidCodec(c)
    ensures r.outcome == AlreadyPresent <==> ContainsId(s.wishlist, product.id)
    ensures r.outcome == AlreadyPresent ==> r.session == s
    ensures r.outcome == Added ==> r.session.wishlist == s.wishlist + [product] && Read(c, r.session.store, WishlistKey) == Some(r.session.wishlist)
    ensures r.session.cart == s.cart
    ensures forall k :: k != WishlistKey ==> SameEntry(s.store, r.session.store, k)
    ensures DistinctIds(s.wishlist) ==> DistinctIds(r.session.wishlist)
  {
    var p := AddAndPersist(c, s.wishlist, s.store, WishlistKey, product);
    Step(p.outcome, s.(wishlist := p.items, store := p.store))
  }

  /** Clicking "Add to Cart" twice on the same product changes nothing the second time. */
  lemma AddToCartTwice(c: Codec, s: Session, product: Product)
    requires ValidCodec(c)
    ensures var once := AddToCart(c, s, product).session;
            AddToCart(c, once, product) == Step(AlreadyPresent, once)
  {
  }

  /** Clicking "Add to Wishlist" twice on the same product changes nothing the second time. */
  lemma AddToWishlistTwice(c: Codec, s: Session, product: Product)
    requires ValidCodec(c)
    ensures var once := AddToWishlist(c, s, product).session;
            AddToWishlist(c, once, product) == Step(AlreadyPresent, once)
  {
  }

  /** A "Add to Cart" or "Add to Wishlist" button press. */
  datatype Click = CartClick(product: Product) | WishlistClick(product: Product)

  /** The button's `onClick`: each press runs the matching handler. Either way
      only the pressed list can change, and a rejected press changes nothing. */
  function Handle(c: Codec, s: Session, click: Click): (r: Step)
    requires ValidCodec(c)
    ensures r.outcome == AlreadyPresent ==> r.session == s
    ensures click.CartClick? ==> r.session.wishlist == s.wishlist
    ensures click.WishlistClick? ==> r.session.cart == s.cart
  {
    match click
    case CartClick(p) => AddToCart(c, s, p)
    case WishlistClick(p) => AddToWishlist(c, s, p)
  }

  /** A handler keeps storage mirroring memory, whether or not the lists hold
      repeated ids. */
  lemma HandleKeepsMirrors(c: Codec, s: Session, click: Click)
    requires ValidCodec(c)
    requires Mirrors(c, s)
    ensures Mirrors(c, Handle(c, s, click).session)
  {
    var after := Handle(c, s, click).session;
    match click
    case CartClick(p) =>
      assert SameEntry(s.store, after.store, WishlistKey);
      ReadSameEntry(c, s.store, after.store, WishlistKey);
    case WishlistClick(p) =>
      assert SameEntry(s.store, after.store, CartKey);
      ReadSameEntry(c, s.store, after.store, CartKey);
  }

  /** A handler keeps storage mirroring memory and both lists free of duplicates. */
  lemma HandleKeepsConsistent(c: Codec, s: Session, click: Click)
    requires ValidCodec(c)
    requires Consistent(c, s)
    ensures Consistent(c, Handle(c, s, click).session)
  {
    HandleKeepsMirrors(c, s, click);
  }

  /** The state after a run of button presses, each handled to completion. */
  function Run(c: Codec, s: Session, clicks: seq<Click>): (r: Session)
    requires ValidCodec(c)
    decreases |clicks|
  {
    if clicks == [] then s else Run(c, Handle(c, s, clicks[0]).session, clicks[1..])
  }

  /** After any run of presses, storage still mirrors memory. */
  lemma {:induction false} RunKeepsMirrors(c: Codec, s: Session, clicks: seq<Click>)
    requires ValidCodec(c)
    requires Mirrors(c, s)
    ensures Mirrors(c, Run(c, s, clicks))
    decreases |clicks|
  {
    if clicks != [] {
      HandleKeepsMirrors(c, s, clicks[0]);
      RunKeepsMirrors(c, Handle(c, s, clicks[0]).session, clicks[1..]);
    }
  }

  /** After any run of presses, storage still mirrors memory and no id is listed twice. */
  lemma {:induction false} RunKeepsConsistent(c: Codec, s: Session, clicks: seq<Click>)
    requires ValidCodec(c)
    requires Consistent(c, s)
    ensures Consistent(c, Run(c, s, clicks))
    decreases |clicks|
  {
    if clicks != [] {
      HandleKeepsConsistent(c, s, clicks[0]);
      RunKeepsConsistent(c, Handle(c, s, clicks[0]).session, clicks[1..]);
    }
  }

  /** Mounting the component again after a run of presses restores exactly
      the lists the run left in memory, repeated ids included. */
  lemma ReloadAfterRun(c: Codec, s: Session, clicks: seq<Click>)
    requires ValidCodec(c)
    requires Mirrors(c, s)
    ensures Load(c, Run(c, s, clicks)) == Run(c, s, clicks)
  {
    RunKeepsMirrors(c, s, clicks);
  }

  /** A cart stored with a repeated id, as a page that appends without a check
      leaves it, loads as it is: storage mirrors memory but the cart is not
      free of duplicates, and later presses do not repair it. */
  lemma LoadKeepsRepeatedIds(c: Codec, product: Product)
    requires ValidCodec(c)
    ensures var loaded := Load(c, Session([], [], map[CartKey := c.stringify([product, product])]));
            && loaded.cart == [product, product]
            && Mirrors(c, loaded)
            && !Consistent(c, loaded)
  {
    var store := map[CartKey := c.stringify([product, product])];
    assert StoredText(store, CartKey) == c.stringify([product, product]);
    assert [product, product][0].id == [product, product][1].id;
  }

  /**
   * Because a failed parse of either key empties both lists, a malformed
   * wishlist entry makes the next successful "Add to Cart" overwrite a cart
   * that was stored intact: only the new product survives.
   */
  lemma MalformedWishlistDropsSavedCart(c: Codec, saved: seq<Product>, bad: string, product: Product)
    requires ValidCodec(c)
    requires c.parse(bad) == None && bad != ""
    ensures var store := map[CartKey := c.stringify(saved), WishlistKey := bad];
            var loaded := Load(c, Session([], [], store));
            var step := AddToCart(c, loaded, product);
            && loaded.cart == []
            && step.outcome == Added
            && Read(c, step.session.store, CartKey) == Some([product])
  {
  }
}
