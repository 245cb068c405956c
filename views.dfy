/** The membership endpoints of backend/api/views.py: adding and removing
    a recipe from the favourites or the shopping cart, and following or
    unfollowing an author. */
module Views {
  import opened Common
  import opened UsersModels
  import opened RecipesModels
  import opened Store
  import opened Permissions
  import opened Serializers

  /** The two request methods these actions accept. */
  datatype Verb = Post | Delete

  /** Which (user, recipe) table a toggle works on. */
  datatype Membership = Favorites | Carts

  function TableOf(t: Tables, m: Membership): set<(UserId, RecipeId)> {
    match m
    case Favorites => t.favorites
    case Carts => t.carts
  }

  // ---------------------------------------------------------------------
  // Favourite and shopping-cart toggles

  /** `toggle_favorite_or_cart` on one table and one pair: POST inserts an
      absent pair (201) and refuses a present one (400); DELETE removes the
      pair whether or not it is there (204). */
  function Toggle(table: set<(UserId, RecipeId)>, verb: Verb, pair: (UserId, RecipeId))
    : (r: (Status, set<(UserId, RecipeId)>))
    ensures forall p :: p != pair ==> (p in r.1 <==> p in table)
    ensures verb.Post? ==> pair in r.1
    ensures verb.Delete? ==> pair !in r.1 && r.0 == NoContent204
    ensures verb.Post? ==> (r.0 == Created201 <==> pair !in table)
    ensures verb.Post? ==> (r.0 == BadRequest400 <==> pair in table)
    ensures r.0 == BadRequest400 ==> r.1 == table
  {
    match verb
    case Post =>
      if pair !in table then (Created201, table + {pair})
      else (BadRequest400, table)
    case Delete => (NoContent204, table - {pair})
  }

  /** A second POST of the same pair is refused and changes nothing. */
  lemma PostTwiceRefused(table: set<(UserId, RecipeId)>, pair: (UserId, RecipeId))
    ensures var first := Toggle(table, Post, pair);
      Toggle(first.1, Post, pair) == (BadRequest400, first.1)
  {
  }

  /** DELETE is idempotent: repeating it answers 204 again and leaves the
      same table. */
  lemma DeleteIdempotent(table: set<(UserId, RecipeId)>, pair: (UserId, RecipeId))
    ensures var first := Toggle(table, Delete, pair);
      Toggle(first.1, Delete, pair) == first
  {
    assert table - {pair} - {pair} == table - {pair};
  }

  /** POST then DELETE on an absent pair restores the table. */
  lemma PostThenDeleteRestores(table: set<(UserId, RecipeId)>, pair: (UserId, RecipeId))
    requires pair !in table
    ensures Toggle(Toggle(table, Post, pair).1, Delete, pair).1 == table
  {
  }

  /** The favourite and cart actions of `RecipeViewSet` for user `user`
      (authenticated, so an account) on recipe `recipe`: a missing recipe
      is 404 and changes nothing; otherwise the chosen table moves as
      `Toggle` says and every other table stays as it was. */
  method ToggleFavoriteOrCart(db: Database, m: Membership, verb: Verb, user: UserId, recipe: RecipeId)
    returns (status: Status)
    requires db.Valid() && user in db.users
    modifies db
    ensures db.Valid()
    ensures recipe !in old(db.recipes) ==> status == NotFound404 && db.Snapshot() == old(db.Snapshot())
    ensures recipe in old(db.recipes) ==>
      var r := Toggle(TableOf(old(db.Snapshot()), m), verb, (user, recipe));
      && status == r.0
      && db.Snapshot() == (match m
                           case Favorites => old(db.Snapshot()).(favorites := r.1)
                           case Carts => old(db.Snapshot()).(carts := r.1))
  {
    // get_object_or_404(Recipe, id=pk)
    if recipe !in db.recipes {
      return NotFound404;
    }
    var r: (Status, set<(UserId, RecipeId)>);
    match m {
      case Favorites =>
        r := Toggle(db.favorites, verb, (user, recipe));
        db.favorites := r.1;
      case Carts =>
        r := Toggle(db.carts, verb, (user, recipe));
        db.carts := r.1;
    }
    status := r.0;
  }

  /** After a toggle the requester's flag on the recipe reads what the verb
      asked for, and the flag of the other table is unchanged. */
  lemma FlagsAfterToggle(t: Tables, verb: Verb, user: UserId, recipe: RecipeId, isStaff: bool)
    ensures var fav := t.(favorites := Toggle(t.favorites, verb, (user, recipe)).1);
      && IsFavorited(fav, Authenticated(user, isStaff), recipe) == verb.Post?
      && IsInShoppingCart(fav, Authenticated(user, isStaff), recipe)
         == IsInShoppingCart(t, Authenticated(user, isStaff), recipe)
    ensures var cart := t.(carts := Toggle(t.carts, verb, (user, recipe)).1);
      && IsInShoppingCart(cart, Authenticated(user, isStaff), recipe) == verb.Post?
      && IsFavorited(cart, Authenticated(user, isStaff), recipe)
         == IsFavorited(t, Authenticated(user, isStaff), recipe)
  {
  }

  // ---------------------------------------------------------------------
  // Subscriptions

  /** `UserViewSet.subscribe` for requester `user` and author `author`,
      with the serializer's self-subscription guard result `rejected`: a
      missing author is 404; POST answers 400 when the guard rejects, 200
      when the edge exists (get_or_create finds it) and 201 when it is
      inserted; DELETE answers 404 when the edge is absent and 204 when it
      is removed. */
  function SubscribeWith(rejected: bool, edges: set<(UserId, UserId)>, authorExists: bool,
                         verb: Verb, user: UserId, author: UserId)
    : (r: (Status, set<(UserId, UserId)>))
    ensures forall e :: e != (user, author) ==> (e in r.1 <==> e in edges)
    ensures !authorExists ==> r == (NotFound404, edges)
    ensures authorExists && verb.Post? ==>
      r == (if rejected then (BadRequest400, edges)
            else if (user, author) in edges then (Ok200, edges)
            else (Created201, edges + {(user, author)}))
    ensures authorExists && verb.Delete? ==>
      r == (if (user, author) in edges then (NoContent204, edges - {(user, author)})
            else (NotFound404, edges))
  {
    if !authorExists then (NotFound404, edges)
    else match verb
      case Post =>
        if rejected then (BadRequest400, edges)
        else if (user, author) in edges then (Ok200, edges)
        else (Created201, edges + {(user, author)})
      case Delete =>
        if (user, author) in edges then (NoContent204, edges - {(user, author)})
        else (NotFound404, edges)
  }

  /** The endpoint with the guard the serializer intends. */
  function Subscribe(edges: set<(UserId, UserId)>, authorExists: bool, verb: Verb,
                     user: UserId, author: UserId): (r: (Status, set<(UserId, UserId)>))
    ensures authorExists && verb.Post? && user == author ==> r == (BadRequest400, edges)
    ensures (user, user) in r.1 ==> (user, user) in edges
  {
    SubscribeWith(SelfGuard(user, author), edges, authorExists, verb, user, author)
  }

  /** The endpoint as written: the guard compares the requester with the
      (empty) validated field data. */
  function SubscribeAsWritten(edges: set<(UserId, UserId)>, authorExists: bool, verb: Verb,
                              user: UserId, author: UserId): (r: (Status, set<(UserId, UserId)>))
    ensures r == SubscribeWith(false, edges, authorExists, verb, user, author)
  {
    SubscribeWith(SelfGuardAsWritten(user, map[]), edges, authorExists, verb, user, author)
  }

  /** As written, an account can follow itself: POST on its own id goes
      through the guard and inserts the self edge with 201. The intended
      guard answers 400 and inserts nothing. */
  lemma SelfSubscribeSlipsThrough(u: UserId)
    ensures SubscribeAsWritten({}, true, Post, u, u) == (Created201, {(u, u)})
    ensures Subscribe({}, true, Post, u, u) == (BadRequest400, {})
  {
    var none: set<(UserId, UserId)> := {};
    assert none + {(u, u)} == {(u, u)};
  }

  /** With the intended guard, no sequence of requests creates a self
      edge: the set of self edges never grows. */
  lemma NoSelfEdgeCreated(edges: set<(UserId, UserId)>, authorExists: bool, verb: Verb,
                          user: UserId, author: UserId)
    ensures forall x :: (x, x) in Subscribe(edges, authorExists, verb, user, author).1 ==> (x, x) in edges
  {
  }

  /** A repeated POST finds the edge and answers 200 without a second row;
      subscriptions are directed, so following b leaves b's own edge
      towards a untouched. */
  lemma SubscribeTwice(edges: set<(UserId, UserId)>, a: UserId, b: UserId)
    requires a != b && (a, b) !in edges
    ensures var first := Subscribe(edges, true, Post, a, b);
      && first == (Created201, edges + {(a, b)})
      && Subscribe(first.1, true, Post, a, b) == (Ok200, first.1)
      && ((b, a) in first.1 <==> (b, a) in edges)
  {
  }

  /** DELETE after DELETE: the second one finds no edge and answers 404. */
  lemma UnsubscribeTwice(edges: set<(UserId, UserId)>, a: UserId, b: UserId)
    requires (a, b) in edges
    ensures var first := Subscribe(edges, true, Delete, a, b);
      && first == (NoContent204, edges - {(a, b)})
      && Subscribe(first.1, true, Delete, a, b) == (NotFound404, first.1)
  {
  }

  /** The subscribe action for the authenticated account `user` on the
      account id `author`: the subscription table moves as `Subscribe`
      says and nothing else changes. */
  method SubscribeAction(db: Database, verb: Verb, user: UserId, author: UserId)
    returns (status: Status)
    requires db.Valid() && user in db.users
    modifies db
    ensures db.Valid()
    ensures var r := Subscribe(old(db.subscriptions), author in old(db.users), verb, user, author);
      && status == r.0
      && db.Snapshot() == old(db.Snapshot()).(subscriptions := r.1)
  {
    // get_object_or_404(User, id=pk)
    if author !in db.users {
      return NotFound404;
    }
    // serializer.is_valid(raise_exception=True)
    if verb.Post? && SelfGuard(user, author) {
      return BadRequest400;
    }
    var edge := (user, author);
    if verb.Post? {
      // Subscribe.objects.get_or_create(user=..., author=...)
      if edge in db.subscriptions {
        status := Ok200;
      } else {
        db.subscriptions := db.subscriptions + {edge};
        status := Created201;
      }
    } else {
      // get_object_or_404(Subscribe, ...).delete()
      if edge !in db.subscriptions {
        return NotFound404;
      }
      db.subscriptions := db.subscriptions - {edge};
      status := NoContent204;
    }
  }
}
