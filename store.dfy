/** The relational store as one object whose fields are the tables. The
    ORM's cascades and unique constraints become explicit methods and the
    invariant `Valid`. */
module Store {
  import opened Common
  import opened UsersModels
  import opened RecipesModels

  /** The contents of every table at one moment. */
  datatype Tables = Tables(
    users: map<UserId, User>,
    ingredients: map<IngredientId, Ingredient>,
    tags: map<TagId, Tag>,
    recipes: map<RecipeId, Recipe>,
    recipeTags: set<(RecipeId, TagId)>,
    lines: seq<RecipeLine>,
    favorites: set<(UserId, RecipeId)>,
    carts: set<(UserId, RecipeId)>,
    subscriptions: set<(UserId, UserId)>,
    nextRecipeId: RecipeId)

  /** Every unique constraint holds and no row refers to a missing row. */
  ghost predicate ValidTables(t: Tables) {
    && UniqueAccounts(t.users)
    && RolesValid(t.users)
    && UniqueIngredients(t.ingredients)
    && TagsWellFormed(t.tags)
    && (forall r :: r in t.recipes ==> t.recipes[r].author in t.users && r < t.nextRecipeId)
    && TagLinksWellFormed(t.recipeTags, t.recipes, t.tags)
    && LinesWellFormed(t.lines, t.recipes, t.ingredients)
    && MembershipWellFormed(t.favorites, t.users, t.recipes)
    && MembershipWellFormed(t.carts, t.users, t.recipes)
    && SubscriptionsWellFormed(t.subscriptions, t.users)
  }

  class Database {
    var users: map<UserId, User>
    var ingredients: map<IngredientId, Ingredient>
    var tags: map<TagId, Tag>
    var recipes: map<RecipeId, Recipe>
    /** The many-to-many recipe-tag link table. */
    var recipeTags: set<(RecipeId, TagId)>
    /** The RecipeIngredient table, in primary-key order. */
    var lines: seq<RecipeLine>
    var favorites: set<(UserId, RecipeId)>
    var carts: set<(UserId, RecipeId)>
    /** Subscribe rows, as (user, author). */
    var subscriptions: set<(UserId, UserId)>
    /** The recipe table's auto-increment counter. */
    var nextRecipeId: RecipeId

    ghost function Snapshot(): Tables
      reads this
    {
      Tables(users, ingredients, tags, recipes, recipeTags, lines,
             favorites, carts, subscriptions, nextRecipeId)
    }

    ghost predicate Valid()
      reads this
    {
      ValidTables(Snapshot())
    }

    constructor ()
      ensures Valid()
      ensures Snapshot() == Tables(map[], map[], map[], map[], {}, [], {}, {}, {}, 1)
    {
      users, ingredients, tags, recipes := map[], map[], map[], map[];
      recipeTags, lines, favorites, carts, subscriptions := {}, [], {}, {}, {};
      nextRecipeId := 1;
    }

    /** Insert an ingredient; a (name, unit) pair that is already present
        violates `unique_ingredient` and nothing is written. */
    method AddIngredient(id: IngredientId, ing: Ingredient) returns (ok: bool)
      requires Valid()
      modifies this
      ensures Valid()
      ensures ok <==> id !in old(ingredients) && ing !in old(ingredients).Values
      ensures Snapshot() == if ok then old(Snapshot()).(ingredients := old(ingredients)[id := ing])
                            else old(Snapshot())
    {
      ok := id !in ingredients && ing !in ingredients.Values;
      if ok {
        ingredients := ingredients[id := ing];
      }
    }

    /** Insert a tag through `full_clean`: a tag whose fields fail their
        checks, or whose name or slug is taken, writes nothing. */
    method AddTag(id: TagId, tag: Tag) returns (ok: bool)
      requires Valid()
      modifies this
      ensures Valid()
      ensures ok <==> (id !in old(tags) && CleanTag(tag) &&
        forall t :: t in old(tags) ==> old(tags)[t].name != tag.name && old(tags)[t].slug != tag.slug)
      ensures Snapshot() == if ok then old(Snapshot()).(tags := old(tags)[id := tag])
                            else old(Snapshot())
    {
      ok := id !in tags && CleanTag(tag) &&
        forall t | t in tags :: tags[t].name != tag.name && tags[t].slug != tag.slug;
      if ok {
        tags := tags[id := tag];
      }
    }

    /** Insert an account; a repeated email or username, or a role that
        is not one of the choices, writes nothing. */
    method AddUser(id: UserId, u: User) returns (ok: bool)
      requires Valid()
      modifies this
      ensures Valid()
      ensures ok <==> id !in old(users) && Registrable(old(users), u) && u.role in ROLES
      ensures Snapshot() == if ok then old(Snapshot()).(users := old(users)[id := u])
                            else old(Snapshot())
    {
      ok := id !in users && Registrable(users, u) && u.role in ROLES;
      if ok {
        RegisterKeepsUnique(users, id, u);
        users := users[id := u];
      }
    }

    /** `RecipeIngredient.objects.update_or_create(recipe=r,
        ingredient_id=i, defaults={'amount': amount})`: look the row up by
        its key, then update its amount or insert it. */
    method UpdateOrCreateLine(r: RecipeId, i: IngredientId, amount: int) returns (created: bool)
      requires Valid() && r in recipes && i in ingredients
      modifies this
      ensures Valid()
      ensures created <==> FindLine(old(lines), r, i).None?
      ensures Snapshot() == old(Snapshot()).(lines := UpsertLine(old(lines), r, i, amount))
    {
      UpsertLineSpec(lines, r, i, amount);
      var k := FindLine(lines, r, i);
      if k.Some? {
        lines := lines[k.value := RecipeLine(r, i, amount)];
        created := false;
      } else {
        lines := lines + [RecipeLine(r, i, amount)];
        created := true;
      }
    }

    /** Delete a recipe: its lines, tag links, favourite rows and cart rows
        go with it. */
    method DeleteRecipe(r: RecipeId)
      requires Valid() && r in recipes
      modifies this
      ensures Valid()
      ensures Snapshot() == WithoutRecipe(old(Snapshot()), r)
    {
      ghost var t := Snapshot();
      WithoutRecipeKeepsValid(t, r);
      recipes := recipes - {r};
      lines := KeepLines(lines, {r}, {});
      recipeTags := KeepTagLinks(recipeTags, {r});
      favorites := KeepPairs(favorites, {}, {r});
      carts := KeepPairs(carts, {}, {r});
    }

    /** Delete an ingredient: the lines that use it go with it. */
    method DeleteIngredient(i: IngredientId)
      requires Valid() && i in ingredients
      modifies this
      ensures Valid()
      ensures Snapshot() == WithoutIngredient(old(Snapshot()), i)
    {
      ghost var t := Snapshot();
      WithoutIngredientKeepsValid(t, i);
      ingredients := ingredients - {i};
      lines := KeepLines(lines, {}, {i});
    }

    /** Delete a tag: its links to recipes go with it. */
    method DeleteTag(g: TagId)
      requires Valid() && g in tags
      modifies this
      ensures Valid()
      ensures Snapshot() == WithoutTag(old(Snapshot()), g)
    {
      ghost var t := Snapshot();
      WithoutTagKeepsValid(t, g);
      tags := tags - {g};
      recipeTags := DropTagLinks(recipeTags, g);
    }

    /** Delete an account: the recipes it authored (with their own
        cascades), its favourite and cart rows and every subscription in
        which it is either end go with it. */
    method DeleteUser(u: UserId)
      requires Valid() && u in users
      modifies this
      ensures Valid()
      ensures Snapshot() == WithoutUser(old(Snapshot()), u)
    {
      ghost var t := Snapshot();
      WithoutUserKeepsValid(t, u);
      var gone := AuthoredBy(recipes, u);
      users, recipes, lines := users - {u}, recipes - gone, KeepLines(lines, gone, {});
      recipeTags := KeepTagLinks(recipeTags, gone);
      favorites, carts := KeepPairs(favorites, {u}, gone), KeepPairs(carts, {u}, gone);
      subscriptions := EdgesWithoutUser(subscriptions, u);
      assert Snapshot() == WithoutUser(t, u);
    }
  }

  /** The recipes `u` authored. */
  function AuthoredBy(recipes: map<RecipeId, Recipe>, u: UserId): (gone: set<RecipeId>)
    ensures forall r :: r in gone <==> r in recipes && recipes[r].author == u
  {
    set r | r in recipes && recipes[r].author == u
  }

  /** The tables after deleting recipe `r`: its lines, tag links,
      favourite rows and cart rows go with it; nothing else changes. */
  function WithoutRecipe(t: Tables, r: RecipeId): (t': Tables)
    ensures r !in t'.recipes
    ensures forall l :: l in t'.lines ==> l.recipe != r
    ensures forall p :: p in t'.recipeTags ==> p.0 != r
    ensures forall p :: p in t'.favorites + t'.carts ==> p.1 != r
    ensures forall l :: l in t'.lines <==> l in t.lines && l.recipe != r
    ensures t'.recipes == t.recipes - {r}
    ensures forall p :: p in t'.recipeTags <==> p in t.recipeTags && p.0 != r
    ensures forall p :: p in t'.favorites <==> p in t.favorites && p.1 != r
    ensures forall p :: p in t'.carts <==> p in t.carts && p.1 != r
    ensures t'.users == t.users && t'.ingredients == t.ingredients && t'.tags == t.tags
    ensures t'.subscriptions == t.subscriptions && t'.nextRecipeId == t.nextRecipeId
  {
    t.(recipes := t.recipes - {r},
       lines := KeepLines(t.lines, {r}, {}),
       recipeTags := KeepTagLinks(t.recipeTags, {r}),
       favorites := KeepPairs(t.favorites, {}, {r}),
       carts := KeepPairs(t.carts, {}, {r}))
  }

  lemma WithoutRecipeKeepsValid(t: Tables, r: RecipeId)
    requires ValidTables(t)
    ensures ValidTables(WithoutRecipe(t, r))
  {
    KeepLinesUnique(t.lines, {r}, {});
  }

  /** The tables after deleting ingredient `i`: the lines that use it go
      with it; nothing else changes. */
  function WithoutIngredient(t: Tables, i: IngredientId): (t': Tables)
    ensures t'.ingredients == t.ingredients - {i}
    ensures forall l :: l in t'.lines ==> l.ingredient != i
    ensures forall l :: l in t'.lines <==> l in t.lines && l.ingredient != i
    ensures t'.recipes == t.recipes && t'.favorites == t.favorites && t'.carts == t.carts
    ensures t'.users == t.users && t'.tags == t.tags && t'.recipeTags == t.recipeTags
    ensures t'.subscriptions == t.subscriptions && t'.nextRecipeId == t.nextRecipeId
  {
    t.(ingredients := t.ingredients - {i},
       lines := KeepLines(t.lines, {}, {i}))
  }

  lemma WithoutIngredientKeepsValid(t: Tables, i: IngredientId)
    requires ValidTables(t)
    ensures ValidTables(WithoutIngredient(t, i))
  {
    KeepLinesUnique(t.lines, {}, {i});
  }

  /** The tables after deleting tag `g`: the links that name it go with
      it; no recipe is deleted and no other link changes. */
  function WithoutTag(t: Tables, g: TagId): (t': Tables)
    ensures t'.tags == t.tags - {g}
    ensures forall p :: p in t'.recipeTags ==> p.1 != g
    ensures forall p :: p in t'.recipeTags <==> p in t.recipeTags && p.1 != g
    ensures t'.recipes == t.recipes && t'.lines == t.lines && t'.users == t.users
    ensures t'.ingredients == t.ingredients && t'.nextRecipeId == t.nextRecipeId
    ensures t'.favorites == t.favorites && t'.carts == t.carts && t'.subscriptions == t.subscriptions
  {
    t.(tags := t.tags - {g}, recipeTags := DropTagLinks(t.recipeTags, g))
  }

  lemma WithoutTagKeepsValid(t: Tables, g: TagId)
    requires ValidTables(t)
    ensures ValidTables(WithoutTag(t, g))
  {
  }

  /** The tables after deleting account `u` with every cascade: its
      recipes (and their lines, tag links, favourite and cart rows), its own
      favourite and cart rows, and the subscriptions at either end. */
  function WithoutUser(t: Tables, u: UserId): (t': Tables)
    ensures u !in t'.users
    ensures forall r :: r in t'.recipes ==> t'.recipes[r].author != u
    ensures forall p :: p in t'.favorites + t'.carts ==> p.0 != u
    ensures forall e :: e in t'.subscriptions ==> e.0 != u && e.1 != u
    ensures t'.users == t.users - {u}
    ensures forall r :: r in t'.recipes <==> r in t.recipes && t.recipes[r].author != u
    ensures forall r :: r in t'.recipes ==> t'.recipes[r] == t.recipes[r]
    ensures var gone := AuthoredBy(t.recipes, u);
      && (forall l :: l in t'.lines <==> l in t.lines && l.recipe !in gone)
      && (forall p :: p in t'.recipeTags <==> p in t.recipeTags && p.0 !in gone)
      && (forall p :: p in t'.favorites <==> p in t.favorites && p.0 != u && p.1 !in gone)
      && (forall p :: p in t'.carts <==> p in t.carts && p.0 != u && p.1 !in gone)
    ensures forall e :: e in t'.subscriptions <==> e in t.subscriptions && e.0 != u && e.1 != u
    ensures t'.ingredients == t.ingredients && t'.tags == t.tags && t'.nextRecipeId == t.nextRecipeId
  {
    var gone := AuthoredBy(t.recipes, u);
    t.(users := t.users - {u},
       recipes := t.recipes - gone,
       lines := KeepLines(t.lines, gone, {}),
       recipeTags := KeepTagLinks(t.recipeTags, gone),
       favorites := KeepPairs(t.favorites, {u}, gone),
       carts := KeepPairs(t.carts, {u}, gone),
       subscriptions := EdgesWithoutUser(t.subscriptions, u))
  }

  /** The cascades leave no row pointing at a deleted one. */
  lemma WithoutUserKeepsValid(t: Tables, u: UserId)
    requires ValidTables(t)
    ensures ValidTables(WithoutUser(t, u))
  {
    var t' := WithoutUser(t, u);
    var gone := AuthoredBy(t.recipes, u);
    KeepLinesUnique(t.lines, gone, {});
    assert forall r :: r in t'.recipes ==> t'.recipes[r].author in t'.users && r < t'.nextRecipeId;
    assert LinesWellFormed(t'.lines, t'.recipes, t'.ingredients);
    assert MembershipWellFormed(t'.favorites, t'.users, t'.recipes);
    assert MembershipWellFormed(t'.carts, t'.users, t'.recipes);
  }
}
