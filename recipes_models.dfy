/** The recipe schema (backend/recipes/models.py): ingredients, tags,
    recipes, the recipe-ingredient line table and the favourite and
    shopping-cart tables, with their unique constraints, the tag colour
    validator and the cascade rules. */
module RecipesModels {
  import opened Common

  datatype Ingredient = Ingredient(name: string, measurementUnit: string)

  datatype Tag = Tag(name: string, color: Option<string>, slug: string)

  /** The image is an opaque stored file name. */
  datatype Recipe = Recipe(
    author: UserId,
    name: string,
    image: string,
    text: string,
    cookingTime: int)

  /** A RecipeIngredient row: `amount` of `ingredient` in `recipe`. */
  datatype RecipeLine = RecipeLine(recipe: RecipeId, ingredient: IngredientId, amount: int)

  // ---------------------------------------------------------------------
  // Tag colour

  predicate IsHexDigit(c: char) {
    '0' <= c <= '9' || 'a' <= c <= 'f' || 'A' <= c <= 'F'
  }

  /** The colour regular expression `^#([a-fA-F0-9]{6})`, applied the way
      the regex validator applies it: a search anchored at the start and
      not at the end, so any text after the six digits is accepted. */
  predicate MatchesColorPattern(c: string) {
    |c| >= 7 && c[0] == '#' && forall i :: 1 <= i < 7 ==> IsHexDigit(c[i])
  }

  /** The column is nullable, at most 7 characters long and validated by
      the pattern above. */
  predicate ValidColor(color: Option<string>) {
    color.None? || (|color.value| <= 7 && MatchesColorPattern(color.value))
  }

  /** The length limit closes the pattern's open end: a stored colour is
      exactly '#' followed by six hexadecimal digits. */
  lemma ValidColorIsSevenChars(c: string)
    ensures ValidColor(Some(c)) <==>
      |c| == 7 && c[0] == '#' && forall i :: 1 <= i < 7 ==> IsHexDigit(c[i])
  {
  }

  /** The pattern alone accepts a longer text; only the length limit
      rejects it. */
  lemma PatternAloneIsOpenEnded()
    ensures MatchesColorPattern("#00ff00zz")
    ensures !ValidColor(Some("#00ff00zz"))
  {
    assert |"#00ff00zz"| == 9;
  }

  /** `MatchesColorPattern` reads only the first seven characters, so any
      suffix after a matching prefix is accepted. */
  lemma PatternIgnoresSuffix(c: string, suffix: string)
    requires MatchesColorPattern(c)
    ensures MatchesColorPattern(c + suffix)
  {
    assert forall i :: 1 <= i < 7 ==> (c + suffix)[i] == c[i];
  }

  // ---------------------------------------------------------------------
  // Tag fields under `full_clean`

  const TAG_NAME_MAX_LENGTH: nat := 50
  const TAG_SLUG_MAX_LENGTH: nat := 200

  predicate IsSlugChar(c: char) {
    'a' <= c <= 'z' || 'A' <= c <= 'Z' || '0' <= c <= '9' || c == '-' || c == '_'
  }

  /** The `SlugField` validator `^[-a-zA-Z0-9_]+\Z`. */
  predicate ValidSlug(s: string) {
    |s| >= 1 && forall i :: 0 <= i < |s| ==> IsSlugChar(s[i])
  }

  /** The checks `full_clean` runs on a tag before it is saved: every
      column is non-blank (the colour column is nullable but not blank, so
      a missing colour is refused too), the name and the slug are within
      their length limits, the slug passes the slug validator and the
      colour passes the colour validator and its length limit. */
  predicate CleanTag(tag: Tag) {
    && tag.name != "" && |tag.name| <= TAG_NAME_MAX_LENGTH
    && tag.color.Some? && ValidColor(tag.color)
    && ValidSlug(tag.slug) && |tag.slug| <= TAG_SLUG_MAX_LENGTH
  }

  /** A tag that passes `full_clean` has a colour of exactly '#' and six
      hexadecimal digits and a slug of 1 to 200 slug characters. */
  lemma CleanTagShape(tag: Tag)
    requires CleanTag(tag)
    ensures |tag.color.value| == 7 && tag.color.value[0] == '#'
    ensures 1 <= |tag.slug| <= TAG_SLUG_MAX_LENGTH
    ensures forall i :: 0 <= i < |tag.slug| ==> IsSlugChar(tag.slug[i])
  {
  }

  /** A tag without a colour fits the nullable column but does not pass
      `full_clean`. */
  lemma NullColorRefused(tag: Tag)
    requires tag.color.None?
    ensures ValidColor(tag.color) && !CleanTag(tag)
  {
  }

  // ---------------------------------------------------------------------
  // Unique constraints

  /** `unique_ingredient`: no two ingredients share (name, unit). */
  ghost predicate UniqueIngredients(ingredients: map<IngredientId, Ingredient>) {
    forall a, b :: a in ingredients && b in ingredients && a != b ==>
      ingredients[a] != ingredients[b]
  }

  /** Tag names and slugs are unique columns, and every stored colour is
      null or passes the validator and the length limit. Rows written
      through the ORM skip `full_clean`, so a stored tag need not pass
      `CleanTag`. */
  ghost predicate TagsWellFormed(tags: map<TagId, Tag>) {
    && (forall a, b :: a in tags && b in tags && a != b ==>
          tags[a].name != tags[b].name && tags[a].slug != tags[b].slug)
    && (forall t :: t in tags ==> ValidColor(tags[t].color))
  }

  function LineKey(l: RecipeLine): (RecipeId, IngredientId) {
    (l.recipe, l.ingredient)
  }

  /** `unique_combination`: at most one row per (recipe, ingredient). */
  ghost predicate UniqueLineKeys(lines: seq<RecipeLine>) {
    forall i, j :: 0 <= i < j < |lines| ==> LineKey(lines[i]) != LineKey(lines[j])
  }

  /** Every foreign key of the recipe tables names an existing row. */
  ghost predicate LinesWellFormed(lines: seq<RecipeLine>, recipes: map<RecipeId, Recipe>,
                                  ingredients: map<IngredientId, Ingredient>) {
    && UniqueLineKeys(lines)
    && forall l :: l in lines ==> l.recipe in recipes && l.ingredient in ingredients
  }

  ghost predicate TagLinksWellFormed(links: set<(RecipeId, TagId)>, recipes: map<RecipeId, Recipe>,
                                     tags: map<TagId, Tag>) {
    forall p :: p in links ==> p.0 in recipes && p.1 in tags
  }

  /** Favorite and ShoppingCart rows: existing user, existing recipe. The
      (user, recipe) unique constraint is the set's own. */
  ghost predicate MembershipWellFormed<U>(pairs: set<(UserId, RecipeId)>, users: map<UserId, U>,
                                         recipes: map<RecipeId, Recipe>) {
    forall p :: p in pairs ==> p.0 in users && p.1 in recipes
  }

  // ---------------------------------------------------------------------
  // Reading the line table

  /** The (ingredient, amount) pairs of recipe `r`, in row order. */
  function LinesOf(lines: seq<RecipeLine>, r: RecipeId): seq<(IngredientId, int)>
  {
    if lines == [] then []
    else (if lines[0].recipe == r then [(lines[0].ingredient, lines[0].amount)] else [])
         + LinesOf(lines[1..], r)
  }

  lemma {:induction false} LinesOfAppend(a: seq<RecipeLine>, b: seq<RecipeLine>, r: RecipeId)
    ensures LinesOf(a + b, r) == LinesOf(a, r) + LinesOf(b, r)
  {
    if a == [] {
      assert a + b == b;
    } else {
      assert (a + b)[0] == a[0] && (a + b)[1..] == a[1..] + b;
      LinesOfAppend(a[1..], b, r);
      var head := if a[0].recipe == r then [(a[0].ingredient, a[0].amount)] else [];
      calc {
        LinesOf(a + b, r);
        head + LinesOf(a[1..] + b, r);
        head + (LinesOf(a[1..], r) + LinesOf(b, r));
        (head + LinesOf(a[1..], r)) + LinesOf(b, r);
      }
    }
  }

  /** A recipe that no row names has no lines. */
  lemma {:induction false} LinesOfAbsent(lines: seq<RecipeLine>, r: RecipeId)
    requires forall l :: l in lines ==> l.recipe != r
    ensures LinesOf(lines, r) == []
  {
    if lines != [] {
      assert lines[0] in lines;
      LinesOfAbsent(lines[1..], r);
    }
  }

  // ---------------------------------------------------------------------
  // Cascades

  /** The rows that survive deleting the recipes `goneRecipes` and the
      ingredients `goneIngredients`: both foreign keys of the line table
      are ON DELETE CASCADE. Row order is kept. */
  function KeepLines(lines: seq<RecipeLine>, goneRecipes: set<RecipeId>,
                     goneIngredients: set<IngredientId>): (r: seq<RecipeLine>)
    ensures |r| <= |lines|
    ensures forall l :: l in r <==>
      l in lines && l.recipe !in goneRecipes && l.ingredient !in goneIngredients
  {
    if lines == [] then []
    else
      var rest := KeepLines(lines[1..], goneRecipes, goneIngredients);
      assert forall l :: l in lines <==> l == lines[0] || l in lines[1..];
      if lines[0].recipe !in goneRecipes && lines[0].ingredient !in goneIngredients
      then [lines[0]] + rest
      else rest
  }

  /** Deleting rows never breaks the unique constraint. */
  lemma {:induction false} KeepLinesUnique(lines: seq<RecipeLine>, goneRecipes: set<RecipeId>,
                                           goneIngredients: set<IngredientId>)
    requires UniqueLineKeys(lines)
    ensures UniqueLineKeys(KeepLines(lines, goneRecipes, goneIngredients))
  {
    if lines != [] {
      var tail := lines[1..];
      assert UniqueLineKeys(tail) by {
        forall i, j | 0 <= i < j < |tail| ensures LineKey(tail[i]) != LineKey(tail[j]) {
          assert tail[i] == lines[i + 1] && tail[j] == lines[j + 1];
        }
      }
      KeepLinesUnique(tail, goneRecipes, goneIngredients);
      var rest := KeepLines(tail, goneRecipes, goneIngredients);
      if lines[0].recipe !in goneRecipes && lines[0].ingredient !in goneIngredients {
        var r := [lines[0]] + rest;
        forall i, j | 0 <= i < j < |r| ensures LineKey(r[i]) != LineKey(r[j]) {
          if i == 0 {
            assert r[j] in tail;
            var k :| 0 <= k < |tail| && tail[k] == r[j];
            assert lines[k + 1] == r[j];
          } else {
            assert r[i] == rest[i - 1] && r[j] == rest[j - 1];
          }
        }
      }
    }
  }

  /** Favourite or cart rows left after deleting the users `goneUsers` and
      the recipes `goneRecipes` (both foreign keys cascade). */
  function KeepPairs(pairs: set<(UserId, RecipeId)>, goneUsers: set<UserId>,
                     goneRecipes: set<RecipeId>): (r: set<(UserId, RecipeId)>)
    ensures r <= pairs
    ensures forall p :: p in pairs ==> (p in r <==> p.0 !in goneUsers && p.1 !in goneRecipes)
  {
    set p | p in pairs && p.0 !in goneUsers && p.1 !in goneRecipes
  }

  /** Tag links left after deleting the recipes `goneRecipes`. */
  function KeepTagLinks(links: set<(RecipeId, TagId)>, goneRecipes: set<RecipeId>): (r: set<(RecipeId, TagId)>)
    ensures r <= links
    ensures forall p :: p in links ==> (p in r <==> p.0 !in goneRecipes)
  {
    set p | p in links && p.0 !in goneRecipes
  }

  /** Tag links left after deleting tag `tag`: the link table's tag
      foreign key cascades. */
  function DropTagLinks(links: set<(RecipeId, TagId)>, tag: TagId): (r: set<(RecipeId, TagId)>)
    ensures r <= links
    ensures forall p :: p in links ==> (p in r <==> p.1 != tag)
  {
    set p | p in links && p.1 != tag
  }

  // ---------------------------------------------------------------------
  // update_or_create on the line table

  /** The index of the row for (r, i), if there is one. */
  function FindLine(lines: seq<RecipeLine>, r: RecipeId, i: IngredientId): (k: Option<nat>)
    ensures k.Some? ==> k.value < |lines| && LineKey(lines[k.value]) == (r, i)
    ensures k.None? ==> forall l :: l in lines ==> LineKey(l) != (r, i)
  {
    if lines == [] then None
    else if LineKey(lines[0]) == (r, i) then Some(0)
    else match FindLine(lines[1..], r, i)
      case None => None
      case Some(k) => Some(k + 1)
  }

  /** Set the amount of the row for (r, i), or append such a row. */
  function UpsertLine(lines: seq<RecipeLine>, r: RecipeId, i: IngredientId, amount: int): seq<RecipeLine>
  {
    match FindLine(lines, r, i)
    case Some(k) => lines[k := RecipeLine(r, i, amount)]
    case None => lines + [RecipeLine(r, i, amount)]
  }

  /** Appending a row whose key is new keeps the keys unique. */
  lemma AppendLineUnique(lines: seq<RecipeLine>, x: RecipeLine)
    requires UniqueLineKeys(lines)
    requires forall l :: l in lines ==> LineKey(l) != LineKey(x)
    ensures UniqueLineKeys(lines + [x])
  {
    var s := lines + [x];
    forall i, j | 0 <= i < j < |s| ensures LineKey(s[i]) != LineKey(s[j]) {
      if j == |lines| {
        assert s[i] in lines;
      } else {
        assert s[i] == lines[i] && s[j] == lines[j];
      }
    }
  }

  /** `update_or_create` keeps the unique constraint and leaves exactly
      one row for (r, i), carrying the new amount; every row with another
      key is kept as it was. */
  lemma UpsertLineSpec(lines: seq<RecipeLine>, r: RecipeId, i: IngredientId, amount: int)
    requires UniqueLineKeys(lines)
    ensures var u := UpsertLine(lines, r, i, amount);
      && UniqueLineKeys(u)
      && RecipeLine(r, i, amount) in u
      && (forall l :: l in u && LineKey(l) == (r, i) ==> l.amount == amount)
      && (forall l :: l in lines && LineKey(l) != (r, i) ==> l in u)
      && (forall l :: l in u && LineKey(l) != (r, i) ==> l in lines)
      && (FindLine(lines, r, i).None? ==> u == lines + [RecipeLine(r, i, amount)])
  {
    var u := UpsertLine(lines, r, i, amount);
    match FindLine(lines, r, i)
    case None =>
      AppendLineUnique(lines, RecipeLine(r, i, amount));
    case Some(k) =>
      assert u[k] == RecipeLine(r, i, amount);
      forall l | l in lines && LineKey(l) != (r, i) ensures l in u {
        var m :| 0 <= m < |lines| && lines[m] == l;
        assert u[m] == l;
      }
      forall l | l in u && LineKey(l) != (r, i) ensures l in lines {
        var m :| 0 <= m < |u| && u[m] == l;
        assert lines[m] == l;
      }
      forall a, b | 0 <= a < b < |u| ensures LineKey(u[a]) != LineKey(u[b]) {
        assert LineKey(u[a]) == LineKey(lines[a]) && LineKey(u[b]) == LineKey(lines[b]);
      }
      forall l | l in u && LineKey(l) == (r, i) ensures l.amount == amount {
        var m :| 0 <= m < |u| && u[m] == l;
        if m != k {
          assert false;
        }
      }
  }

  /** Dropping recipe `r`'s rows leaves every other recipe's lines as they
      were. */
  lemma {:induction false} LinesOfKeepOther(lines: seq<RecipeLine>, r: RecipeId, other: RecipeId)
    requires other != r
    ensures LinesOf(KeepLines(lines, {r}, {}), other) == LinesOf(lines, other)
    ensures LinesOf(KeepLines(lines, {r}, {}), r) == []
  {
    if lines != [] {
      LinesOfKeepOther(lines[1..], r, other);
      var rest := KeepLines(lines[1..], {r}, {});
      if lines[0].recipe != r {
        assert KeepLines(lines, {r}, {}) == [lines[0]] + rest;
        assert ([lines[0]] + rest)[1..] == rest;
      }
    }
  }
}
