/** The serializer layer (backend/api/serializers.py): recipe write
    validation, the create and update transactions, the password change,
    the viewer-relative flags and the author listing of a subscription. */
module Serializers {
  import opened Common
  import opened UsersModels
  import opened RecipesModels
  import opened Store
  import opened Permissions

  // ---------------------------------------------------------------------
  // Recipe write input

  /** One submitted `{"id": .., "amount": ..}` item. */
  datatype IngredientEntry = IngredientEntry(id: IngredientId, amount: int)

  /** The submitted recipe fields as they arrive in the request body.
      `None` is a field that was not sent. */
  datatype RecipeInput = RecipeInput(
    name: Option<string>,
    text: Option<string>,
    image: Option<string>,
    cookingTime: Option<int>,
    tags: Option<seq<TagId>>,
    ingredients: Option<seq<IngredientEntry>>)

  /** The writable fields of `RecipeCreateSerializer`. */
  datatype Field = Name | Text | Image | CookingTime | Tags | Ingredients

  datatype WriteError =
    | InvalidFields(fields: set<Field>)  // the field pass: one entry per failing field
    | MissingCookingTime
    | NoTags
    | NoIngredients
    | DuplicateIngredients
    | UnknownIngredient                  // a line's foreign key names no ingredient
    | AnonymousAuthor                    // `create` with an anonymous requester as author

  // ---------------------------------------------------------------------
  // Whitespace trimming of character fields

  /** The characters `str.strip()` removes, restricted to ASCII: space,
      tab, line feed, vertical tab, form feed, carriage return and the
      four information separators. */
  predicate IsSpace(c: char) {
    c == ' ' || 9 <= c as int <= 13 || 28 <= c as int <= 31
  }

  predicate AllSpace(s: string) {
    forall k :: 0 <= k < |s| ==> IsSpace(s[k])
  }

  /** How many characters `s.lstrip()` cuts. */
  function LeadingSpaces(s: string): (n: nat)
    ensures n <= |s|
    ensures forall k :: 0 <= k < n ==> IsSpace(s[k])
    ensures n < |s| ==> !IsSpace(s[n])
  {
    if s != [] && IsSpace(s[0]) then
      var m := LeadingSpaces(s[1..]);
      assert forall k :: 1 <= k < m + 1 ==> s[k] == s[1..][k - 1];
      1 + m
    else 0
  }

  /** How many characters `s.rstrip()` cuts. */
  function TrailingSpaces(s: string): (n: nat)
    ensures n <= |s|
    ensures forall k :: |s| - n <= k < |s| ==> IsSpace(s[k])
    ensures n < |s| ==> !IsSpace(s[|s| - n - 1])
  {
    if s != [] && IsSpace(s[|s| - 1]) then
      var m := TrailingSpaces(s[..|s| - 1]);
      assert forall k :: |s| - 1 - m <= k < |s| - 1 ==> s[k] == s[..|s| - 1][k];
      1 + m
    else 0
  }

  /** `s.strip()`: what DRF's `CharField` keeps of a submitted value,
      the slice of the input between its leading and its trailing
      whitespace. */
  function Strip(s: string): (r: string)
    ensures var i := LeadingSpaces(s);
      && i + |r| <= |s| && r == s[i..i + |r|]
      && (forall k :: 0 <= k < i ==> IsSpace(s[k]))
      && (forall k :: i + |r| <= k < |s| ==> IsSpace(s[k]))
  {
    var i := LeadingSpaces(s);
    var rest := s[i..];
    var j := |s| - TrailingSpaces(rest);
    assert forall k :: j <= k < |s| ==> s[k] == rest[k - i];
    s[i..j]
  }

  /** A trimmed value neither starts nor ends with whitespace, and it is
      empty exactly when the whole input was whitespace. */
  lemma StripEnds(s: string)
    ensures var r := Strip(s); r != [] ==> !IsSpace(r[0]) && !IsSpace(r[|r| - 1])
    ensures Strip(s) == [] <==> AllSpace(s)
  {
    var i := LeadingSpaces(s);
    var rest := s[i..];
    var n := TrailingSpaces(rest);
    var r := Strip(s);
    if r != [] {
      assert r[0] == s[i];
      assert r[|r| - 1] == rest[|rest| - n - 1];
    }
  }

  /** Trimming an already trimmed value changes nothing. */
  lemma StripIdempotent(s: string)
    ensures Strip(Strip(s)) == Strip(s)
  {
    var r := Strip(s);
    StripEnds(s);
    if r != [] {
      assert LeadingSpaces(r) == 0;
      assert r[0..] == r;
      assert TrailingSpaces(r) == 0;
    }
  }

  function StripField(v: Option<string>): (r: Option<string>)
    ensures r.Some? <==> v.Some?
    ensures v.Some? ==> r.value == Strip(v.value)
  {
    match v
    case None => None
    case Some(s) => Some(Strip(s))
  }

  lemma BlankFieldIsAllSpace(v: Option<string>)
    ensures v.Some? ==> (Strip(v.value) == "" <==> AllSpace(v.value))
  {
    if v.Some? {
      StripEnds(v.value);
    }
  }

  /** NUL is not whitespace, so trimming neither removes nor adds one. */
  lemma NulSurvivesStrip(v: Option<string>)
    ensures v.Some? ==> ('\0' in Strip(v.value) <==> '\0' in v.value)
  {
    if v.Some? {
      var s := v.value;
      var i := LeadingSpaces(s);
      var r := Strip(s);
      if '\0' in s {
        var k :| 0 <= k < |s| && s[k] == '\0';
        assert i <= k < i + |r|;
        assert r[k - i] == '\0';
      }
    }
  }

  // ---------------------------------------------------------------------
  // The field pass of `is_valid` and `validate`

  /** `Recipe.name`'s `max_length`, which the serializer field inherits. */
  const NAME_MAX_LENGTH: nat := 200

  /** The checks DRF's `CharField` runs on a submitted value: it is
      trimmed first, a value that is empty once trimmed is blank, and the
      trimmed value must keep to the length limit, when there is one, and
      hold no NUL character. */
  predicate CharValueFails(s: string, maxLength: Option<nat>) {
    var v := Strip(s);
    v == "" || (maxLength.Some? && |v| > maxLength.value) || '\0' in v
  }

  /** A character field that is required on a full write and otherwise
      checked as `CharValueFails` says. */
  predicate CharFieldFails(v: Option<string>, partial: bool, maxLength: Option<nat>) {
    match v
    case None => !partial
    case Some(s) => CharValueFails(s, maxLength)
  }

  /** The fields whose own checks fail, as the keys of the error mapping
      `is_valid` raises before `validate` runs: a missing required field
      on a full write, a blank or overlong name, a blank text, a tag id
      that names no tag. On a partial write (PATCH) nothing is required. */
  function FieldErrors(tags: map<TagId, Tag>, attrs: RecipeInput, partial: bool): set<Field> {
    (if CharFieldFails(attrs.name, partial, Some(NAME_MAX_LENGTH)) then {Name} else {})
    + (if CharFieldFails(attrs.text, partial, None) then {Text} else {})
    + (if attrs.image.None? && !partial then {Image} else {})
    + (if attrs.cookingTime.None? && !partial then {CookingTime} else {})
    + (if (attrs.tags.None? && !partial) || (attrs.tags.Some? && exists t :: t in attrs.tags.value && t !in tags)
       then {Tags} else {})
    + (if attrs.ingredients.None? && !partial then {Ingredients} else {})
  }

  /** Which field fails, and why: a required field missing on a full
      write, a name that is all whitespace, longer than the limit once
      trimmed or holds a NUL character, a text that is all whitespace or
      holds a NUL character, a tag id naming no tag. */
  lemma FieldErrorsMeaning(tags: map<TagId, Tag>, attrs: RecipeInput, partial: bool)
    ensures var errs := FieldErrors(tags, attrs, partial);
      && (Name in errs <==> ((attrs.name.None? && !partial)
           || (attrs.name.Some? && (AllSpace(attrs.name.value) || |Strip(attrs.name.value)| > NAME_MAX_LENGTH
                                    || '\0' in attrs.name.value))))
      && (Text in errs <==> ((attrs.text.None? && !partial)
           || (attrs.text.Some? && (AllSpace(attrs.text.value) || '\0' in attrs.text.value))))
      && (Image in errs <==> attrs.image.None? && !partial)
      && (CookingTime in errs <==> attrs.cookingTime.None? && !partial)
      && (Tags in errs <==> ((attrs.tags.None? && !partial)
           || (attrs.tags.Some? && exists t :: t in attrs.tags.value && t !in tags)))
      && (Ingredients in errs <==> attrs.ingredients.None? && !partial)
  {
    BlankFieldIsAllSpace(attrs.name);
    BlankFieldIsAllSpace(attrs.text);
    NulSurvivesStrip(attrs.name);
    NulSurvivesStrip(attrs.text);
  }

  /** The validated data the field pass hands on: character fields come
      back trimmed, everything else as sent. */
  function Cleaned(attrs: RecipeInput): (v: RecipeInput)
    ensures v.name == StripField(attrs.name) && v.text == StripField(attrs.text)
    ensures v.image == attrs.image && v.cookingTime == attrs.cookingTime
    ensures v.tags == attrs.tags && v.ingredients == attrs.ingredients
  {
    attrs.(name := StripField(attrs.name), text := StripField(attrs.text))
  }

  /** A list field's value as `attrs.get(...)` sees it: absent reads as an
      empty list, since both are falsy. */
  function OrEmpty<T>(xs: Option<seq<T>>): (r: seq<T>)
    ensures xs.Some? ==> r == xs.value
    ensures xs.None? ==> r == []
  {
    match xs
    case None => []
    case Some(v) => v
  }

  function IngredientIds(entries: seq<IngredientEntry>): (ids: seq<IngredientId>)
    ensures |ids| == |entries|
    ensures forall k :: 0 <= k < |entries| ==> ids[k] == entries[k].id
  {
    seq(|entries|, k requires 0 <= k < |entries| => entries[k].id)
  }

  /** `RecipeCreateSerializer.validate` on the validated data: cooking
      time present, at least one tag, at least one ingredient, and no
      ingredient id twice (tested as `len(ids) != len(set(ids))`). On
      acceptance the data comes back as it was. */
  function Validate(attrs: RecipeInput): (r: Result<RecipeInput, WriteError>)
    ensures r.Success? ==> r.value == attrs
    ensures r.Success? <==>
      && attrs.cookingTime.Some?
      && OrEmpty(attrs.tags) != []
      && OrEmpty(attrs.ingredients) != []
      && Distinct(IngredientIds(attrs.ingredients.value))
    ensures attrs.cookingTime.None? ==> r == Failure(MissingCookingTime)
    ensures attrs.cookingTime.Some? && OrEmpty(attrs.tags) == [] ==> r == Failure(NoTags)
    ensures attrs.cookingTime.Some? && OrEmpty(attrs.tags) != [] && OrEmpty(attrs.ingredients) == [] ==>
      r == Failure(NoIngredients)
    ensures r == Failure(DuplicateIngredients) <==>
      && attrs.cookingTime.Some?
      && OrEmpty(attrs.tags) != []
      && OrEmpty(attrs.ingredients) != []
      && !Distinct(IngredientIds(attrs.ingredients.value))
  {
    if attrs.cookingTime.None? then Failure(MissingCookingTime)
    else if OrEmpty(attrs.tags) == [] then Failure(NoTags)
    else if OrEmpty(attrs.ingredients) == [] then Failure(NoIngredients)
    else
      var ids := IngredientIds(attrs.ingredients.value);
      DistinctIffSetSizeIsLength(ids);
      if |ids| != |ToSet(ids)| then Failure(DuplicateIngredients) else Success(attrs)
  }

  /** `serializer.is_valid(raise_exception=True)`: the field pass, whose
      errors are all reported together and stop `validate` from running,
      then `validate` on the trimmed data. A request that passes carries
      every field a write needs, a stored name that is neither blank nor
      longer than the limit, and only existing tags. */
  function CheckRequest(tags: map<TagId, Tag>, attrs: RecipeInput, partial: bool): (r: Result<RecipeInput, WriteError>)
    ensures r.Success? <==> FieldErrors(tags, attrs, partial) == {} && Validate(Cleaned(attrs)).Success?
    ensures FieldErrors(tags, attrs, partial) != {} ==> r == Failure(InvalidFields(FieldErrors(tags, attrs, partial)))
    ensures FieldErrors(tags, attrs, partial) == {} ==> r == Validate(Cleaned(attrs))
    ensures r.Success? ==> r.value == Cleaned(attrs)
    ensures r.Success? ==> attrs.cookingTime.Some? && attrs.tags.Some? && attrs.ingredients.Some?
    ensures r.Success? && !partial ==> attrs.name.Some? && attrs.text.Some? && attrs.image.Some?
  {
    var errs := FieldErrors(tags, attrs, partial);
    if errs != {} then Failure(InvalidFields(errs))
    else Validate(Cleaned(attrs))
  }

  /** A request `is_valid` accepts names only existing tags, has distinct
      ingredient ids, and leaves a name that is neither blank, nor longer
      than the limit, nor surrounded by whitespace, and a non-blank
      text. */
  lemma AcceptedRequest(tags: map<TagId, Tag>, attrs: RecipeInput, partial: bool)
    requires CheckRequest(tags, attrs, partial).Success?
    ensures forall t :: t in attrs.tags.value ==> t in tags
    ensures Distinct(IngredientIds(attrs.ingredients.value))
    ensures attrs.name.Some? ==>
      var n := Strip(attrs.name.value);
      n != "" && |n| <= NAME_MAX_LENGTH && !IsSpace(n[0]) && !IsSpace(n[|n| - 1]) && '\0' !in n
    ensures attrs.text.Some? ==> Strip(attrs.text.value) != "" && '\0' !in Strip(attrs.text.value)
  {
    FieldErrorsMeaning(tags, attrs, partial);
    if attrs.name.Some? {
      StripEnds(attrs.name.value);
    }
  }

  /** Every submitted line names an existing ingredient. */
  predicate IngredientsExist(ingredients: map<IngredientId, Ingredient>, entries: seq<IngredientEntry>) {
    forall e :: e in entries ==> e.id in ingredients
  }

  /** Everything that can make a write by an authenticated requester
      fail, in the order it is met: `is_valid`, then the ingredient
      foreign key of the line rows. The database meets the last one inside
      the transaction, which rolls back; the model checks it before
      writing. */
  function CheckWrite(tags: map<TagId, Tag>, ingredients: map<IngredientId, Ingredient>,
                      attrs: RecipeInput, partial: bool): (r: Result<RecipeInput, WriteError>)
    ensures r.Success? <==>
      CheckRequest(tags, attrs, partial).Success? && IngredientsExist(ingredients, attrs.ingredients.value)
    ensures CheckRequest(tags, attrs, partial).Failure? ==> r == CheckRequest(tags, attrs, partial)
    ensures r.Failure? && CheckRequest(tags, attrs, partial).Success? ==> r.error == UnknownIngredient
    ensures r.Success? ==> r.value == Cleaned(attrs)
  {
    match CheckRequest(tags, attrs, partial)
    case Failure(e) => Failure(e)
    case Success(v) =>
      if IngredientsExist(ingredients, v.ingredients.value) then Success(v)
      else Failure(UnknownIngredient)
  }

  /** The recipe row `Recipe.objects.create(author=..., **validated_data)`
      writes. */
  function NewRecipe(author: UserId, v: RecipeInput): (r: Recipe)
    requires v.name.Some? && v.text.Some? && v.image.Some? && v.cookingTime.Some?
    ensures r.author == author && r.cookingTime == v.cookingTime.value
    ensures r.name == v.name.value && r.text == v.text.value && r.image == v.image.value
  {
    Recipe(author, v.name.value, v.image.value, v.text.value, v.cookingTime.value)
  }

  /** The recipe row after `ModelSerializer.update`: sent fields replace
      the stored ones, the author stays. */
  function Patched(old_: Recipe, v: RecipeInput): (r: Recipe)
    requires v.cookingTime.Some?
    ensures r.author == old_.author && r.cookingTime == v.cookingTime.value
    ensures r.name == (if v.name.Some? then v.name.value else old_.name)
    ensures r.text == (if v.text.Some? then v.text.value else old_.text)
    ensures r.image == (if v.image.Some? then v.image.value else old_.image)
  {
    Recipe(old_.author,
           match v.name case Some(n) => n case None => old_.name,
           match v.image case Some(i) => i case None => old_.image,
           match v.text case Some(t) => t case None => old_.text,
           v.cookingTime.value)
  }

  // ---------------------------------------------------------------------
  // Tag links and line rows of one recipe

  function TagLinks(r: RecipeId, tags: seq<TagId>): set<(RecipeId, TagId)> {
    set t | t in tags :: (r, t)
  }

  /** The tags linked to recipe `r`. */
  function TagsOf(links: set<(RecipeId, TagId)>, r: RecipeId): set<TagId> {
    set p | p in links && p.0 == r :: p.1
  }

  /** After replacing recipe `r`'s links by the submitted list, its tag
      set is the set of submitted ids and every other recipe keeps its
      tags. */
  lemma ReplaceTagLinks(links: set<(RecipeId, TagId)>, r: RecipeId, tags: seq<TagId>)
    ensures TagsOf(KeepTagLinks(links, {r}) + TagLinks(r, tags), r) == ToSet(tags)
    ensures forall o :: o != r ==> TagsOf(KeepTagLinks(links, {r}) + TagLinks(r, tags), o) == TagsOf(links, o)
  {
    var after := KeepTagLinks(links, {r}) + TagLinks(r, tags);
    forall t | t in ToSet(tags) ensures t in TagsOf(after, r) {
      assert (r, t) in after;
    }
    forall o | o != r ensures TagsOf(after, o) == TagsOf(links, o) {
      forall t | t in TagsOf(links, o) ensures t in TagsOf(after, o) {
        assert (o, t) in links;
        assert (o, t) in after;
      }
    }
  }

  /** The rows `bulk_create` writes for recipe `r`, one per item. */
  function NewLines(r: RecipeId, entries: seq<IngredientEntry>): (ls: seq<RecipeLine>)
    ensures |ls| == |entries|
    ensures forall l :: l in ls ==> l.recipe == r
  {
    seq(|entries|, k requires 0 <= k < |entries| => RecipeLine(r, entries[k].id, entries[k].amount))
  }

  /** The submitted items as (ingredient, amount) pairs. */
  function Pairs(entries: seq<IngredientEntry>): seq<(IngredientId, int)> {
    seq(|entries|, k requires 0 <= k < |entries| => (entries[k].id, entries[k].amount))
  }

  /** The rows written for a recipe are read back as exactly the submitted
      pairs, in order, and belong to no other recipe. */
  lemma {:induction false} LinesOfNewLines(r: RecipeId, entries: seq<IngredientEntry>, other: RecipeId)
    requires other != r
    ensures LinesOf(NewLines(r, entries), r) == Pairs(entries)
    ensures LinesOf(NewLines(r, entries), other) == []
  {
    if entries != [] {
      var n := |entries| - 1;
      var front := entries[..n];
      LinesOfNewLines(r, front, other);
      var x := RecipeLine(r, entries[n].id, entries[n].amount);
      assert NewLines(r, entries) == NewLines(r, front) + [x];
      assert Pairs(entries) == Pairs(front) + [(entries[n].id, entries[n].amount)];
      LinesOfAppend(NewLines(r, front), [x], r);
      LinesOfAppend(NewLines(r, front), [x], other);
      assert LinesOf([x], r) == [(x.ingredient, x.amount)] by {
        assert [x][1..] == [];
      }
      assert LinesOf([x], other) == [] by {
        assert [x][1..] == [];
      }
    }
  }

  /** Appending the rows of a submission to a table where recipe `r` has
      no rows gives recipe `r` exactly the submitted lines and leaves every
      other recipe's lines alone. */
  lemma LinesAfterWrite(base: seq<RecipeLine>, r: RecipeId, entries: seq<IngredientEntry>)
    requires forall l :: l in base ==> l.recipe != r
    ensures LinesOf(base + NewLines(r, entries), r) == Pairs(entries)
    ensures forall o :: o != r ==> LinesOf(base + NewLines(r, entries), o) == LinesOf(base, o)
  {
    LinesOfAbsent(base, r);
    LinesOfAppend(base, NewLines(r, entries), r);
    LinesOfNewLines(r, entries, r + 1);
    forall o | o != r ensures LinesOf(base + NewLines(r, entries), o) == LinesOf(base, o) {
      LinesOfAppend(base, NewLines(r, entries), o);
      LinesOfNewLines(r, entries, o);
    }
  }

  /** One step of writing a recipe's rows: the rows written so far are
      those of the first `i` items, so the next item's key is new. */
  lemma NextLineIsNew(base: seq<RecipeLine>, r: RecipeId, entries: seq<IngredientEntry>, i: nat)
    requires i < |entries| && Distinct(IngredientIds(entries))
    requires forall l :: l in base ==> l.recipe != r
    ensures var written := base + NewLines(r, entries[..i]);
      forall l :: l in written ==> LineKey(l) != (r, entries[i].id)
  {
    var written := base + NewLines(r, entries[..i]);
    forall l | l in written ensures LineKey(l) != (r, entries[i].id) {
      if l !in base {
        var k :| 0 <= k < i && NewLines(r, entries[..i])[k] == l;
        assert IngredientIds(entries)[k] == l.ingredient;
        assert IngredientIds(entries)[i] == entries[i].id;
      }
    }
  }

  /** Inserting a recipe row under the next free id, by an existing
      author, keeps the tables consistent; no row yet refers to the id. */
  lemma InsertRecipeKeepsValid(t: Tables, rec: Recipe)
    requires ValidTables(t) && rec.author in t.users
    ensures var id := t.nextRecipeId;
      && id !in t.recipes
      && (forall l :: l in t.lines ==> l.recipe != id)
      && KeepTagLinks(t.recipeTags, {id}) == t.recipeTags
      && ValidTables(t.(recipes := t.recipes[id := rec], nextRecipeId := id + 1))
  {
    var id := t.nextRecipeId;
    assert forall p :: p in t.recipeTags ==> p.0 != id;
  }

  /** Updating recipe `id`'s row, replacing its tag links by existing tags
      and dropping its line rows keeps the tables consistent. */
  lemma ClearRecipeKeepsValid(t: Tables, id: RecipeId, rec: Recipe, tags: seq<TagId>)
    requires ValidTables(t) && id in t.recipes && rec.author == t.recipes[id].author
    requires forall x :: x in tags ==> x in t.tags
    ensures ValidTables(t.(recipes := t.recipes[id := rec],
                           recipeTags := KeepTagLinks(t.recipeTags, {id}) + TagLinks(id, tags),
                           lines := KeepLines(t.lines, {id}, {})))
    ensures forall l :: l in KeepLines(t.lines, {id}, {}) ==> l.recipe != id
  {
    KeepLinesUnique(t.lines, {id}, {});
  }

  // ---------------------------------------------------------------------
  // create and update

  /** `tags_and_ingredients_set`: link the submitted tags, then write one
      line row per submitted item. */
  method SetTagsAndIngredients(db: Database, r: RecipeId, tags: seq<TagId>, entries: seq<IngredientEntry>)
    requires db.Valid() && r in db.recipes
    requires forall t :: t in tags ==> t in db.tags
    requires forall e :: e in entries ==> e.id in db.ingredients
    requires Distinct(IngredientIds(entries))
    requires forall l :: l in db.lines ==> l.recipe != r
    modifies db
    ensures db.Valid()
    ensures db.Snapshot() == old(db.Snapshot()).(
      recipeTags := KeepTagLinks(old(db.recipeTags), {r}) + TagLinks(r, tags),
      lines := old(db.lines) + NewLines(r, entries))
  {
    // recipe.tags.set(tags)
    db.recipeTags := KeepTagLinks(db.recipeTags, {r}) + TagLinks(r, tags);
    ghost var base := db.lines;
    ghost var t0 := db.Snapshot();
    // RecipeIngredient.objects.bulk_create([...])
    var i := 0;
    while i < |entries|
      invariant 0 <= i <= |entries|
      invariant db.Valid()
      invariant db.Snapshot() == t0.(lines := base + NewLines(r, entries[..i]))
    {
      var e := entries[i];
      NextLineIsNew(base, r, entries, i);
      AppendLineUnique(db.lines, RecipeLine(r, e.id, e.amount));
      assert entries[..i + 1] == entries[..i] + [e];
      assert NewLines(r, entries[..i + 1]) == NewLines(r, entries[..i]) + [RecipeLine(r, e.id, e.amount)];
      db.lines := db.lines + [RecipeLine(r, e.id, e.amount)];
      i := i + 1;
    }
    assert entries[..i] == entries;
  }

  /** The update path's line loop: `update_or_create` once per submitted
      item on a table where the recipe has no rows left, so every call
      inserts. */
  method UpsertLines(db: Database, r: RecipeId, entries: seq<IngredientEntry>)
    requires db.Valid() && r in db.recipes
    requires forall e :: e in entries ==> e.id in db.ingredients
    requires Distinct(IngredientIds(entries))
    requires forall l :: l in db.lines ==> l.recipe != r
    modifies db
    ensures db.Valid()
    ensures db.Snapshot() == old(db.Snapshot()).(lines := old(db.lines) + NewLines(r, entries))
  {
    ghost var base := db.lines;
    ghost var t0 := db.Snapshot();
    var i := 0;
    while i < |entries|
      invariant 0 <= i <= |entries|
      invariant db.Valid()
      invariant db.Snapshot() == t0.(lines := base + NewLines(r, entries[..i]))
    {
      var e := entries[i];
      NextLineIsNew(base, r, entries, i);
      var created := db.UpdateOrCreateLine(r, e.id, e.amount);
      assert entries[..i + 1] == entries[..i] + [e];
      assert NewLines(r, entries[..i + 1]) == NewLines(r, entries[..i]) + [RecipeLine(r, e.id, e.amount)];
      i := i + 1;
    }
    assert entries[..i] == entries;
  }

  /** The tables after a successful `create` by `author` with validated
      data `v`: a recipe row under the next free id, one tag link per
      submitted tag, and the submitted line rows appended. */
  function CreatedTables(t: Tables, author: UserId, v: RecipeInput): Tables
    requires v.name.Some? && v.text.Some? && v.image.Some? && v.cookingTime.Some?
    requires v.tags.Some? && v.ingredients.Some?
  {
    var id := t.nextRecipeId;
    t.(recipes := t.recipes[id := NewRecipe(author, v)],
       recipeTags := t.recipeTags + TagLinks(id, v.tags.value),
       lines := t.lines + NewLines(id, v.ingredients.value),
       nextRecipeId := id + 1)
  }

  /** What `create` promises: the new recipe is fresh, its author is the
      requester, its name and text are the submitted ones trimmed, its tag
      set is the submitted set and its lines are exactly the submitted
      (id, amount) pairs; no other recipe's tags or lines change, the
      membership tables are untouched and every constraint still holds. */
  lemma CreatedRecipeIsAsSubmitted(t: Tables, author: UserId, attrs: RecipeInput)
    requires ValidTables(t) && author in t.users
    requires CheckWrite(t.tags, t.ingredients, attrs, false).Success?
    ensures var id := t.nextRecipeId; var t' := CreatedTables(t, author, Cleaned(attrs));
      && id !in t.recipes
      && t'.recipes[id].author == author
      && t'.recipes[id].cookingTime == attrs.cookingTime.value
      && t'.recipes[id].name == Strip(attrs.name.value)
      && t'.recipes[id].text == Strip(attrs.text.value)
      && TagsOf(t'.recipeTags, id) == ToSet(attrs.tags.value)
      && LinesOf(t'.lines, id) == Pairs(attrs.ingredients.value)
      && (forall o :: o != id ==> TagsOf(t'.recipeTags, o) == TagsOf(t.recipeTags, o))
      && (forall o :: o != id ==> LinesOf(t'.lines, o) == LinesOf(t.lines, o))
      && t'.favorites == t.favorites && t'.carts == t.carts && t'.subscriptions == t.subscriptions
  {
    var id := t.nextRecipeId;
    var v := Cleaned(attrs);
    var rec := NewRecipe(author, v);
    AcceptedRequest(t.tags, attrs, false);
    InsertRecipeKeepsValid(t, rec);
    ReplaceTagLinks(t.recipeTags, id, v.tags.value);
    LinesAfterWrite(t.lines, id, v.ingredients.value);
  }

  /** A successful `create` keeps every constraint. */
  lemma CreatedTablesValid(t: Tables, author: UserId, attrs: RecipeInput)
    requires ValidTables(t) && author in t.users
    requires CheckWrite(t.tags, t.ingredients, attrs, false).Success?
    ensures ValidTables(CreatedTables(t, author, Cleaned(attrs)))
  {
    var id := t.nextRecipeId;
    var v := Cleaned(attrs);
    var rec := NewRecipe(author, v);
    AcceptedRequest(t.tags, attrs, false);
    InsertRecipeKeepsValid(t, rec);
    var t1 := t.(recipes := t.recipes[id := rec], nextRecipeId := id + 1);
    assert TagLinksWellFormed(t1.recipeTags + TagLinks(id, v.tags.value), t1.recipes, t1.tags);
    LinesStayUnique(t1.lines, id, v.ingredients.value);
  }

  /** The line rows of a submission with distinct ids, appended to a table
      where the recipe has none, keep (recipe, ingredient) unique. */
  lemma {:induction false} LinesStayUnique(base: seq<RecipeLine>, r: RecipeId, entries: seq<IngredientEntry>)
    requires UniqueLineKeys(base) && Distinct(IngredientIds(entries))
    requires forall l :: l in base ==> l.recipe != r
    ensures UniqueLineKeys(base + NewLines(r, entries))
  {
    var n := |entries|;
    if n > 0 {
      var front := entries[..n - 1];
      assert Distinct(IngredientIds(front)) by {
        forall i, j | 0 <= i < j < |front| ensures IngredientIds(front)[i] != IngredientIds(front)[j] {
          assert IngredientIds(entries)[i] == IngredientIds(front)[i];
          assert IngredientIds(entries)[j] == IngredientIds(front)[j];
        }
      }
      LinesStayUnique(base, r, front);
      NextLineIsNew(base, r, entries, n - 1);
      var x := RecipeLine(r, entries[n - 1].id, entries[n - 1].amount);
      AppendLineUnique(base + NewLines(r, front), x);
      assert NewLines(r, entries) == NewLines(r, front) + [x];
      assert base + NewLines(r, entries) == base + NewLines(r, front) + [x];
    }
  }

  /** `RecipeCreateSerializer.create`, one transaction, for requester
      `requester`. `is_valid` runs first; an anonymous requester then
      reaches `Recipe.objects.create(author=request.user)`, which the ORM
      refuses, and the transaction rolls back. Otherwise the recipe is
      inserted with the requester as author, then its tag links and its
      line rows. A failure writes nothing. */
  method CreateRecipe(db: Database, requester: Requester, attrs: RecipeInput)
    returns (r: Result<RecipeId, WriteError>)
    requires db.Valid() && (requester.Authenticated? ==> requester.id in db.users)
    modifies db
    ensures db.Valid()
    ensures r.Success? <==>
      requester.Authenticated? && CheckWrite(old(db.tags), old(db.ingredients), attrs, false).Success?
    ensures r.Failure? ==> db.Snapshot() == old(db.Snapshot())
    ensures CheckRequest(old(db.tags), attrs, false).Failure? ==>
      r == Failure(CheckRequest(old(db.tags), attrs, false).error)
    ensures CheckRequest(old(db.tags), attrs, false).Success? && requester.Anonymous? ==>
      r == Failure(AnonymousAuthor)
    ensures requester.Authenticated? && r.Failure? ==>
      CheckWrite(old(db.tags), old(db.ingredients), attrs, false) == Failure(r.error)
    ensures r.Success? ==>
      && r.value == old(db.nextRecipeId)
      && db.Snapshot() == CreatedTables(old(db.Snapshot()), requester.id, Cleaned(attrs))
  {
    var check := CheckRequest(db.tags, attrs, false);
    if check.Failure? {
      return Failure(check.error);
    }
    if requester.Anonymous? {
      return Failure(AnonymousAuthor);
    }
    var v := check.value;
    if !IngredientsExist(db.ingredients, v.ingredients.value) {
      return Failure(UnknownIngredient);
    }
    var id := db.nextRecipeId;
    var rec := NewRecipe(requester.id, v);
    InsertRecipeKeepsValid(db.Snapshot(), rec);
    // Recipe.objects.create(author=request.user, **validated_data)
    db.recipes, db.nextRecipeId := db.recipes[id := rec], id + 1;
    SetTagsAndIngredients(db, id, v.tags.value, v.ingredients.value);
    r := Success(id);
  }

  /** The tables after a successful `update` of recipe `id` with
      validated data `v`: the sent fields patched, the tag links replaced,
      the recipe's old lines dropped and the submitted ones appended. */
  function UpdatedTables(t: Tables, id: RecipeId, v: RecipeInput): Tables
    requires id in t.recipes && v.cookingTime.Some? && v.tags.Some? && v.ingredients.Some?
  {
    t.(recipes := t.recipes[id := Patched(t.recipes[id], v)],
       recipeTags := KeepTagLinks(t.recipeTags, {id}) + TagLinks(id, v.tags.value),
       lines := KeepLines(t.lines, {id}, {}) + NewLines(id, v.ingredients.value))
  }

  /** What `update` promises: a full replacement, not a merge. The tag
      set becomes the submitted set (tags not resent are gone), the lines
      become exactly the submitted pairs (ingredients not resent are gone),
      a sent name is stored trimmed and an unsent one stays, the author
      stays, and no other recipe's tags or lines change. */
  lemma UpdateReplacesTagsAndLines(t: Tables, id: RecipeId, attrs: RecipeInput, partial: bool)
    requires ValidTables(t) && id in t.recipes
    requires CheckWrite(t.tags, t.ingredients, attrs, partial).Success?
    ensures var t' := UpdatedTables(t, id, Cleaned(attrs));
      && t'.recipes[id].author == t.recipes[id].author
      && t'.recipes[id].name == (if attrs.name.Some? then Strip(attrs.name.value) else t.recipes[id].name)
      && TagsOf(t'.recipeTags, id) == ToSet(attrs.tags.value)
      && LinesOf(t'.lines, id) == Pairs(attrs.ingredients.value)
      && (forall o :: o != id ==> TagsOf(t'.recipeTags, o) == TagsOf(t.recipeTags, o))
      && (forall o :: o != id ==> LinesOf(t'.lines, o) == LinesOf(t.lines, o))
      && t'.favorites == t.favorites && t'.carts == t.carts && t'.subscriptions == t.subscriptions
  {
    var v := Cleaned(attrs);
    var rec := Patched(t.recipes[id], v);
    ReplaceTagLinks(t.recipeTags, id, v.tags.value);
    ClearRecipeKeepsValid(t, id, rec, v.tags.value);
    var kept := KeepLines(t.lines, {id}, {});
    LinesAfterWrite(kept, id, v.ingredients.value);
    forall o | o != id ensures LinesOf(kept, o) == LinesOf(t.lines, o) {
      LinesOfKeepOther(t.lines, id, o);
    }
  }

  /** The first steps of `update`: write the patched recipe row, replace
      the tag links (clear, then add) and drop the recipe's line rows. */
  method PatchAndClear(db: Database, id: RecipeId, rec: Recipe, tags: seq<TagId>)
    requires db.Valid() && id in db.recipes && rec.author == db.recipes[id].author
    requires forall x :: x in tags ==> x in db.tags
    modifies db
    ensures db.Valid()
    ensures db.Snapshot() == old(db.Snapshot()).(
      recipes := old(db.recipes)[id := rec],
      recipeTags := KeepTagLinks(old(db.recipeTags), {id}) + TagLinks(id, tags),
      lines := KeepLines(old(db.lines), {id}, {}))
    ensures id in db.recipes && forall l :: l in db.lines ==> l.recipe != id
  {
    ClearRecipeKeepsValid(db.Snapshot(), id, rec, tags);
    db.recipes := db.recipes[id := rec];
    // instance.tags.clear(); instance.tags.add(*tags_data)
    db.recipeTags := KeepTagLinks(db.recipeTags, {id}) + TagLinks(id, tags);
    // instance.ingredients.clear()
    db.lines := KeepLines(db.lines, {id}, {});
  }

  /** `RecipeCreateSerializer.update`, one transaction: `is_valid`, then
      update the sent fields, replace the tag set (clear, then add), drop
      every line of the recipe, then `update_or_create` one line per item.
      A failure writes nothing. */
  method UpdateRecipe(db: Database, id: RecipeId, attrs: RecipeInput, partial: bool)
    returns (r: Result<RecipeId, WriteError>)
    requires db.Valid() && id in db.recipes
    modifies db
    ensures db.Valid()
    ensures r.Success? <==> CheckWrite(old(db.tags), old(db.ingredients), attrs, partial).Success?
    ensures r.Failure? ==>
      && CheckWrite(old(db.tags), old(db.ingredients), attrs, partial) == Failure(r.error)
      && db.Snapshot() == old(db.Snapshot())
    ensures r.Success? ==>
      && r.value == id
      && db.Snapshot() == UpdatedTables(old(db.Snapshot()), id, Cleaned(attrs))
  {
    var check := CheckWrite(db.tags, db.ingredients, attrs, partial);
    if check.Failure? {
      return Failure(check.error);
    }
    var v := check.value;
    // super().update(instance, validated_data)
    PatchAndClear(db, id, Patched(db.recipes[id], v), v.tags.value);
    UpsertLines(db, id, v.ingredients.value);
    r := Success(id);
  }

  // ---------------------------------------------------------------------
  // Password change

  /** The password machinery the serializer calls into, left abstract:
      `acceptable` is `validate_password` passing, `encode` is the hashing
      `set_password` stores, and `matches(stored, raw)` is
      `check_password`. */
  datatype Hasher = Hasher(
    acceptable: string -> bool,
    encode: string -> string,
    matches: (string, string) -> bool)

  /** A hasher whose check accepts the raw password an encoding was made
      from, and only that one. */
  ghost predicate Faithful(h: Hasher) {
    forall p, q :: h.matches(h.encode(p), q) <==> p == q
  }

  /** The two fields of `SetPasswordSerializer`, both plain `CharField`s. */
  datatype PasswordField = NewPassword | CurrentPassword

  datatype PasswordError =
    | InvalidPasswordFields(fields: set<PasswordField>)  // the field pass: missing, blank or NUL
    | WeakPassword           // validate_password refused the new password
    | WrongCurrentPassword   // check_password refused the current password
    | SamePassword           // the new password equals the current one

  /** The field pass of `SetPasswordSerializer`: each field is required and
      checked as a `CharField` without a length limit. */
  function PasswordFieldErrors(current: Option<string>, newPassword: Option<string>): (errs: set<PasswordField>)
    ensures NewPassword in errs <==> newPassword.None? || CharValueFails(newPassword.value, None)
    ensures CurrentPassword in errs <==> current.None? || CharValueFails(current.value, None)
  {
    (if newPassword.None? || CharValueFails(newPassword.value, None) then {NewPassword} else {})
    + (if current.None? || CharValueFails(current.value, None) then {CurrentPassword} else {})
  }

  /** `SetPasswordSerializer`: the field pass trims both values and refuses
      a missing or blank one; `validate` then runs the password validators
      on the trimmed new password, and `update` checks the trimmed current
      password, refuses an unchanged password and stores the encoding of
      the trimmed new one. */
  function ChangePassword(u: User, current: Option<string>, newPassword: Option<string>, h: Hasher)
    : (r: Result<User, PasswordError>)
    ensures PasswordFieldErrors(current, newPassword) != {} ==>
      r == Failure(InvalidPasswordFields(PasswordFieldErrors(current, newPassword)))
    ensures r.Success? <==>
      && PasswordFieldErrors(current, newPassword) == {}
      && h.acceptable(Strip(newPassword.value))
      && h.matches(u.password, Strip(current.value))
      && Strip(current.value) != Strip(newPassword.value)
    ensures PasswordFieldErrors(current, newPassword) == {} ==>
      var c, n := Strip(current.value), Strip(newPassword.value);
      && (!h.acceptable(n) ==> r == Failure(WeakPassword))
      && (h.acceptable(n) && !h.matches(u.password, c) ==> r == Failure(WrongCurrentPassword))
      && (h.acceptable(n) && h.matches(u.password, c) && c == n ==> r == Failure(SamePassword))
    ensures r.Success? ==> r.value == u.(password := h.encode(Strip(newPassword.value)))
  {
    var errs := PasswordFieldErrors(current, newPassword);
    if errs != {} then Failure(InvalidPasswordFields(errs))
    else
      var c, n := Strip(current.value), Strip(newPassword.value);
      if !h.acceptable(n) then Failure(WeakPassword)
      else if !h.matches(u.password, c) then Failure(WrongCurrentPassword)
      else if c == n then Failure(SamePassword)
      else Success(u.(password := h.encode(n)))
  }

  /** The field pass compares trimmed values: a current password sent with
      surrounding whitespace still checks, and a new password that differs
      from the current one only by surrounding whitespace is refused as
      unchanged. */
  lemma PasswordsCompareTrimmed(u: User, current: string, newPassword: string, h: Hasher)
    requires Faithful(h) && u.password == h.encode(Strip(current))
    requires !CharValueFails(current, None) && !CharValueFails(newPassword, None)
    requires h.acceptable(Strip(newPassword))
    ensures ChangePassword(u, Some(current), Some(newPassword), h).Success? <==>
      Strip(current) != Strip(newPassword)
  {
  }

  /** With a faithful hasher, after a successful change the new password
      checks and the old one no longer does; nothing but the stored
      password changes. */
  lemma ChangedPasswordChecks(u: User, current: string, newPassword: string, h: Hasher)
    requires Faithful(h)
    requires ChangePassword(u, Some(current), Some(newPassword), h).Success?
    ensures var u' := ChangePassword(u, Some(current), Some(newPassword), h).value;
      && h.matches(u'.password, Strip(newPassword))
      && !h.matches(u'.password, Strip(current))
      && u'.email == u.email && u'.username == u.username && u'.role == u.role
  {
    var n := Strip(newPassword);
    assert h.matches(h.encode(n), Strip(current)) <==> n == Strip(current);
  }

  /** Changing a password keeps emails and usernames unique. */
  lemma PasswordChangeKeepsUnique(users: map<UserId, User>, id: UserId, pw: string)
    requires UniqueAccounts(users) && id in users
    ensures UniqueAccounts(users[id := users[id].(password := pw)])
  {
  }

  /** The `set_password` endpoint on account `id`: on any error nothing is
      saved; otherwise only that account's stored password changes. */
  method SetPassword(db: Database, id: UserId, current: Option<string>, newPassword: Option<string>, h: Hasher)
    returns (err: Option<PasswordError>)
    requires db.Valid() && id in db.users
    modifies db
    ensures db.Valid()
    ensures err.None? <==> ChangePassword(old(db.users)[id], current, newPassword, h).Success?
    ensures err.Some? ==>
      && ChangePassword(old(db.users)[id], current, newPassword, h) == Failure(err.value)
      && db.Snapshot() == old(db.Snapshot())
    ensures err.None? ==>
      db.Snapshot() == old(db.Snapshot()).(users := old(db.users)[id := old(db.users)[id].(password := h.encode(Strip(newPassword.value)))])
  {
    var r := ChangePassword(db.users[id], current, newPassword, h);
    if r.Failure? {
      return Some(r.error);
    }
    PasswordChangeKeepsUnique(db.users, id, r.value.password);
    // instance.set_password(...); instance.save()
    db.users := db.users[id := r.value];
    err := None;
  }

  // ---------------------------------------------------------------------
  // Viewer-relative flags

  /** Whether the viewer is an authenticated account paired with `obj` in
      `table`; an anonymous viewer (or no request) always sees false. */
  function ViewerFlag<T(==)>(table: set<(UserId, T)>, viewer: Requester, obj: T): (b: bool)
    ensures viewer.Anonymous? ==> !b
    ensures viewer.Authenticated? ==> (b <==> (viewer.id, obj) in table)
  {
    viewer.Authenticated? && (viewer.id, obj) in table
  }

  /** `get_is_favorited`. */
  function IsFavorited(t: Tables, viewer: Requester, recipe: RecipeId): (b: bool)
    ensures b <==> viewer.Authenticated? && (viewer.id, recipe) in t.favorites
  {
    ViewerFlag(t.favorites, viewer, recipe)
  }

  /** `get_is_in_shopping_cart`. */
  function IsInShoppingCart(t: Tables, viewer: Requester, recipe: RecipeId): (b: bool)
    ensures b <==> viewer.Authenticated? && (viewer.id, recipe) in t.carts
  {
    ViewerFlag(t.carts, viewer, recipe)
  }

  /** `get_is_subscribed` (the user serializers and the subscriptions
      listing agree): the viewer follows `author`. */
  function IsSubscribed(t: Tables, viewer: Requester, author: UserId): (b: bool)
    ensures b <==> viewer.Authenticated? && (viewer.id, author) in t.subscriptions
  {
    ViewerFlag(t.subscriptions, viewer, author)
  }

  /** The flags of one viewer are independent: favouriting says nothing
      about the cart, and subscriptions are directed. */
  lemma FlagsIndependent(t: Tables, a: UserId, b: UserId, recipe: RecipeId)
    requires a != b
    ensures var t' := t.(favorites := t.favorites + {(a, recipe)}, subscriptions := t.subscriptions + {(a, b)});
      && IsFavorited(t', Authenticated(a, false), recipe)
      && IsInShoppingCart(t', Authenticated(a, false), recipe) == IsInShoppingCart(t, Authenticated(a, false), recipe)
      && IsSubscribed(t', Authenticated(a, false), b)
      && IsSubscribed(t', Authenticated(b, false), a) == IsSubscribed(t, Authenticated(b, false), a)
  {
  }

  // ---------------------------------------------------------------------
  // Subscriptions listing

  datatype ListingError = NegativeLimit

  /** `SubscriptionsSerializer.get_recipes`: the author's recipes in the
      order their queryset gives, cut to the first `limit` when a limit is
      given. Slicing a queryset with a negative bound is an error. */
  function GetRecipes(authored: seq<RecipeId>, limit: Option<int>): (r: Result<seq<RecipeId>, ListingError>)
    ensures r.Failure? <==> limit.Some? && limit.value < 0
    ensures r.Success? ==> r.value <= authored
    ensures r.Success? && limit.None? ==> r.value == authored
    ensures r.Success? && limit.Some? ==>
      |r.value| == (if limit.value < |authored| then limit.value else |authored|)
  {
    match limit
    case None => Success(authored)
    case Some(n) =>
      if n < 0 then Failure(NegativeLimit)
      else if n < |authored| then Success(authored[..n])
      else Success(authored)
  }

  /** `get_recipes_count`: the number of recipes the author has. */
  function RecipesCount(t: Tables, author: UserId): (n: nat)
    ensures n == 0 <==> forall r :: r in t.recipes ==> t.recipes[r].author != author
  {
    NoneAuthored(t.recipes, author);
    |AuthoredBy(t.recipes, author)|
  }

  lemma NoneAuthored(recipes: map<RecipeId, Recipe>, author: UserId)
    ensures AuthoredBy(recipes, author) == {} <==> forall r :: r in recipes ==> recipes[r].author != author
  {
    var mine := AuthoredBy(recipes, author);
    if exists r :: r in recipes && recipes[r].author == author {
      var x :| x in recipes && recipes[x].author == author;
      assert x in mine;
    } else {
      assert mine == {};
    }
  }

  /** When the queryset lists each of the author's recipes once, the
      unlimited listing has `recipes_count` entries and a limited one has
      min(limit, recipes_count); the count ignores the limit. */
  lemma ListingAgreesWithCount(t: Tables, author: UserId, authored: seq<RecipeId>, limit: Option<int>)
    requires Distinct(authored) && ToSet(authored) == AuthoredBy(t.recipes, author)
    requires limit.None? || limit.value >= 0
    ensures var r := GetRecipes(authored, limit);
      && r.Success?
      && (limit.None? ==> |r.value| == RecipesCount(t, author))
      && (limit.Some? ==> |r.value| == if limit.value < RecipesCount(t, author) then limit.value
                                        else RecipesCount(t, author))
      && forall x :: x in r.value ==> x in t.recipes && t.recipes[x].author == author
  {
    DistinctIffSetSizeIsLength(authored);
  }

  // ---------------------------------------------------------------------
  // The self-subscription guard

  /** What `SubscribeAuthorSerializer.validate` compares the requesting
      account with: an account, or the validated field data (a dict of the
      writable fields sent; every field of this serializer is read-only, so
      it is empty). */
  datatype Compared = AccountOf(id: UserId) | FieldData(fields: map<string, string>)

  /** The guard as written: the requester is compared with the validated
      data, which is never an account. */
  function SelfGuardAsWritten(user: UserId, data: map<string, string>): (rejected: bool)
    ensures !rejected
  {
    FieldData(data) == AccountOf(user)
  }

  /** The guard as intended: the requester may not follow itself. */
  function SelfGuard(user: UserId, author: UserId): (rejected: bool)
    ensures rejected <==> user == author
  {
    AccountOf(author) == AccountOf(user)
  }
}
