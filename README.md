# Foodgram recipe backend — a verified model

Foodgram is a recipe-sharing backend. Accounts publish recipes built from catalogue ingredients and tags. Users can favourite recipes, put them in a shopping cart, follow authors, and download a shopping list that sums the ingredients of every recipe in the cart. This project models the domain rules of that backend in Dafny and proves them.

The database is a class `Store.Database` whose fields are the tables:
- users, ingredients, tags and recipes are maps from id to row;
- the recipe–tag links, favourites, cart entries and subscriptions are sets of pairs;
- the recipe–ingredient lines are a sequence in primary-key order;
- one counter holds the next recipe id.

Its invariant `Store.ValidTables` holds:
- every unique constraint: account email and username, ingredient (name, unit), tag name and slug, and the (recipe, ingredient) pair of a line;
- every role is one of the three choices;
- every tag colour is null or passes the colour validator and the length limit (a tag written through the ORM skips `full_clean`, so the invariant asks no more);
- every foreign key.

Each state-changing operation is a method. Its postcondition states the new state exactly, as a function of the old one. Lemmas then state what the source promises about that new state.

The modules:
- `Common`: options, results, status codes, `set(xs)`, `sep.join`.
- `UsersModels`: accounts, roles and subscription rows.
- `RecipesModels`: the recipe schema, its constraints, its cascades and `update_or_create`.
- `Permissions`: the object-level permission.
- `Store`: the tables and their cascading deletes.
- `Serializers`:
  - recipe validation and the create and update transactions;
  - password change;
  - the viewer flags;
  - the subscription listing;
  - the self-subscription guard.
- `Views`:
  - the favourite and cart toggles;
  - the subscribe endpoint.
- `ShoppingList`: grouping and summing, decimal rendering, the list text and the empty-cart guard.

Three behaviours of the code are easy to get wrong, and the model follows the code in each:
- Cooking time and ingredient amounts are plain integer columns with no validator, so neither is checked for sign (backend/recipes/models.py:67-69, backend/recipes/models.py:96-98).
- A repeated subscribe answers 200 and writes no new row (backend/api/views.py:89-90).
- The shopping-list header names the user's first name (backend/api/views.py:179).

The shopping list's group order is the order in which each (name, unit) key is first met in the line table. The grouping query fixes no order, so this is a choice.

## Model

| member | source | states |
|---|---|---|
| Common.ToSet | backend/api/serializers.py:274 | `set(xs)` holds exactly the elements of the list. |
| Common.DistinctIffSetSizeIsLength | backend/api/serializers.py:273-276 | The duplicate test `len(ids) != len(set(ids))` fires exactly when some id occurs twice. |
| Common.Join | backend/api/views.py:195 | Defines `sep.join(parts)`. The joined text is at least as long as the first part plus one separator per further part. |
| Common.JoinShape | backend/api/views.py:195 | A newline-joined list starts with its first element and ends with its last. |
| UsersModels.NewUser | backend/users/models.py:44-49 | A new account has role 'guest', which is one of the three choices. It is a guest, neither authorized nor admin. |
| UsersModels.IsGuest | backend/users/models.py:51-53 | Defines `is_guest`: the role is 'guest'. `RolesExclusive` states how it relates to the other two. |
| UsersModels.IsAuthorized | backend/users/models.py:55-57 | Defines `is_authorized`: the role is 'authorized'. `RolesExclusive` states how it relates to the other two. |
| UsersModels.IsAdmin | backend/users/models.py:59-61 | Defines `is_admin`: the role is 'admin' or the superuser flag is set. `RolesExclusive` states its consequences. |
| UsersModels.RolesExclusive | backend/users/models.py:51-61 | At most one role predicate holds, except that a superuser is always admin. Without the superuser flag, `is_admin` is exactly role 'admin'. |
| UsersModels.RegisterKeepsUnique | backend/users/models.py:19-29 | Inserting an account whose email and username are both new keeps both columns unique. |
| UsersModels.EdgesWithoutUser | backend/users/models.py:72-84 | Deleting an account removes exactly the subscription rows where it is either end. |
| Permissions.HasObjectPermission | backend/api/permissions.py:5-8 | Safe methods are allowed for anyone. An unsafe method is refused to an anonymous user. For an authenticated user it is allowed iff they are the author or staff. |
| Permissions.AdminRoleIsNotStaff | backend/api/permissions.py:7 | The check reads `is_staff`. An account with role 'admin' that is not staff may not change someone else's recipe. |
| RecipesModels.MatchesColorPattern | backend/recipes/models.py:32-36 | Defines the colour pattern `^#([a-fA-F0-9]{6})` as a prefix test, since it has no end anchor. `PatternIgnoresSuffix` and `PatternAloneIsOpenEnded` state its consequences. |
| RecipesModels.ValidColor | backend/recipes/models.py:27-37 | Defines the colour column's check: null, or at most 7 characters and matching the pattern. `ValidColorIsSevenChars` states what it admits. |
| RecipesModels.ValidColorIsSevenChars | backend/recipes/models.py:27-37 | A stored colour is null or exactly '#' followed by six hex digits. The pattern and the 7-character limit together fix this. |
| RecipesModels.PatternAloneIsOpenEnded | backend/recipes/models.py:32-36 | The pattern has no end anchor and accepts "#00ff00zz". Only the length limit rejects it. |
| RecipesModels.PatternIgnoresSuffix | backend/recipes/models.py:32-36 | Any text that matches the pattern still matches with anything appended. |
| RecipesModels.CleanTagShape | backend/recipes/models.py:25-40 | A tag that passes `full_clean` has a colour of exactly '#' plus six characters, and a slug of 1 to 200 letters, digits, '-' or '_'. |
| RecipesModels.NullColorRefused | backend/recipes/models.py:27-31 | A null colour fits the nullable column but fails `full_clean`, because the field is not `blank=True`. |
| RecipesModels.KeepLines | backend/recipes/models.py:87-95 | After a cascade, a line survives iff neither its recipe nor its ingredient was deleted. No row is added. |
| RecipesModels.KeepLinesUnique | backend/recipes/models.py:100-106 | Deleting lines keeps (recipe, ingredient) unique. |
| RecipesModels.KeepPairs | backend/recipes/models.py:114-142 | A favourite or cart row survives iff neither its user nor its recipe was deleted. |
| RecipesModels.KeepTagLinks | backend/recipes/models.py:64-66 | A tag link survives iff its recipe was not deleted. |
| RecipesModels.DropTagLinks | backend/recipes/models.py:64-66 | Deleting a tag removes exactly the recipe–tag links that name it. |
| RecipesModels.FindLine | backend/recipes/models.py:100-106 | Finds the index of the row with key (recipe, ingredient), or answers that no such row exists. |
| RecipesModels.AppendLineUnique | backend/recipes/models.py:100-106 | Appending a row whose key is new keeps keys unique. |
| RecipesModels.UpsertLine | backend/api/serializers.py:313-317 | Defines `update_or_create` on the line table: overwrite the row with the key, or append one. `UpsertLineSpec` states its effect. |
| RecipesModels.UpsertLineSpec | backend/api/serializers.py:313-317 | `update_or_create` keeps keys unique. It leaves a row for the key carrying the new amount and leaves rows of other keys unchanged. When the key is absent, it appends. |
| RecipesModels.LinesOfAppend | backend/recipes/models.py:87-106 | A recipe's lines over two concatenated row lists are its lines in the first list followed by its lines in the second. |
| RecipesModels.LinesOfAbsent | backend/recipes/models.py:87-106 | A recipe that no row names has no lines. |
| RecipesModels.LinesOfKeepOther | backend/api/serializers.py:311 | Clearing one recipe's lines leaves it with none and every other recipe's lines unchanged. |
| Store.ValidTables | backend/recipes/models.py:14-142 | Defines the table invariant: the unique constraints, role choices, the colour validator and foreign keys. Every method of `Store.Database` and every write lemma keeps it. |
| Store.Database.AddIngredient | backend/recipes/models.py:14-19 | The insert succeeds iff the id and the (name, unit) pair are both new. Otherwise nothing changes. The invariant holds. |
| Store.Database.AddTag | backend/recipes/models.py:25-40 | The insert succeeds iff the id, name and slug are all new and the tag passes `full_clean`: non-blank name of at most 50 characters, a non-null valid colour, a valid slug of at most 200 characters. Otherwise nothing changes. The invariant holds. |
| Store.Database.AddUser | backend/users/models.py:19-49 | The insert succeeds iff the id, email and username are all new and the role is one of the three choices. Otherwise nothing changes. The invariant holds. |
| Store.Database.UpdateOrCreateLine | backend/api/serializers.py:313-317 | The line table becomes `UpsertLine` of the old table. The method reports whether it inserted, which happens iff no row had the key. The invariant holds. |
| Store.Database.DeleteRecipe | backend/recipes/models.py:88-142 | The tables become `WithoutRecipe` of the old tables, and the invariant holds. |
| Store.Database.DeleteIngredient | backend/recipes/models.py:92-95 | The tables become `WithoutIngredient` of the old tables, and the invariant holds. |
| Store.Database.DeleteUser | backend/recipes/models.py:70-73 | The tables become `WithoutUser` of the old tables, and the invariant holds. |
| Store.Database.DeleteTag | backend/recipes/models.py:64-66 | The tables become `WithoutTag` of the old tables, and the invariant holds. |
| Store.AuthoredBy | backend/recipes/models.py:70-73 | Defines the set the author cascade deletes: the recipes whose author is the account. |
| Store.WithoutRecipe | backend/recipes/models.py:88-142 | After deleting a recipe, the other recipes stay. A line, tag link, favourite or cart row survives iff it does not name the deleted recipe. Accounts, ingredients, tags, subscriptions and the id counter are unchanged. |
| Store.WithoutRecipeKeepsValid | backend/recipes/models.py:88-142 | Deleting a recipe with its cascades keeps every constraint. |
| Store.WithoutIngredient | backend/recipes/models.py:92-95 | After deleting an ingredient, only that ingredient is gone. A line survives iff it does not name it, and nothing else changes. |
| Store.WithoutIngredientKeepsValid | backend/recipes/models.py:92-95 | Deleting an ingredient with its cascade keeps every constraint. |
| Store.WithoutTag | backend/recipes/models.py:64-66 | After deleting a tag, only that tag is gone. A recipe–tag link survives iff it does not name it. Every other table and the id counter are unchanged. |
| Store.WithoutTagKeepsValid | backend/recipes/models.py:64-66 | Deleting a tag with its link cascade keeps every constraint. |
| Store.WithoutUser | backend/users/models.py:72-84 | After deleting an account, only that account is gone, and exactly the recipes of other authors stay, unchanged. A line or tag link survives iff its recipe stays. A favourite or cart row survives iff neither its account nor its recipe went. A subscription survives iff the account is neither end. Ingredients, tags and the id counter are unchanged. |
| Store.WithoutUserKeepsValid | backend/recipes/models.py:70-73 | Deleting an account with every cascade, including its recipes' own cascades, keeps every constraint. |
| Serializers.LeadingSpaces | backend/api/serializers.py:253-259 | Defines how many characters stripping cuts at the front: all of them whitespace, and the next one is not. |
| Serializers.TrailingSpaces | backend/api/serializers.py:253-259 | Defines how many characters stripping cuts at the back: all of them whitespace, and the one before is not. |
| Serializers.Strip | backend/api/serializers.py:253-259 | The `CharField` trim: the kept text is a contiguous slice of the input, and everything cut before and after it is whitespace. |
| Serializers.StripEnds | backend/api/serializers.py:253-259 | A non-empty trimmed value starts and ends with a non-space. The trimmed value is empty iff the input is all whitespace. |
| Serializers.StripIdempotent | backend/api/serializers.py:253-259 | Trimming twice gives what trimming once gives. |
| Serializers.NulSurvivesStrip | backend/api/serializers.py:253-259 | Trimming neither removes nor adds a NUL character. |
| Serializers.FieldErrors | backend/api/serializers.py:227-259 | Defines the field pass of `is_valid` as the set of failing fields. `FieldErrorsMeaning` states it field by field. |
| Serializers.FieldErrorsMeaning | backend/api/serializers.py:227-259 | Which fields fail the field pass, field by field: on a full write a missing field; a name that is blank once trimmed, longer than 200 characters or holds a NUL character; a text that is blank or holds a NUL character; a tag id naming no tag. |
| Serializers.Cleaned | backend/api/serializers.py:253-259 | The validated data: name and text trimmed, every other field as sent. |
| Serializers.IngredientIds | backend/api/serializers.py:273 | Defines the list `[item['id'] for item in ingredients]`, item by item. |
| Serializers.Validate | backend/api/serializers.py:261-278 | Each rejection reason, in source order: missing cooking time, no tags, no ingredients, then duplicates. Duplicates are rejected exactly when an id repeats. On acceptance the input comes back unchanged. |
| Serializers.CheckRequest | backend/api/serializers.py:227-278 | `is_valid`: any field error is reported, as the set of failing fields, before `validate` runs. Otherwise the answer is `validate`'s on the trimmed data. On success the data is trimmed and has cooking time, tags and ingredients, and on a full write also name, text and image. |
| Serializers.AcceptedRequest | backend/api/serializers.py:227-278 | Accepted data names existing tags and distinct ingredients. A sent name trims to 1 to 200 characters with no space at either end and no NUL, and a sent text is neither blank nor holds a NUL. |
| Serializers.CheckWrite | backend/api/serializers.py:227-289 | A write is accepted iff `is_valid` accepts and every ingredient id exists. An `is_valid` failure is passed through unchanged, otherwise the failure is the unknown ingredient. On success the data is the trimmed input. |
| Serializers.NewRecipe | backend/api/serializers.py:295-297 | The new row's author is the requester. Its name, text, image and cooking time are the validated ones. |
| Serializers.Patched | backend/api/serializers.py:306 | Each field sent takes the validated value, each field not sent keeps its stored value, and the author stays. |
| Serializers.ReplaceTagLinks | backend/api/serializers.py:308-309 | After clearing and re-adding, the recipe's tag set is the submitted set, and other recipes keep theirs. |
| Serializers.NewLines | backend/api/serializers.py:282-289 | One row per submitted item, all belonging to the recipe. |
| Serializers.LinesOfNewLines | backend/api/serializers.py:282-289 | The rows written read back as exactly the submitted (id, amount) pairs, in order. |
| Serializers.LinesAfterWrite | backend/api/serializers.py:280-289 | Writing into a table with no rows for the recipe gives it exactly the submitted pairs and leaves every other recipe's lines unchanged. |
| Serializers.NextLineIsNew | backend/api/serializers.py:273-289 | With distinct ids, the next item's key is not yet in the table, so the unique constraint cannot fire. |
| Serializers.InsertRecipeKeepsValid | backend/api/serializers.py:295-297 | The next id is unused and no row names it yet. Inserting the recipe keeps every constraint. |
| Serializers.ClearRecipeKeepsValid | backend/api/serializers.py:306-311 | Patching the row, replacing tag links and clearing lines keeps every constraint. Afterwards the recipe has no line. |
| Serializers.SetTagsAndIngredients | backend/api/serializers.py:280-289 | Tag links are replaced and the submitted rows are appended in order. The invariant holds throughout the loop. |
| Serializers.UpsertLines | backend/api/serializers.py:312-317 | The `update_or_create` loop appends the submitted rows in order. The invariant holds throughout the loop. |
| Serializers.LinesStayUnique | backend/api/serializers.py:280-289 | Appending the rows of a submission with distinct ids, for a recipe with no rows yet, keeps (recipe, ingredient) unique. |
| Serializers.CreatedTablesValid | backend/api/serializers.py:291-299 | A successful `create` by an existing account keeps every constraint. |
| Serializers.CreatedTables | backend/api/serializers.py:291-299 | Defines the tables after a successful `create`. `CreatedRecipeIsAsSubmitted` and `CreatedTablesValid` state what they hold. |
| Serializers.CreatedRecipeIsAsSubmitted | backend/api/serializers.py:291-299 | After `create`, the recipe id is fresh and the author is the requester. Name and text are the submitted ones trimmed, and the cooking time is the one submitted. The tag set equals the submitted set and the lines are exactly the submitted pairs. Other recipes' tags and lines, favourites, carts and subscriptions are unchanged, and every constraint holds. |
| Serializers.CreateRecipe | backend/api/serializers.py:291-299 | Succeeds iff the requester is signed in and `CheckWrite` accepts. An `is_valid` failure comes first. An anonymous requester with valid data then fails on the author column (`AnonymousAuthor`). Every failure changes nothing. On success the tables become `CreatedTables` of the old ones under the old next id, and the invariant holds. |
| Serializers.UpdatedTables | backend/api/serializers.py:301-319 | Defines the tables after a successful `update`. `UpdateReplacesTagsAndLines` states what they hold. |
| Serializers.UpdateReplacesTagsAndLines | backend/api/serializers.py:301-319 | `update` is a full replacement. Tags and ingredients that are not resent are gone, and the tag set and lines are exactly the submitted ones. A sent name is stored trimmed, an unsent one stays, and the author stays. No other recipe's tags or lines change. |
| Serializers.PatchAndClear | backend/api/serializers.py:306-311 | The row is patched, the tag links replaced and the recipe's lines dropped. Nothing else changes. |
| Serializers.UpdateRecipe | backend/api/serializers.py:227-319 | Succeeds iff `CheckWrite` accepts, with nothing required on a partial write. On failure it returns that error and changes nothing. On success the tables become `UpdatedTables` of the old ones with the trimmed data. The invariant holds. |
| Serializers.PasswordFieldErrors | backend/api/serializers.py:48-51 | A password field fails the field pass iff it is missing, or blank once trimmed, or holds a NUL character. |
| Serializers.ChangePassword | backend/api/serializers.py:48-75 | Any field error comes first, as the set of failing fields. Otherwise the change succeeds iff the validators accept the trimmed new password, the trimmed current password checks and the two trimmed values differ, and each failure is reported in that order. On success only the stored password changes, to the encoding of the trimmed new one. |
| Serializers.PasswordsCompareTrimmed | backend/api/serializers.py:50-51 | With a faithful hasher and a correct current password, the change succeeds iff the trimmed values differ, so whitespace around a password changes nothing. |
| Serializers.ChangedPasswordChecks | backend/api/serializers.py:62-75 | With a faithful hasher, after a change the trimmed new password checks and the trimmed old one does not. Email, username and role stay. |
| Serializers.PasswordChangeKeepsUnique | backend/api/serializers.py:73-74 | Saving the new password keeps emails and usernames unique. |
| Serializers.SetPassword | backend/api/serializers.py:48-75 | On error nothing is saved and the error is `ChangePassword`'s. Otherwise only that account's stored password becomes the encoding of the trimmed new one. |
| Serializers.ViewerFlag | backend/api/serializers.py:205-215 | False for an anonymous viewer. For an authenticated one, true iff the (viewer, object) pair is in the table. |
| Serializers.IsFavorited | backend/api/serializers.py:205-209 | True iff the viewer is authenticated and the (viewer, recipe) favourite row exists. |
| Serializers.IsInShoppingCart | backend/api/serializers.py:211-215 | True iff the viewer is authenticated and the (viewer, recipe) cart row exists. |
| Serializers.IsSubscribed | backend/api/serializers.py:26-31 | True iff the viewer is authenticated and follows the author. |
| Serializers.FlagsIndependent | backend/api/serializers.py:104-108 | A favourite does not set the cart flag. Following b does not make b follow a. |
| Serializers.GetRecipes | backend/api/serializers.py:113-120 | Without a limit, the whole list. With a limit n ≥ 0, a prefix of length min(n, total). A negative limit is an error. |
| Serializers.RecipesCount | backend/api/serializers.py:110-111 | The count is zero iff the author has no recipe. |
| Serializers.NoneAuthored | backend/api/serializers.py:110-111 | The author's recipe set is empty iff no recipe names the author. |
| Serializers.ListingAgreesWithCount | backend/api/serializers.py:110-120 | When the author's recipes are listed once each, the listing has `recipes_count` entries, or min(limit, `recipes_count`) with a limit. Every entry is the author's. |
| Serializers.SelfGuardAsWritten | backend/api/serializers.py:138-141 | The guard as written never rejects. |
| Serializers.SelfGuard | backend/api/serializers.py:138-141 | The intended guard rejects exactly a requester following itself. |
| Views.Toggle | backend/api/views.py:125-149 | POST inserts an absent pair with 201, or answers 400 and changes nothing. DELETE always answers 204 and the pair is absent afterwards. No other pair changes. |
| Views.PostTwiceRefused | backend/api/views.py:133-144 | A second POST of the same pair answers 400 and changes nothing. |
| Views.DeleteIdempotent | backend/api/views.py:146-149 | A repeated DELETE answers 204 again and leaves the same table. |
| Views.PostThenDeleteRestores | backend/api/views.py:132-149 | POST then DELETE on an absent pair restores the table. |
| Views.ToggleFavoriteOrCart | backend/api/views.py:151-165 | A missing recipe answers 404 and changes nothing. Otherwise the chosen table moves as `Toggle` says and every other table is unchanged. The invariant holds. |
| Views.FlagsAfterToggle | backend/api/views.py:125-149 | After a toggle, the requester's flag on that table is true iff the verb was POST. The other table's flag is unchanged. |
| Views.SubscribeWith | backend/api/views.py:75-95 | A missing author gives 404. POST answers 400 if the guard rejects, 200 if the edge exists, and 201 with the edge inserted otherwise. DELETE answers 404 if the edge is absent and 204 with it removed otherwise. Only that edge changes. |
| Views.Subscribe | backend/api/views.py:75-95 | With the intended guard, following oneself answers 400 and never creates a self edge. |
| Views.SubscribeAsWritten | backend/api/views.py:78-90 | With the guard as written, the endpoint behaves as though no guard existed. |
| Views.SelfSubscribeSlipsThrough | backend/api/serializers.py:138-141 | As written, an account following itself gets 201 and a self edge. The intended guard answers 400. |
| Views.NoSelfEdgeCreated | backend/api/views.py:78-90 | With the intended guard, no request adds a self edge. |
| Views.SubscribeTwice | backend/api/views.py:83-90 | The first POST inserts the edge with 201. A second POST answers 200 without a new row, and the reverse edge is untouched. |
| Views.UnsubscribeTwice | backend/api/views.py:92-95 | DELETE removes exactly the edge with 204. A second DELETE answers 404. |
| Views.SubscribeAction | backend/api/views.py:72-95 | The status and the new subscription table are those of `Subscribe`, and nothing else changes. The invariant holds. |
| ShoppingList.CartOf | backend/api/views.py:184 | The cart is exactly the recipes paired with the user in the cart table. |
| ShoppingList.Joined | backend/api/views.py:185 | Defines a line row joined with its ingredient: name, unit and amount. |
| ShoppingList.CartRows | backend/api/views.py:183-187 | The joined rows are exactly the cart's line rows joined with their ingredient, at most one per line row. |
| ShoppingList.CartRowsSum | backend/api/views.py:183-187 | For each key, the sum over the joined rows equals the sum taken directly over the cart's line rows. |
| ShoppingList.AddRow | backend/api/views.py:185-186 | Defines folding one row into the groups: add its amount to the group with its key, or append a new group. `AddRowKeys` and `AddRowAmounts` state its effect. |
| ShoppingList.Group | backend/api/views.py:183-187 | Defines the grouped sum as a fold of `AddRow` over the rows. `GroupSums` states what it computes. |
| ShoppingList.FindKey | backend/api/views.py:185-186 | Finds the index of the group with the key, or answers that none exists. |
| ShoppingList.SumForAbsent | backend/api/views.py:186 | A key that no row has sums to zero. |
| ShoppingList.AddRowKeys | backend/api/views.py:185-186 | Folding in a row adds its key to the groups and keeps keys unique. |
| ShoppingList.AddRowAmounts | backend/api/views.py:186 | Folding in a row adds its amount to the group with its key only. |
| ShoppingList.GroupSums | backend/api/views.py:183-187 | Exactly one group per (name, unit) present in the rows. Each group's amount is the sum over the rows with that key. |
| ShoppingList.NatToDecimal | backend/api/views.py:189 | Digits only, with no leading zero except for zero itself. |
| ShoppingList.NatDecimalRoundTrip | backend/api/views.py:189 | Reading the digits back gives the number. |
| ShoppingList.IntToDecimal | backend/api/views.py:189 | A leading minus sign appears exactly for negative amounts. |
| ShoppingList.IntDecimalRoundTrip | backend/api/views.py:189 | The rendered amount is integer text, and reading it back gives the amount. |
| ShoppingList.Render | backend/api/views.py:188-191 | Defines a list line: it starts with the name and ": ", and the rest is the amount in decimal, a space and the unit. |
| ShoppingList.Header | backend/api/views.py:178-181 | Defines the first element of the list: the title `TITLE`, the user's first name and the timestamp, each followed by a newline. The footer constant is `FOOTER`. |
| ShoppingList.RenderAll | backend/api/views.py:188-191 | Defines the generator's output: one rendered line per group, in order. |
| ShoppingList.ShoppingParts | backend/api/views.py:178-194 | Defines the list before joining: the header first, one rendered line per group in order, and the footer last. |
| ShoppingList.ShoppingTextShape | backend/api/views.py:178-195 | The text starts with the header and ends with the footer. |
| ShoppingList.CartGroups | backend/api/views.py:183-187 | Defines the grouped cart: `Group` over the cart's joined rows. `CartGroupsSum` states what it holds. |
| ShoppingList.CartGroupsSum | backend/api/views.py:167-191 | On consistent tables the list has one entry per (name, unit) among the cart's lines, and a key appears iff some line of a recipe in the cart has it. Each entry carries that ingredient's total amount over every recipe in the cart. |
| ShoppingList.ExtendRendered | backend/api/views.py:192 | `extend` appends one rendered line per group, in order. |
| ShoppingList.CreateShoppingList | backend/api/views.py:167-195 | The text is the header, the grouped lines and the footer, joined by newlines. |
| ShoppingList.DownloadShoppingCart | backend/api/views.py:201-212 | An empty cart answers 400 before any list is built. Otherwise the body is the shopping-list text. |

## Left out

- HTTP plumbing is not modelled. This covers response bodies, serializer output, status objects, content type and the attachment filename, routing, pagination and `RecipeFilter`. Only the status codes the endpoints choose are modelled.
- The `IsAuthenticated` gate (401 for anonymous requests) of the favourite, cart, subscribe and password actions is not modelled. Those actions take the requester's account id as a precondition. The recipe view set has no such gate, and `Serializers.CreateRecipe` models an anonymous create.
- Image handling (`Base64ImageField`, file storage) is not modelled. An image is an opaque string.
- Serializers.CheckWrite: does not decode the image. Any submitted image string is accepted, where the source refuses text that is not a valid base64 image.
- Serializers.CheckWrite: a field sent as JSON `null` is not represented. A field is either absent or carries a value.
- Serializers.CheckWrite: an unknown ingredient id is reported as a validation error. In the source it is a foreign-key failure that the database raises when the transaction commits, so it is a server error, not a 400. Either way nothing is written.
- Only ASCII whitespace (space, tab to carriage return, and the four separators 28 to 31) is trimmed. The rest of Unicode whitespace is not modelled.
- Store.Database.AddUser: checks the unique columns and the role only. Field lengths, blank values, email format and the username validator are not modelled.
- `validate_password`, `check_password` and password hashing are foreign library calls. They are parameters of type `Serializers.Hasher`.
- The timestamp in the shopping-list header is formatted outside the model and passed in as an opaque string.
- `recipes_limit` arrives as a query string. Parsing it with `int` is not modelled. An absent or empty value is `None`, and a non-numeric value (a 500 in the source) is not represented.
- The shopping-list function as written refers to names that are never imported. It also uses relation paths that do not match the related names, and the download action sits at module level. The model follows the query shape and the stated intent instead. The commented-out variant after it is dead code.
- Shopping-list group order is first appearance in the line table. The grouping query fixes no order.
- Transactions, isolation and concurrent requests are not modelled. Atomicity is modelled as validate-before-write: a failing write changes nothing. The ingredient foreign-key failure, which the database would raise inside the transaction, is checked before writing.
- Integers are unbounded, so the 32-bit width of the integer columns and the range validators DRF derives from it are not modelled.
- `Recipe.pub_date` and the default orderings are not modelled. `GetRecipes` takes the author's recipes in the order the queryset gives.
- The seed-data command, the admin configuration and URL routing are not modelled.
- The user list, `me`, the tag and ingredient list views and `UserCreateSerializer` are not modelled. Registration's unique columns are covered by `Store.Database.AddUser`.
- Serializers.GetRecipes: is stated over the queryset handed to it. `Serializers.ListingAgreesWithCount` ties it to the author's recipes only when that queryset lists each recipe once.

## Findings

| source | as written | input that shows it | evidently intended | confidence | as-written member | corrected member |
|---|---|---|---|---|---|---|
| backend/api/serializers.py:138-141 | `validate` compares the requesting user with the validated field data. That data is an empty mapping, since every field of the serializer is read-only. The guard never fires. | Account u sends POST to its own subscribe endpoint (pk = u). The guard passes and the endpoint answers 201 with a (u, u) edge. | Following oneself is refused with 400 and no edge is written. | not executed | Views.SubscribeAsWritten | Views.Subscribe |
