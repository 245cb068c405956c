/** The shopping-list download of backend/api/views.py: the lines of every
    recipe in a user's cart, grouped by ingredient (name, unit) with the
    amounts summed, rendered one per line between a header and a footer. */
module ShoppingList {
  import opened Common
  import opened UsersModels
  import opened RecipesModels
  import opened Store

  /** One output line before rendering: an ingredient's name, its
      measurement unit and an amount. */
  datatype Entry = Entry(name: string, unit: string, amount: int)

  /** The grouping key of the query, `.values("name", measurement=...)`. */
  function Key(e: Entry): (string, string) {
    (e.name, e.unit)
  }

  function KeysOf(entries: seq<Entry>): set<(string, string)> {
    set e | e in entries :: Key(e)
  }

  /** At most one entry per (name, unit). */
  predicate UniqueKeys(entries: seq<Entry>) {
    forall i, j :: 0 <= i < j < |entries| ==> Key(entries[i]) != Key(entries[j])
  }

  // ---------------------------------------------------------------------
  // The rows the query groups

  /** The recipes in `user`'s cart. */
  function CartOf(carts: set<(UserId, RecipeId)>, user: UserId): (cart: set<RecipeId>)
    ensures forall r :: r in cart <==> (user, r) in carts
  {
    set p | p in carts && p.0 == user :: p.1
  }

  /** A line row joined with its ingredient: name, unit and amount. */
  function Joined(l: RecipeLine, ingredients: map<IngredientId, Ingredient>): Entry
    requires l.ingredient in ingredients
  {
    Entry(ingredients[l.ingredient].name, ingredients[l.ingredient].measurementUnit, l.amount)
  }

  /** Every line row whose recipe is in the cart, joined with its
      ingredient, in row order. */
  function CartRows(lines: seq<RecipeLine>, cart: set<RecipeId>,
                    ingredients: map<IngredientId, Ingredient>): (rows: seq<Entry>)
    requires forall l :: l in lines ==> l.ingredient in ingredients
    ensures |rows| <= |lines|
    ensures forall e :: e in rows <==>
      exists l :: l in lines && l.recipe in cart && e == Joined(l, ingredients)
  {
    if lines == [] then []
    else
      var front := lines[..|lines| - 1];
      var l := lines[|lines| - 1];
      assert forall m :: m in lines <==> m in front || m == l;
      CartRows(front, cart, ingredients)
        + (if l.recipe in cart then [Joined(l, ingredients)] else [])
  }

  /** The reference total: the sum of `amount` over the rows with key `k`. */
  function SumFor(rows: seq<Entry>, k: (string, string)): int {
    if rows == [] then 0
    else SumFor(rows[..|rows| - 1], k) + (if Key(rows[|rows| - 1]) == k then rows[|rows| - 1].amount else 0)
  }

  /** The same total read straight off the tables: the amounts of the
      cart's line rows whose ingredient has name and unit `k`. */
  function LineSum(lines: seq<RecipeLine>, cart: set<RecipeId>,
                   ingredients: map<IngredientId, Ingredient>, k: (string, string)): int
    requires forall l :: l in lines ==> l.ingredient in ingredients
  {
    if lines == [] then 0
    else
      var l := lines[|lines| - 1];
      var ing := ingredients[l.ingredient];
      LineSum(lines[..|lines| - 1], cart, ingredients, k)
        + (if l.recipe in cart && (ing.name, ing.measurementUnit) == k then l.amount else 0)
  }

  lemma {:induction false} CartRowsSum(lines: seq<RecipeLine>, cart: set<RecipeId>,
                                       ingredients: map<IngredientId, Ingredient>, k: (string, string))
    requires forall l :: l in lines ==> l.ingredient in ingredients
    ensures SumFor(CartRows(lines, cart, ingredients), k) == LineSum(lines, cart, ingredients, k)
  {
    if lines != [] {
      var front := lines[..|lines| - 1];
      var l := lines[|lines| - 1];
      CartRowsSum(front, cart, ingredients, k);
      var rows := CartRows(lines, cart, ingredients);
      var frontRows := CartRows(front, cart, ingredients);
      if l.recipe in cart {
        assert rows[..|rows| - 1] == frontRows;
      } else {
        assert rows == frontRows;
      }
    }
  }

  // ---------------------------------------------------------------------
  // Grouping

  function FindKey(entries: seq<Entry>, k: (string, string)): (i: Option<nat>)
    ensures i.Some? ==> i.value < |entries| && Key(entries[i.value]) == k
    ensures i.None? ==> forall j :: 0 <= j < |entries| ==> Key(entries[j]) != k
  {
    if entries == [] then None
    else if Key(entries[0]) == k then Some(0)
    else match FindKey(entries[1..], k)
      case None => None
      case Some(j) => Some(j + 1)
  }

  /** Fold one row into the groups: add its amount to the group with its
      key, or open a new group at the end. */
  function AddRow(groups: seq<Entry>, row: Entry): seq<Entry> {
    match FindKey(groups, Key(row))
    case Some(i) => groups[i := groups[i].(amount := groups[i].amount + row.amount)]
    case None => groups + [row]
  }

  /** `.annotate(amount=Sum(...))` over the grouped rows; groups appear in
      the order their key is first met. */
  function Group(rows: seq<Entry>): seq<Entry> {
    if rows == [] then []
    else AddRow(Group(rows[..|rows| - 1]), rows[|rows| - 1])
  }

  lemma {:induction false} SumForAbsent(rows: seq<Entry>, k: (string, string))
    requires k !in KeysOf(rows)
    ensures SumFor(rows, k) == 0
  {
    if rows != [] {
      var front := rows[..|rows| - 1];
      assert KeysOf(front) <= KeysOf(rows);
      SumForAbsent(front, k);
    }
  }

  /** Folding a row in adds its key to the groups' keys and keeps them
      unique. */
  lemma AddRowKeys(groups: seq<Entry>, row: Entry)
    requires UniqueKeys(groups)
    ensures UniqueKeys(AddRow(groups, row))
    ensures KeysOf(AddRow(groups, row)) == KeysOf(groups) + {Key(row)}
    ensures |AddRow(groups, row)| >= |groups|
    ensures forall i :: 0 <= i < |groups| ==> Key(AddRow(groups, row)[i]) == Key(groups[i])
  {
    var g' := AddRow(groups, row);
    match FindKey(groups, Key(row)) {
      case Some(m) =>
        forall i | 0 <= i < |g'| ensures Key(g'[i]) == Key(groups[i]) { }
        forall x | x in KeysOf(groups) ensures x in KeysOf(g') {
          var e :| e in groups && Key(e) == x;
          var i :| 0 <= i < |groups| && groups[i] == e;
          assert Key(g'[i]) == x;
        }
        forall x | x in KeysOf(g') ensures x in KeysOf(groups) {
          var e :| e in g' && Key(e) == x;
          var i :| 0 <= i < |g'| && g'[i] == e;
          assert Key(groups[i]) == x;
        }
        assert Key(groups[m]) in KeysOf(groups);
      case None =>
        assert g' == groups + [row];
    }
  }

  /** Folding a row in adds its amount to the group of its key, opening
      that group when the key is new. */
  lemma AddRowAmounts(groups: seq<Entry>, row: Entry)
    requires UniqueKeys(groups)
    ensures forall i :: 0 <= i < |AddRow(groups, row)| ==>
      AddRow(groups, row)[i].amount ==
        (if i < |groups| then groups[i].amount else 0)
        + (if Key(AddRow(groups, row)[i]) == Key(row) then row.amount else 0)
  {
  }

  /** The aggregation has exactly one entry per (name, unit) that occurs
      in the rows, and each entry's amount is the sum over the rows of
      that key. */
  lemma {:induction false} GroupSums(rows: seq<Entry>)
    ensures UniqueKeys(Group(rows))
    ensures KeysOf(Group(rows)) == KeysOf(rows)
    ensures forall i :: 0 <= i < |Group(rows)| ==> Group(rows)[i].amount == SumFor(rows, Key(Group(rows)[i]))
  {
    if rows != [] {
      var front := rows[..|rows| - 1];
      var row := rows[|rows| - 1];
      assert rows == front + [row];
      GroupSums(front);
      var g := Group(front);
      assert Group(rows) == AddRow(g, row);
      assert KeysOf(rows) == KeysOf(front) + {Key(row)};
      AddRowKeys(g, row);
      AddRowAmounts(g, row);
      if Key(row) !in KeysOf(g) {
        SumForAbsent(front, Key(row));
      }
    }
  }

  // ---------------------------------------------------------------------
  // Rendering numbers

  predicate IsDigit(c: char) {
    '0' <= c <= '9'
  }

  function DigitChar(d: int): (c: char)
    requires 0 <= d < 10
    ensures IsDigit(c)
  {
    ('0' as int + d) as char
  }

  function DigitValue(c: char): int
    requires IsDigit(c)
  {
    c as int - '0' as int
  }

  predicate AllDigits(s: string) {
    forall i :: 0 <= i < |s| ==> IsDigit(s[i])
  }

  /** A natural number in decimal, as `str` writes it: digits only, and no
      leading zero except for zero itself. */
  function NatToDecimal(n: nat): (s: string)
    ensures |s| >= 1 && AllDigits(s)
    ensures s[0] == '0' ==> n == 0
    decreases n
  {
    if n < 10 then [DigitChar(n)]
    else NatToDecimal(n / 10) + [DigitChar(n % 10)]
  }

  /** The number a string of digits denotes. */
  function DecimalValue(s: string): nat
    requires AllDigits(s)
  {
    if s == [] then 0
    else 10 * DecimalValue(s[..|s| - 1]) + DigitValue(s[|s| - 1])
  }

  lemma {:induction false} NatDecimalRoundTrip(n: nat)
    ensures DecimalValue(NatToDecimal(n)) == n
    decreases n
  {
    var s := NatToDecimal(n);
    if n >= 10 {
      NatDecimalRoundTrip(n / 10);
      assert s[..|s| - 1] == NatToDecimal(n / 10);
    } else {
      assert s[..|s| - 1] == [];
    }
  }

  /** An integer in decimal: a minus sign for a negative one (amounts are
      not checked for sign), then the digits of its magnitude. */
  function IntToDecimal(n: int): (s: string)
    ensures |s| >= 1 && (s[0] == '-' <==> n < 0)
  {
    if n < 0 then "-" + NatToDecimal(-n) else NatToDecimal(n)
  }

  /** The text of an integer: an optional minus sign and at least one
      digit. */
  predicate IsIntText(s: string) {
    if |s| >= 1 && s[0] == '-' then |s| >= 2 && AllDigits(s[1..]) else |s| >= 1 && AllDigits(s)
  }

  function IntValue(s: string): int
    requires IsIntText(s)
  {
    if s[0] == '-' then -(DecimalValue(s[1..]) as int) else DecimalValue(s)
  }

  /** Reading the rendered amount back gives the amount. */
  lemma IntDecimalRoundTrip(n: int)
    ensures IsIntText(IntToDecimal(n))
    ensures IntValue(IntToDecimal(n)) == n
  {
    var s := IntToDecimal(n);
    if n < 0 {
      NatDecimalRoundTrip(-n);
      assert s[1..] == NatToDecimal(-n);
    } else {
      NatDecimalRoundTrip(n);
    }
  }

  // ---------------------------------------------------------------------
  // The list text

  /** `f'{name}: {amount} {measurement}'` */
  function Render(e: Entry): (line: string)
    ensures e.name + ": " <= line
    ensures line[|e.name| + 2..] == IntToDecimal(e.amount) + " " + e.unit
  {
    e.name + ": " + IntToDecimal(e.amount) + " " + e.unit
  }

  /** The first element of the list: a title, a blank line, the user's
      first name and the timestamp, which is formatted outside the model. */
  function Header(firstName: string, timestamp: string): string {
    TITLE + firstName + NEWLINE + timestamp + NEWLINE
  }

  const TITLE: string := "Список покупок для:\n\n"

  const NEWLINE: string := "\n"

  const FOOTER: string := "\nПосчитано в Foodgram"

  /** The generator of rendered group lines. */
  function RenderAll(groups: seq<Entry>): (lines: seq<string>)
    ensures |lines| == |groups|
    ensures forall i :: 0 <= i < |groups| ==> lines[i] == Render(groups[i])
  {
    seq(|groups|, i requires 0 <= i < |groups| => Render(groups[i]))
  }

  /** The list before joining: the header, one rendered line per group,
      the footer. */
  function ShoppingParts(firstName: string, timestamp: string, groups: seq<Entry>): (parts: seq<string>)
    ensures |parts| == |groups| + 2
    ensures parts[0] == Header(firstName, timestamp) && parts[|parts| - 1] == FOOTER
    ensures forall i :: 0 <= i < |groups| ==> parts[i + 1] == Render(groups[i])
  {
    [Header(firstName, timestamp)] + RenderAll(groups) + [FOOTER]
  }

  /** The downloaded text starts with the header and ends with the
      footer. */
  lemma ShoppingTextShape(firstName: string, timestamp: string, groups: seq<Entry>)
    ensures var text := Join(ShoppingParts(firstName, timestamp, groups), NEWLINE);
      && Header(firstName, timestamp) <= text
      && |FOOTER| <= |text| && text[|text| - |FOOTER|..] == FOOTER
  {
    JoinShape(ShoppingParts(firstName, timestamp, groups), NEWLINE);
  }

  /** The grouped cart of `user`. */
  function CartGroups(t: Tables, user: UserId): seq<Entry>
    requires forall l :: l in t.lines ==> l.ingredient in t.ingredients
  {
    Group(CartRows(t.lines, CartOf(t.carts, user), t.ingredients))
  }

  /** What the list promises, on consistent tables: one entry per (name,
      unit) among the cart's lines, each carrying the total amount of that
      ingredient over every recipe in the cart. */
  lemma CartGroupsSum(t: Tables, user: UserId)
    requires ValidTables(t)
    ensures var groups := CartGroups(t, user);
      && UniqueKeys(groups)
      && KeysOf(groups) == KeysOf(CartRows(t.lines, CartOf(t.carts, user), t.ingredients))
      && (forall k :: k in KeysOf(groups) <==>
            exists l :: l in t.lines && (user, l.recipe) in t.carts && k == Key(Joined(l, t.ingredients)))
      && forall i :: 0 <= i < |groups| ==>
           groups[i].amount == LineSum(t.lines, CartOf(t.carts, user), t.ingredients, Key(groups[i]))
  {
    var rows := CartRows(t.lines, CartOf(t.carts, user), t.ingredients);
    GroupSums(rows);
    forall i | 0 <= i < |Group(rows)|
      ensures Group(rows)[i].amount == LineSum(t.lines, CartOf(t.carts, user), t.ingredients, Key(Group(rows)[i]))
    {
      CartRowsSum(t.lines, CartOf(t.carts, user), t.ingredients, Key(Group(rows)[i]));
    }
  }

  /** `list.extend(...)` with one rendered line per group, in order. */
  method ExtendRendered(start: seq<string>, groups: seq<Entry>) returns (list: seq<string>)
    ensures list == start + RenderAll(groups)
  {
    ghost var rendered := RenderAll(groups);
    list := start;
    var i := 0;
    while i < |groups|
      invariant 0 <= i <= |groups|
      invariant list == start + rendered[..i]
    {
      assert rendered[..i + 1] == rendered[..i] + [Render(groups[i])];
      list := list + [Render(groups[i])];
      i := i + 1;
    }
    assert rendered[..i] == rendered;
  }

  /** `create_shoping_list(user)`: start the list with the header, extend
      it with one rendered line per group, append the footer, and join with
      newlines. */
  method CreateShoppingList(db: Database, user: UserId, timestamp: string) returns (text: string)
    requires db.Valid() && user in db.users
    ensures text == Join(ShoppingParts(db.users[user].firstName, timestamp, CartGroups(db.Snapshot(), user)), NEWLINE)
  {
    var groups := Group(CartRows(db.lines, CartOf(db.carts, user), db.ingredients));
    assert groups == CartGroups(db.Snapshot(), user);
    // shopping_list = [header]; shopping_list.extend(ing_list)
    var list := ExtendRendered([Header(db.users[user].firstName, timestamp)], groups);
    // shopping_list.append(footer)
    list := list + [FOOTER];
    text := Join(list, NEWLINE);
  }

  /** `download_shopping_cart`: an empty cart is 400 before any list is
      built; otherwise the body is the shopping-list text. */
  method DownloadShoppingCart(db: Database, user: UserId, timestamp: string)
    returns (r: Result<string, Status>)
    requires db.Valid() && user in db.users
    ensures r.Failure? <==> forall p :: p in db.carts ==> p.0 != user
    ensures r.Failure? ==> r.error == BadRequest400
    ensures r.Success? ==>
      r.value == Join(ShoppingParts(db.users[user].firstName, timestamp, CartGroups(db.Snapshot(), user)), NEWLINE)
  {
    var cart := CartOf(db.carts, user);
    if cart == {} {
      return Failure(BadRequest400);
    }
    var text := CreateShoppingList(db, user, timestamp);
    r := Success(text);
  }
}
