/**
 * The category handlers: `getCategories`, all categories by name, and
 * `createCategory`, an insert that keeps category names unique.
 */
module Categories {
  import opened Js
  import opened Schema
  import opened Sorting

  /** Categories compared by name. */
  predicate NameLe(a: Category, b: Category) {
    LexLe(a.name, b.name)
  }

  lemma NameLeIsTotalPreorder()
    ensures TotalPreorder(NameLe)
  {
    forall a: Category, b: Category
      ensures NameLe(a, b) || NameLe(b, a)
    {
      LexLeTotal(a.name, b.name);
    }
    forall a: Category, b: Category, c: Category | NameLe(a, b) && NameLe(b, c)
      ensures NameLe(a, c)
    {
      LexLeTransitive(a.name, b.name, c.name);
    }
  }

  /** `getCategories`: the rows of the table, rearranged by name ascending. */
  function GetCategories(categories: map<nat, Category>): (r: seq<Category>)
    ensures |r| == |categories|
    ensures forall i, j :: 0 <= i < j < |r| ==> LexLe(r[i].name, r[j].name)
    ensures multiset(r) == multiset(Rows(categories))
  {
    NameLeIsTotalPreorder();
    SortBy(Rows(categories), NameLe)
  }

  /** The listing holds every category and nothing else. */
  lemma GetCategoriesListsTable(categories: map<nat, Category>)
    ensures forall k :: k in categories ==> categories[k] in GetCategories(categories)
    ensures forall c :: c in GetCategories(categories) ==> exists k :: k in categories && categories[k] == c
  {
    var r := GetCategories(categories);
    var rows := Rows(categories);
    forall c ensures c in r <==> c in rows {
      assert c in r <==> c in multiset(r);
      assert c in rows <==> c in multiset(rows);
    }
  }

  /** With unique names the listing is strictly ascending: no name is listed twice. */
  lemma GetCategoriesStrictlyAscending(categories: map<nat, Category>)
    requires UniqueNames(categories)
    requires forall k :: k in categories ==> categories[k].id == k
    ensures var r := GetCategories(categories);
            forall i, j :: 0 <= i < j < |r| ==> r[i].name != r[j].name
  {
    forall i, j | 0 <= i < j < |GetCategories(categories)|
      ensures GetCategories(categories)[i].name != GetCategories(categories)[j].name
    {
      NamesDiffer(categories, i, j);
    }
  }

  lemma NamesDiffer(categories: map<nat, Category>, i: int, j: int)
    requires UniqueNames(categories)
    requires forall k :: k in categories ==> categories[k].id == k
    requires 0 <= i < j < |GetCategories(categories)|
    ensures GetCategories(categories)[i].name != GetCategories(categories)[j].name
  {
    var r := GetCategories(categories);
    GetCategoriesListsTable(categories);
    assert r[i] in r && r[j] in r;
    var ki :| ki in categories && categories[ki] == r[i];
    var kj :| kj in categories && categories[kj] == r[j];
    RowsDistinct(categories, i, j);
  }

  /** Two positions of the listing hold different rows when rows carry their own ids. */
  lemma RowsDistinct(categories: map<nat, Category>, i: int, j: int)
    requires forall k :: k in categories ==> categories[k].id == k
    requires var r := GetCategories(categories); 0 <= i < j < |r|
    ensures var r := GetCategories(categories); r[i] != r[j]
  {
    var r := GetCategories(categories);
    if r[i] == r[j] {
      // The row then occurs twice in the listing, hence twice in the table's rows,
      // but the table holds it under one key only.
      RepeatedCount(r, i, j);
      RowsOccurOnce(categories, r[i]);
    }
  }

  /** Inserting a category under the next id with a name not yet taken keeps the database consistent. */
  lemma InsertKeepsConsistent(t: Tables, name: string)
    requires Consistent(t)
    requires forall k :: k in t.categories ==> t.categories[k].name != name
    ensures Consistent(t.(categories := t.categories[t.nextCategoryId := Category(t.nextCategoryId, name)],
                          nextCategoryId := t.nextCategoryId + 1))
  {
  }

  /** The outcome of `createCategory`. */
  method CreateCategory(db: Database, name: Value) returns (reply: Reply<Category>)
    requires db.Valid()
    modifies db`categories, db`nextCategoryId
    ensures db.Valid()
    ensures !name.Str? || name.s == "" ==>
      reply == Fail(400, "Invalid category name") && unchanged(db)
    ensures name.Str? && name.s != "" && (exists k :: k in old(db.categories) && old(db.categories)[k].name == name.s) ==>
      reply == Fail(409, "Category already exists") && unchanged(db)
    ensures name.Str? && name.s != "" && (forall k :: k in old(db.categories) ==> old(db.categories)[k].name != name.s) ==>
      && reply == Ok(201, Category(old(db.nextCategoryId), name.s))
      && old(db.nextCategoryId) !in old(db.categories)
      && db.categories == old(db.categories)[old(db.nextCategoryId) := Category(old(db.nextCategoryId), name.s)]
      && db.nextCategoryId == old(db.nextCategoryId) + 1
  {
    if !name.Str? || name.s == "" {
      return Fail(400, "Invalid category name");
    }
    var existing := Find(db.categories, (c: Category) => c.name == name.s);
    if existing.Some? {
      return Fail(409, "Category already exists");
    }
    var category := Category(db.nextCategoryId, name.s);
    ghost var before := db.Snapshot();
    InsertKeepsConsistent(before, name.s);
    db.categories, db.nextCategoryId := db.categories[db.nextCategoryId := category], db.nextCategoryId + 1;
    assert db.Snapshot() == before.(categories := db.categories, nextCategoryId := db.nextCategoryId);
    reply := Ok(201, category);
  }
}
