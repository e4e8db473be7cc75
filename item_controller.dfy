/** controllers/itemController.js: the handlers behind /items. */
module ItemController {
  import opened Wrappers
  import opened Schema
  import opened Http
  import opened CategoryModel
  import opened SubCategoryModel
  import opened ItemModel
  import opened Database

  /** `baseAmount - discount`. Tax takes no part. When either operand is missing the JavaScript
      subtraction gives NaN, which no Number path accepts: that is `None` here. */
  function Total(baseAmount: Option<int>, discount: Option<int>): (total: Option<int>)
    ensures total.Some? <==> baseAmount.Some? && discount.Some?
    ensures total.Some? ==> total.value + discount.value == baseAmount.value
  {
    if baseAmount.Some? && discount.Some? then Some(baseAmount.value - discount.value) else None
  }

  /** The record createItem builds: every field from the body, the total computed from it, and the
      path parameters as parent references. */
  function ItemFor(body: Body, subcategoryId: Option<Id>, categoryId: Option<Id>): Item
  {
    NewItem(body.name, body.image, body.description, body.taxApplicability, body.tax,
            body.baseAmount, body.discount, Total(body.baseAmount, body.discount),
            categoryId, subcategoryId)
  }

  /** A created item's total is its base amount less its discount, and its tax fields are the
      body's own: nothing is taken from the parent, and the tax does not enter the total. */
  lemma ItemAmounts(body: Body, subcategoryId: Option<Id>, categoryId: Option<Id>)
    requires ValidItem(ItemFor(body, subcategoryId, categoryId))
    ensures body.baseAmount.Some? && body.discount.Some?
    ensures ItemFor(body, subcategoryId, categoryId).totalAmount == Some(body.baseAmount.value - body.discount.value)
    ensures ItemFor(body, subcategoryId, categoryId).taxApplicability == body.taxApplicability
    ensures ItemFor(body, subcategoryId, categoryId).tax == body.tax
    ensures forall t :: ItemFor(body.(tax := t), subcategoryId, categoryId).totalAmount
                        == ItemFor(body, subcategoryId, categoryId).totalAmount
  {
    ItemRules(ItemFor(body, subcategoryId, categoryId));
  }

  /** The parent createItem looks up before anything else: the subcategory when its id is given,
      else the category when its id is given. */
  predicate ParentFound(db: Store, subcategoryId: Option<Id>, categoryId: Option<Id>)
    reads db
  {
    if subcategoryId.Some? then subcategoryId.value in db.subcategories
    else categoryId.Some? && categoryId.value in db.categories
  }

  /** createItem. The parent is chosen first: a given subcategory id that names nothing is 404;
      otherwise a given category id that names nothing is 404; with neither id it is 400; in all
      three cases nothing changes. The item is then built from the body and saved. Created under a
      subcategory, its id is appended once, at the end, to that subcategory's items and the
      subcategory is saved; that save validates the whole subcategory again, so it fails when the
      subcategory no longer passes its schema or for any other reason (`parentSaveFails`), and a
      failing second save answers 400 and leaves the saved item unlisted. Created under a category,
      no list changes. A record the schema rejects is answered 400 with nothing stored. Each route
      supplies one id, never both. */
  method CreateItem(db: Store, subcategoryId: Option<Id>, categoryId: Option<Id>, body: Body, parentSaveFails: bool)
    returns (r: Response<Doc<Item>>)
    requires db.Valid()
    requires subcategoryId.None? || categoryId.None?
    modifies db
    ensures db.Valid()
    ensures db.categories == old(db.categories)
    ensures subcategoryId.Some? && subcategoryId.value !in old(db.subcategories) ==>
      r == NotFound
    ensures subcategoryId.None? && categoryId.Some? && categoryId.value !in old(db.categories) ==>
      r == NotFound
    ensures subcategoryId.None? && categoryId.None? ==> r == BadRequest
    ensures !old(ParentFound(db, subcategoryId, categoryId)) ==>
      && db.subcategories == old(db.subcategories) && db.items == old(db.items)
      && db.nextId == old(db.nextId)
    ensures old(ParentFound(db, subcategoryId, categoryId)) ==>
      var item := ItemFor(body, subcategoryId, categoryId);
      var id := old(db.nextId);
      if !ValidItem(item) then
        && r == BadRequest
        && db.subcategories == old(db.subcategories) && db.items == old(db.items)
      else
        && id !in old(db.items)
        && db.items == old(db.items)[id := item]
        && if subcategoryId.None? then
             && r == Created(Doc(id, item))
             && db.subcategories == old(db.subcategories)
           else
             var parent := old(db.subcategories[subcategoryId.value]);
             && id !in parent.items
             && var listed := parent.(items := parent.items + [id]);
                if parentSaveFails || !ValidSubCategory(listed) then
                  && r == BadRequest
                  && db.subcategories == old(db.subcategories)
                else
                  && r == Created(Doc(id, item))
                  && db.subcategories == old(db.subcategories)[subcategoryId.value := listed]
    ensures r.Created? ==>
      && r.value.fields.category == categoryId
      && r.value.fields.subcategory == subcategoryId
      && body.baseAmount.Some? && body.discount.Some?
      && r.value.fields.totalAmount == Some(body.baseAmount.value - body.discount.value)
      && r.value.fields.taxApplicability == body.taxApplicability
      && r.value.fields.tax == body.tax
      && GetItemById(db, r.value.id) == Ok(r.value)
  {
    if subcategoryId.Some? {
      if subcategoryId.value !in db.subcategories {
        return NotFound;
      }
    } else if categoryId.Some? {
      if categoryId.value !in db.categories {
        return NotFound;
      }
    } else {
      return BadRequest;
    }
    var item := ItemFor(body, subcategoryId, categoryId);
    var id := db.NewId();
    if !ValidItem(item) {
      return BadRequest;
    }
    ItemAmounts(body, subcategoryId, categoryId);
    // item.save()
    SaveNewItem(db.categories, db.subcategories, db.items, id, item);
    db.items := db.items[id := item];
    if subcategoryId.Some? {
      // parent.items.push(item._id); parent.save()
      var parent := db.subcategories[subcategoryId.value];
      var listed := parent.(items := parent.items + [id]);
      if parentSaveFails || !ValidSubCategory(listed) {
        return BadRequest;
      }
      FreshIdUnlisted(old(db.categories), old(db.subcategories), old(db.items), id);
      ListItem(db.categories, db.subcategories, db.items, db.nextId, subcategoryId.value, id);
      db.subcategories := db.subcategories[subcategoryId.value := listed];
    }
    r := Created(Doc(id, item));
  }

  /** getAllItems: every stored item, each once. */
  function GetAllItems(db: Store): (r: Response<seq<Doc<Item>>>)
    reads db
    requires db.Valid()
    ensures r.Ok?
    ensures forall d :: d in r.value <==> d.id in db.items && db.items[d.id] == d.fields
    ensures forall i, j :: 0 <= i < j < |r.value| ==> r.value[i].id != r.value[j].id
  {
    Ok(Ascending(db.items, db.nextId))
  }

  /** getItemsByCategory, as written. `category.subcategories[0]` is evaluated before the
      `!category` check, so a missing category, or one whose populated list is empty, throws and is
      answered 500; the 404 is never sent. Otherwise only the first subcategory's items come back. */
  function GetItemsByCategory(db: Store, categoryId: Id): (r: Response<seq<Doc<Item>>>)
    reads db
    ensures r.Ok? || r.ServerError?
    ensures r.Ok? ==> categoryId in db.categories && db.categories[categoryId].subcategories != []
    ensures r.Ok? ==> forall d :: d in r.value ==> d.id in db.items && db.items[d.id] == d.fields
  {
    if categoryId !in db.categories then ServerError
    else
      var subcategories := Populate(db.categories[categoryId].subcategories, db.subcategories);
      if subcategories == [] then ServerError
      else Ok(Populate(subcategories[0].fields.items, db.items))
  }

  /** In a valid store, getItemsByCategory answers 500 exactly when the category is missing or
      lists no subcategory; otherwise it answers with the items of the first listed subcategory
      only, in that subcategory's list order, each pointing back to it. So an item created
      directly under the category never appears. */
  lemma ItemsByCategoryFirstSubCategoryOnly(db: Store, categoryId: Id)
    requires db.Valid()
    ensures var r := GetItemsByCategory(db, categoryId);
      r.ServerError? <==> categoryId !in db.categories || db.categories[categoryId].subcategories == []
    ensures var r := GetItemsByCategory(db, categoryId);
      r.Ok? ==>
        var first := db.categories[categoryId].subcategories[0];
        var ids := db.subcategories[first].items;
        && |r.value| == |ids|
        && forall k :: 0 <= k < |ids| ==>
             && r.value[k] == Doc(ids[k], db.items[ids[k]])
             && r.value[k].fields.subcategory == Some(first)
             && r.value[k].fields.category.None?
  {
    if categoryId in db.categories {
      var ids := db.categories[categoryId].subcategories;
      PopulateAll(ids, db.subcategories);
      if ids != [] {
        PopulateAll(db.subcategories[ids[0]].items, db.items);
      }
    }
  }

  /** All items of a sequence of subcategories, subcategory by subcategory, each list populated. */
  function ItemsOf(subcategories: seq<Doc<SubCategory>>, items: map<Id, Item>): (r: seq<Doc<Item>>)
    ensures forall d :: d in r <==>
      d.id in items && items[d.id] == d.fields && exists s :: s in subcategories && d.id in s.fields.items
  {
    if subcategories == [] then []
    else Populate(subcategories[0].fields.items, items) + ItemsOf(subcategories[1..], items)
  }

  /** The documents of `docs` created directly under the category `categoryId`, in their order. */
  function CreatedUnder(docs: seq<Doc<Item>>, categoryId: Id): (r: seq<Doc<Item>>)
    ensures forall d :: d in r <==> d in docs && d.fields.category == Some(categoryId)
  {
    if docs == [] then []
    else (if docs[0].fields.category == Some(categoryId) then [docs[0]] else [])
         + CreatedUnder(docs[1..], categoryId)
  }

  /** getItemsByCategory as evidently intended: 404 for a missing category, otherwise every item
      under the category: the items of every subcategory it lists, then the items created directly
      under it. */
  function ItemsUnderCategory(db: Store, categoryId: Id): (r: Response<seq<Doc<Item>>>)
    reads db
    ensures r.Ok? || r.NotFound?
    ensures r.NotFound? <==> categoryId !in db.categories
  {
    if categoryId !in db.categories then NotFound
    else Ok(ItemsOf(Populate(db.categories[categoryId].subcategories, db.subcategories), db.items)
            + CreatedUnder(Ascending(db.items, db.nextId), categoryId))
  }

  /** In a valid store the intended handler answers with exactly the stored items that some
      subcategory of the category lists or that were created directly under the category; each of
      them belongs to one of its subcategories or to the category itself. */
  lemma ItemsUnderCategoryComplete(db: Store, categoryId: Id)
    requires db.Valid()
    requires categoryId in db.categories
    ensures var r := ItemsUnderCategory(db, categoryId);
      && r.Ok?
      && forall d :: d in r.value <==>
           && d.id in db.items && db.items[d.id] == d.fields
           && ((exists s :: s in db.categories[categoryId].subcategories && d.id in db.subcategories[s].items)
               || d.fields.category == Some(categoryId))
    ensures forall d :: d in ItemsUnderCategory(db, categoryId).value ==>
      || (d.fields.subcategory.Some? && d.fields.subcategory.value in db.categories[categoryId].subcategories)
      || d.fields.category == Some(categoryId)
  {
    var ids := db.categories[categoryId].subcategories;
    var subs := Populate(ids, db.subcategories);
    var listed := ItemsOf(subs, db.items);
    var direct := CreatedUnder(Ascending(db.items, db.nextId), categoryId);
    PopulateAll(ids, db.subcategories);
    forall d | d in listed
      ensures exists s :: s in ids && d.id in db.subcategories[s].items
    {
      var sd :| sd in subs && d.id in sd.fields.items;
      assert sd.id in ids;
    }
    forall d: Doc<Item> | d.id in db.items && db.items[d.id] == d.fields
                && (exists s :: s in ids && d.id in db.subcategories[s].items)
      ensures d in listed
    {
      var s :| s in ids && d.id in db.subcategories[s].items;
      assert Doc(s, db.subcategories[s]) in subs;
    }
  }

  /** Finding: for a missing category the handler answers 500 where the intended answer is 404,
      and for a category without subcategories it answers 500 where the intended answer is 200. */
  lemma MissingCategoryGives500(db: Store, categoryId: Id)
    requires db.Valid()
    requires categoryId !in db.categories || db.categories[categoryId].subcategories == []
    ensures GetItemsByCategory(db, categoryId) == ServerError
    ensures categoryId !in db.categories ==> ItemsUnderCategory(db, categoryId) == NotFound
    ensures categoryId in db.categories ==> ItemsUnderCategory(db, categoryId).Ok?
  {
  }

  /** Finding: an item created directly under the category is under it, but the handler never
      returns it. */
  lemma DirectItemsMissed(db: Store, categoryId: Id, itemId: Id)
    requires db.Valid()
    requires itemId in db.items && db.items[itemId].category == Some(categoryId)
    ensures Doc(itemId, db.items[itemId]) in ItemsUnderCategory(db, categoryId).value
    ensures !(GetItemsByCategory(db, categoryId).Ok?
              && Doc(itemId, db.items[itemId]) in GetItemsByCategory(db, categoryId).value)
  {
    ItemsUnderCategoryComplete(db, categoryId);
    if GetItemsByCategory(db, categoryId).Ok? {
      ItemsByCategoryFirstSubCategoryOnly(db, categoryId);
      var ids := db.categories[categoryId].subcategories;
      var ids2 := db.subcategories[ids[0]].items;
      assert forall k :: 0 <= k < |ids2| ==> GetItemsByCategory(db, categoryId).value[k].fields.category.None?;
    }
  }

  /** Finding: an item of the category's second subcategory is under the category, but the handler
      leaves it out. */
  lemma SecondSubCategoryItemsMissed(db: Store, categoryId: Id, itemId: Id)
    requires db.Valid()
    requires categoryId in db.categories && |db.categories[categoryId].subcategories| >= 2
    requires itemId in db.subcategories[db.categories[categoryId].subcategories[1]].items
    ensures Doc(itemId, db.items[itemId]) in ItemsUnderCategory(db, categoryId).value
    ensures Doc(itemId, db.items[itemId]) !in GetItemsByCategory(db, categoryId).value
  {
    var ids := db.categories[categoryId].subcategories;
    ItemsUnderCategoryComplete(db, categoryId);
    ItemsByCategoryFirstSubCategoryOnly(db, categoryId);
    assert ids[1] in ids;
    assert ids[0] != ids[1];
  }

  /** getItemsBySubCategory: 404 when the subcategory is missing, otherwise its populated items
      list: only stored items that the subcategory lists. */
  function GetItemsBySubCategory(db: Store, subcategoryId: Id): (r: Response<seq<Doc<Item>>>)
    reads db
    ensures r.Ok? || r.NotFound?
    ensures r.NotFound? <==> subcategoryId !in db.subcategories
    ensures r.Ok? ==> forall d :: d in r.value ==>
      d.id in db.subcategories[subcategoryId].items && d.id in db.items && db.items[d.id] == d.fields
  {
    if subcategoryId !in db.subcategories then NotFound
    else Ok(Populate(db.subcategories[subcategoryId].items, db.items))
  }

  /** In a valid store, getItemsBySubCategory answers with one item per listed id, in list order,
      each pointing back to the subcategory. */
  lemma ItemsBySubCategoryInListOrder(db: Store, subcategoryId: Id)
    requires db.Valid()
    requires subcategoryId in db.subcategories
    ensures var ids := db.subcategories[subcategoryId].items;
      var r := GetItemsBySubCategory(db, subcategoryId);
      && r.Ok? && |r.value| == |ids|
      && forall k :: 0 <= k < |ids| ==>
           && r.value[k] == Doc(ids[k], db.items[ids[k]])
           && r.value[k].fields.subcategory == Some(subcategoryId)
  {
    PopulateAll(db.subcategories[subcategoryId].items, db.items);
  }

  /** getItemById: 404 exactly when no item has the id, otherwise that item. */
  function GetItemById(db: Store, id: Id): (r: Response<Doc<Item>>)
    reads db
    ensures r.Ok? || r.NotFound?
    ensures r.NotFound? <==> id !in db.items
    ensures r.Ok? ==> r.value.id == id && r.value.fields == db.items[id]
  {
    if id in db.items then Ok(Doc(id, db.items[id])) else NotFound
  }

  /** The documents of `docs` whose name is exactly `name`, in their order. */
  function Named(docs: seq<Doc<Item>>, name: string): (r: seq<Doc<Item>>)
    ensures forall d :: d in r <==> d in docs && d.fields.name == Some(name)
    ensures (forall i, j :: 0 <= i < j < |docs| ==> docs[i].id < docs[j].id) ==>
            (forall i, j :: 0 <= i < j < |r| ==> r[i].id < r[j].id)
  {
    if docs == [] then []
    else (if docs[0].fields.name == Some(name) then [docs[0]] else []) + Named(docs[1..], name)
  }

  /** getItemByName: `find({ name })` yields a list, possibly empty, so the answer is always 200
      and the 404 branch is never taken. The list holds every item named exactly `name`, each
      once. */
  function GetItemByName(db: Store, name: string): (r: Response<seq<Doc<Item>>>)
    reads db
    requires db.Valid()
    ensures r.Ok?
    ensures forall d :: d in r.value <==>
      d.id in db.items && db.items[d.id] == d.fields && d.fields.name == Some(name)
    ensures forall i, j :: 0 <= i < j < |r.value| ==> r.value[i].id != r.value[j].id
  {
    Ok(Named(Ascending(db.items, db.nextId), name))
  }

  /** The fields updateItem writes, all present in the body. */
  predicate HasItemFields(body: Body)
  {
    && body.name.Some? && body.image.Some? && body.description.Some?
    && body.taxApplicability.Some? && body.tax.Some?
    && body.baseAmount.Some? && body.discount.Some?
  }

  /** updateItem: overwrites name, image, description, taxApplicability, tax, baseAmount and
      discount; totalAmount is not recomputed and the parent references stay. An unknown id is
      answered 404. */
  method UpdateItem(db: Store, id: Id, body: Body) returns (r: Response<Doc<Item>>)
    requires db.Valid()
    requires HasItemFields(body)
    modifies db
    ensures db.Valid()
    ensures db.categories == old(db.categories) && db.subcategories == old(db.subcategories)
    ensures db.nextId == old(db.nextId)
    ensures id !in old(db.items) ==> r == NotFound && db.items == old(db.items)
    ensures id in old(db.items) ==>
      && db.items == old(db.items)[id := old(db.items[id]).(
           name := body.name, image := body.image, description := body.description,
           taxApplicability := body.taxApplicability, tax := body.tax,
           baseAmount := body.baseAmount, discount := body.discount.value)]
      && r == Ok(Doc(id, db.items[id]))
      && GetItemById(db, id) == r
    ensures r.Ok? ==>
      && r.value.fields.totalAmount == old(db.items[id].totalAmount)
      && r.value.fields.category == old(db.items[id].category)
      && r.value.fields.subcategory == old(db.items[id].subcategory)
  {
    if id !in db.items {
      return NotFound;
    }
    var item := db.items[id].(
      name := body.name, image := body.image, description := body.description,
      taxApplicability := body.taxApplicability, tax := body.tax,
      baseAmount := body.baseAmount, discount := body.discount.value);
    RewriteItem(db.categories, db.subcategories, db.items, db.nextId, id, item);
    db.items := db.items[id := item];
    r := Ok(Doc(id, item));
  }
}
