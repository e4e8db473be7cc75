/** A client walk-through of the handlers: what a caller can conclude from their contracts alone
    for a "Beverages" category taxed at 5, a "Hot" subcategory and a "Tea" item at 100 less 10. */
module Scenarios {
  import opened Wrappers
  import opened Http
  import opened CategoryModel
  import opened SubCategoryModel
  import opened ItemModel
  import opened Database
  import opened CategoryController
  import opened SubCategoryController
  import opened ItemController

  method BeveragesWalkthrough()
  {
    var db := new Store();

    var beverages := Body(Some("Beverages"), Some("url"), Some("d"), Some(true), Some(5), None, None, None);
    CategoryRules(CategoryFromBody(beverages));
    var rc := CreateCategory(db, beverages);
    assert rc.Created? && rc.Status() == 201;
    var cid := rc.value.id;

    // The body's tax fields are ignored: the subcategory takes the category's.
    var hot := Body(Some("Hot"), Some("url2"), Some("d2"), Some(false), None, None, None, None);
    SubCategoryRules(SubCategoryFor(hot, cid, db.categories[cid]));
    var rs := CreateSubCategory(db, cid, hot, false);
    assert rs.Created?;
    assert rs.value.fields.taxApplicability == Some(true) && rs.value.fields.tax == Some(5);
    var sid := rs.value.id;
    assert db.categories[cid].subcategories == [sid];

    var tea := Body(Some("Tea"), Some("url3"), Some("d3"), Some(true), Some(5), None, Some(100), Some(10));
    ItemRules(ItemFor(tea, Some(sid), None));
    var ri := CreateItem(db, Some(sid), None, tea, false);
    assert ri.Created? && ri.value.fields.totalAmount == Some(90);
    var iid := ri.value.id;
    assert db.subcategories[sid].items == [iid];

    // Changing the category's tax later leaves the subcategory's snapshot as it was.
    var taxed := Body(Some("Beverages"), Some("url"), Some("d"), Some(true), Some(12), Some("GST"), None, None);
    var ru := UpdateCategory(db, cid, taxed);
    assert ru.Ok? && ru.value.fields.tax == Some(12);
    assert db.subcategories[sid].tax == Some(5);

    // Items by category: the first subcategory's items.
    ItemsByCategoryFirstSubCategoryOnly(db, cid);
    var rl := GetItemsByCategory(db, cid);
    assert rl.Ok? && rl.value == [Doc(iid, db.items[iid])];

    // An item created straight under the category is listed by no subcategory, yet it is under
    // the category.
    var scone := Body(Some("Scone"), Some("url4"), Some("d4"), Some(false), None, None, Some(50), Some(0));
    ItemRules(ItemFor(scone, None, Some(cid)));
    var rd := CreateItem(db, None, Some(cid), scone, false);
    assert rd.Created? && rd.value.fields.subcategory.None?;
    assert db.subcategories[sid].items == [iid];
    ItemsUnderCategoryComplete(db, cid);
    assert Doc(rd.value.id, db.items[rd.value.id]) in ItemsUnderCategory(db, cid).value;

  }

  /** An update stores an empty name unchecked; the category's next save then fails validation,
      so a subcategory created under it is answered 400 and left unlisted. */
  method BlankNameBlocksListing()
  {
    var db := new Store();
    var beverages := Body(Some("Beverages"), Some("url"), Some("d"), Some(true), Some(5), None, None, None);
    CategoryRules(CategoryFromBody(beverages));
    var rc := CreateCategory(db, beverages);
    var cid := rc.value.id;

    var blank := Body(Some(""), Some("url"), Some("d"), Some(true), Some(12), Some("GST"), None, None);
    var rb := UpdateCategory(db, cid, blank);
    assert rb.Ok?;

    var cold := Body(Some("Cold"), Some("url5"), Some("d5"), None, None, None, None, None);
    SubCategoryRules(SubCategoryFor(cold, cid, db.categories[cid]));
    var parent := db.categories[cid];
    CategoryRules(parent.(subcategories := parent.subcategories + [db.nextId]));
    var rx := CreateSubCategory(db, cid, cold, false);
    assert rx == BadRequest;
    assert db.categories[cid].subcategories == [];
  }
}
