/** controllers/subcategoryController.js: the handlers behind /subcategories. */
module SubCategoryController {
  import opened Wrappers
  import opened Schema
  import opened Http
  import opened CategoryModel
  import opened SubCategoryModel
  import opened Database

  /** The record createSubCategory builds: name, image and description from the body, the tax
      fields copied from the parent category as they are now, and the owning category's id. */
  function SubCategoryFor(body: Body, categoryId: Id, parent: Category): SubCategory
  {
    NewSubCategory(body.name, body.image, body.description,
                   parent.taxApplicability, parent.tax, Some(categoryId))
  }

  /** The tax snapshot: a new subcategory's tax fields are the parent's, whatever the body says,
      and the body is read only for name, image and description. */
  lemma SubCategoryTaxFromParent(body: Body, other: Body, categoryId: Id, parent: Category)
    requires other.name == body.name && other.image == body.image && other.description == body.description
    ensures SubCategoryFor(body, categoryId, parent).taxApplicability == parent.taxApplicability
    ensures SubCategoryFor(body, categoryId, parent).tax == parent.tax
    ensures SubCategoryFor(body, categoryId, parent).category == Some(categoryId)
    ensures SubCategoryFor(other, categoryId, parent) == SubCategoryFor(body, categoryId, parent)
  {
  }

  /** createSubCategory: on a missing category, 404 and no change. Otherwise the new subcategory
      is saved first; then its id is appended once, at the end, to the parent's list and the parent
      is saved. The parent's save validates the whole parent again, so it fails when the parent no
      longer passes its schema (an update may have stored one that does not) or for any other reason
      (`parentSaveFails`). The two writes are separate: when the parent's save fails the answer is
      400 and the saved subcategory stays unlisted by its parent. A record the schema
      rejects is answered 400 with nothing stored. */
  method CreateSubCategory(db: Store, categoryId: Id, body: Body, parentSaveFails: bool)
    returns (r: Response<Doc<SubCategory>>)
    requires db.Valid()
    modifies db
    ensures db.Valid()
    ensures db.items == old(db.items)
    ensures categoryId !in old(db.categories) ==>
      && r == NotFound
      && db.categories == old(db.categories) && db.subcategories == old(db.subcategories)
      && db.nextId == old(db.nextId)
    ensures categoryId in old(db.categories) ==>
      var parent := old(db.categories[categoryId]);
      var s := SubCategoryFor(body, categoryId, parent);
      var id := old(db.nextId);
      if !ValidSubCategory(s) then
        && r == BadRequest
        && db.categories == old(db.categories) && db.subcategories == old(db.subcategories)
      else
        && id !in old(db.subcategories) && id !in parent.subcategories
        && db.subcategories == old(db.subcategories)[id := s]
        && var listed := parent.(subcategories := parent.subcategories + [id]);
           if parentSaveFails || !ValidCategory(listed) then
             && r == BadRequest
             && db.categories == old(db.categories)
           else
             && r == Created(Doc(id, s))
             && db.categories == old(db.categories)[categoryId := listed]
    ensures r.Created? ==>
      && r.value.fields.taxApplicability == old(db.categories[categoryId].taxApplicability)
      && r.value.fields.tax == old(db.categories[categoryId].tax)
      && r.value.fields.category == Some(categoryId)
      && r.value.fields.items == []
      && GetSubCategoryById(db, r.value.id) == Ok(r.value)
  {
    if categoryId !in db.categories {
      return NotFound;
    }
    var parent := db.categories[categoryId];
    var s := SubCategoryFor(body, categoryId, parent);
    var id := db.NewId();
    if !ValidSubCategory(s) {
      return BadRequest;
    }
    // subcategory.save()
    SubCategoryRules(s);
    SaveNewSubCategory(db.categories, db.subcategories, db.items, id, s);
    db.subcategories := db.subcategories[id := s];
    // category.subcategories.push(subcategory._id); category.save()
    var listed := parent.(subcategories := parent.subcategories + [id]);
    if parentSaveFails || !ValidCategory(listed) {
      return BadRequest;
    }
    FreshIdUnlisted(old(db.categories), old(db.subcategories), old(db.items), id);
    ListSubCategory(db.categories, db.subcategories, db.items, db.nextId, categoryId, id);
    db.categories := db.categories[categoryId := listed];
    r := Created(Doc(id, s));
  }

  /** getAllSubCategories: every stored subcategory, each once. */
  function GetAllSubCategories(db: Store): (r: Response<seq<Doc<SubCategory>>>)
    reads db
    requires db.Valid()
    ensures r.Ok?
    ensures forall d :: d in r.value <==> d.id in db.subcategories && db.subcategories[d.id] == d.fields
    ensures forall i, j :: 0 <= i < j < |r.value| ==> r.value[i].id != r.value[j].id
  {
    Ok(Ascending(db.subcategories, db.nextId))
  }

  /** getSubCategoriesByCategory: 404 when the category is missing, otherwise the populated
      subcategories list: only stored subcategories that the category lists. */
  function GetSubCategoriesByCategory(db: Store, categoryId: Id): (r: Response<seq<Doc<SubCategory>>>)
    reads db
    ensures r.Ok? || r.NotFound?
    ensures r.NotFound? <==> categoryId !in db.categories
    ensures r.Ok? ==> forall d :: d in r.value ==>
      d.id in db.categories[categoryId].subcategories && d.id in db.subcategories && db.subcategories[d.id] == d.fields
  {
    if categoryId !in db.categories then NotFound
    else Ok(Populate(db.categories[categoryId].subcategories, db.subcategories))
  }

  /** In a valid store, getSubCategoriesByCategory answers with one subcategory per listed id, in
      the order of the category's list, each owned by that category. */
  lemma SubCategoriesByCategoryInListOrder(db: Store, categoryId: Id)
    requires db.Valid()
    requires categoryId in db.categories
    ensures var ids := db.categories[categoryId].subcategories;
      var r := GetSubCategoriesByCategory(db, categoryId);
      && r.Ok? && |r.value| == |ids|
      && forall k :: 0 <= k < |ids| ==>
           && r.value[k].id == ids[k]
           && r.value[k].fields == db.subcategories[ids[k]]
           && r.value[k].fields.category == Some(categoryId)
  {
    PopulateAll(db.categories[categoryId].subcategories, db.subcategories);
  }

  /** getSubCategoryById: 404 exactly when no subcategory has the id, otherwise that subcategory. */
  function GetSubCategoryById(db: Store, id: Id): (r: Response<Doc<SubCategory>>)
    reads db
    ensures r.Ok? || r.NotFound?
    ensures r.NotFound? <==> id !in db.subcategories
    ensures r.Ok? ==> r.value.id == id && r.value.fields == db.subcategories[id]
  {
    if id in db.subcategories then Ok(Doc(id, db.subcategories[id])) else NotFound
  }

  /** The fields updateSubCategory writes, all present in the body. */
  predicate HasSubCategoryFields(body: Body)
  {
    body.name.Some? && body.image.Some? && body.description.Some?
  }

  /** updateSubCategory: overwrites name, image and description only; taxApplicability, tax,
      category and items keep their values. An unknown id is answered 404. */
  method UpdateSubCategory(db: Store, id: Id, body: Body) returns (r: Response<Doc<SubCategory>>)
    requires db.Valid()
    requires HasSubCategoryFields(body)
    modifies db
    ensures db.Valid()
    ensures db.categories == old(db.categories) && db.items == old(db.items)
    ensures db.nextId == old(db.nextId)
    ensures id !in old(db.subcategories) ==> r == NotFound && db.subcategories == old(db.subcategories)
    ensures id in old(db.subcategories) ==>
      && db.subcategories == old(db.subcategories)[id := old(db.subcategories[id]).(
           name := body.name, image := body.image, description := body.description)]
      && r == Ok(Doc(id, db.subcategories[id]))
      && GetSubCategoryById(db, id) == r
  {
    if id !in db.subcategories {
      return NotFound;
    }
    var s := db.subcategories[id].(name := body.name, image := body.image, description := body.description);
    RewriteSubCategory(db.categories, db.subcategories, db.items, db.nextId, id, s);
    db.subcategories := db.subcategories[id := s];
    r := Ok(Doc(id, s));
  }
}
