/** controllers/categoryController.js: the handlers behind /categories. */
module CategoryController {
  import opened Wrappers
  import opened Schema
  import opened Http
  import opened CategoryModel
  import opened Database

  /** The record createCategory builds from the body: exactly its six category fields. */
  function CategoryFromBody(body: Body): Category
  {
    NewCategory(body.name, body.image, body.description, body.taxApplicability, body.tax, body.taxType)
  }

  /** createCategory: stores the six body fields with an empty subcategories list and answers 201;
      a record the schema rejects is answered 400 and nothing is stored. */
  method CreateCategory(db: Store, body: Body) returns (r: Response<Doc<Category>>)
    requires db.Valid()
    modifies db
    ensures db.Valid()
    ensures db.subcategories == old(db.subcategories) && db.items == old(db.items)
    ensures var c := CategoryFromBody(body);
      if ValidCategory(c) then
        && r == Created(Doc(old(db.nextId), c))
        && old(db.nextId) !in old(db.categories)
        && db.categories == old(db.categories)[old(db.nextId) := c]
      else
        && r == BadRequest
        && db.categories == old(db.categories)
    ensures r.Created? ==>
      && r.value.fields.subcategories == []
      && (body.taxApplicability == Some(true) ==> body.tax.Some?)
      && GetCategoryById(db, r.value.id) == Ok(r.value)
  {
    var c := CategoryFromBody(body);
    var id := db.NewId();
    CategoryRules(c);
    if !ValidCategory(c) {
      return BadRequest;
    }
    db.categories := db.categories[id := c];
    r := Created(Doc(id, c));
  }

  /** getAllCategories: every stored category, each once. */
  function GetAllCategories(db: Store): (r: Response<seq<Doc<Category>>>)
    reads db
    requires db.Valid()
    ensures r.Ok?
    ensures forall d :: d in r.value <==> d.id in db.categories && db.categories[d.id] == d.fields
    ensures forall i, j :: 0 <= i < j < |r.value| ==> r.value[i].id != r.value[j].id
  {
    Ok(Ascending(db.categories, db.nextId))
  }

  /** getCategoryById: 404 exactly when no category has the id, otherwise that category. */
  function GetCategoryById(db: Store, id: Id): (r: Response<Doc<Category>>)
    reads db
    ensures r.Ok? || r.NotFound?
    ensures r.NotFound? <==> id !in db.categories
    ensures r.Ok? ==> r.value.id == id && r.value.fields == db.categories[id]
  {
    if id in db.categories then Ok(Doc(id, db.categories[id])) else NotFound
  }

  /** The fields updateCategory writes, all present in the body. */
  predicate HasCategoryFields(body: Body)
  {
    && body.name.Some? && body.image.Some? && body.description.Some?
    && body.taxApplicability.Some? && body.tax.Some? && body.taxType.Some?
  }

  /** updateCategory: overwrites name, image, description, taxApplicability, tax and taxType and
      answers with the updated record; the subcategories list and every stored subcategory are
      untouched, so their tax snapshots stay as they were. An unknown id is answered 404. */
  method UpdateCategory(db: Store, id: Id, body: Body) returns (r: Response<Doc<Category>>)
    requires db.Valid()
    requires HasCategoryFields(body)
    modifies db
    ensures db.Valid()
    ensures db.subcategories == old(db.subcategories) && db.items == old(db.items)
    ensures db.nextId == old(db.nextId)
    ensures id !in old(db.categories) ==> r == NotFound && db.categories == old(db.categories)
    ensures id in old(db.categories) ==>
      && db.categories == old(db.categories)[id := old(db.categories[id]).(
           name := body.name, image := body.image, description := body.description,
           taxApplicability := body.taxApplicability, tax := body.tax, taxType := body.taxType)]
      && r == Ok(Doc(id, db.categories[id]))
      && GetCategoryById(db, id) == r
  {
    if id !in db.categories {
      return NotFound;
    }
    var c := db.categories[id].(
      name := body.name, image := body.image, description := body.description,
      taxApplicability := body.taxApplicability, tax := body.tax, taxType := body.taxType);
    RewriteCategory(db.categories, db.subcategories, db.items, db.nextId, id, c);
    db.categories := db.categories[id := c];
    r := Ok(Doc(id, c));
  }
}
