# Menu catalogue: a Dafny model

This project models the request handlers and schemas of a small menu-catalogue API. The catalogue
has three levels: a Category owns SubCategories, and an Item belongs either to a SubCategory or
directly to a Category. The original is an Express/Mongoose service. Here its database is a
`Database.Store` object with one map per collection (`categories`, `subcategories`, `items`,
keyed by ObjectId) and a counter that hands out fresh ObjectIds.

- Each Mongoose schema (`models/*.js`) is a table of paths with their `required` rules
  (`Schema.Path`). A record is valid exactly when it `Conforms` to its table. Lemmas spell out each
  table's rules field by field.
- Each handler that writes (`createX`, `updateX`) is a method that `modifies` the store. Its
  `ensures` gives the status it answers and the exact new contents of all three collections.
- Each handler that only reads (`getX`) is a function that `reads` the store.
- The store invariant `Database.Consistent` holds before and after every handler:
  - every id in a category's `subcategories` names a stored subcategory whose `category` points back;
  - every id in a subcategory's `items` names a stored item whose `subcategory` points back;
  - no list holds an id twice;
  - every subcategory names a stored category, and every item names exactly one stored parent.

  Separate lemmas show that each single write keeps it (`SaveNewItem`, `ListItem`, …).
- A reply is an `Http.Response`: `Created` (201), `Ok` (200), `BadRequest` (400), `NotFound` (404)
  or `ServerError` (500). A success carries the document (`Doc`: id plus fields) or the list.

Behaviours the model keeps as the code has them:
- A SubCategory's tax fields are copied from its Category once, at creation, and never re-synced.
  `updateCategory` leaves every subcategory untouched.
- An Item's tax fields come from the request body, not from its parent.
- `totalAmount = baseAmount - discount` is computed at creation only. `updateItem` does not
  recompute it.
- The two writes of `createSubCategory` and of `createItem` under a subcategory are separate: the
  child is saved first, then the parent's list. The parent's save validates the whole parent
  again, so it fails when the stored parent no longer passes its schema (an update stores fields
  unchecked); any other failure is a parameter (`parentSaveFails`). When it fails, the answer is
  400 and the saved child stays unlisted.
- `getItemByName` always answers 200, because `find` yields a list, possibly empty.
- `getItemsByCategory` answers 500, never 404. Otherwise it returns only the first
  subcategory's items, never those created directly under the category (see Findings).
- A missing `baseAmount` or `discount` makes the JavaScript subtraction NaN. No Number path
  accepts NaN, so the save fails and the answer is 400. The model writes that total as `None`.
- `Model.find()` lists documents in natural order. Ids are handed out in increasing order, so the
  model lists by ascending id. `populate` keeps list order and drops ids that name no document.
- A required String must be non-empty (Mongoose's required check for strings).

Files: `wrappers.dfy` (Option), `schema.dfy` (the schema machinery), `category_model.dfy`,
`subcategory_model.dfy`, `item_model.dfy` (the three schemas), `http.dfy` (request body and reply),
`database.dfy` (the store, its invariant, `find`/`populate`), `category_controller.dfy`,
`subcategory_controller.dfy`, `item_controller.dfy` (the handlers), `scenarios.dfy` (a client
walk-through using only the contracts: a "Beverages" category taxed at 5, a "Hot" subcategory, a
"Tea" item at 100 less 10, and a category whose blanked name makes its next save fail).

## Model

| member | source | states |
|---|---|---|
| `Http.Response.Status` | controllers/categoryController.js:17-55 | each reply kind maps to its own status code: 201 created, 200 ok, 400 bad request, 404 not found, 500 server error |
| `CategoryModel.NewCategory` | models/Category.js:15 | a new Category holds the given fields and an empty `subcategories` list |
| `CategoryModel.CategoryRules` | models/Category.js:6-14 | a Category is valid iff name, image and description are non-empty, taxApplicability is present, and tax is present whenever taxApplicability is true; taxType is never required |
| `CategoryModel.CategoryTaxOptionalUnlessApplicable` | models/Category.js:10-13 | when taxApplicability is not true, any tax value, or none, leaves validity unchanged |
| `SubCategoryModel.NewSubCategory` | models/Subcategory.js:9-12 | a new SubCategory holds the given fields (missing tax fields stay null) and an empty `items` list |
| `SubCategoryModel.SubCategoryRules` | models/Subcategory.js:6-11 | a SubCategory is valid iff name, image and description are non-empty, taxApplicability is present (its null default fails), and the category reference is present |
| `SubCategoryModel.SubCategoryTaxNeverRequired` | models/Subcategory.js:10 | a SubCategory's validity never depends on its tax, even when taxApplicability is true |
| `ItemModel.NewItem` | models/Item.js:15 | a missing discount becomes the default 0; every other field is kept as given |
| `ItemModel.ItemRules` | models/Item.js:6-16 | an Item is valid iff name, image and description are non-empty, taxApplicability, baseAmount and totalAmount are present, and tax is present whenever taxApplicability is true |
| `ItemModel.ItemParentsOptional` | models/Item.js:17-18 | an Item's validity does not depend on its category and subcategory references |
| `ItemModel.ItemTaxOptionalUnlessApplicable` | models/Item.js:10-13 | when taxApplicability is not true, any tax value, or none, leaves an Item's validity unchanged |
| `Database.Ascending` | controllers/itemController.js:70 | `find()` lists exactly the stored documents (with id below the bound), in strictly increasing id order |
| `Database.Populate` | controllers/subcategoryController.js:67 | a populated list holds exactly the stored documents whose ids the list names, and is no longer than the list |
| `Database.PopulateAll` | controllers/subcategoryController.js:67 | when every listed id is stored, the populated list has one document per id, in list order |
| `Database.Store.NewId` | controllers/itemController.js:35-46 | a new record gets an id that no collection and no list holds yet, and the store stays consistent |
| `Database.FreshIdUnlisted` | controllers/itemController.js:35-46 | in a consistent store, the next id is in no category's and no subcategory's list |
| `Database.SaveNewSubCategory` | controllers/subcategoryController.js:30 | saving a new subcategory owned by a stored category keeps the store consistent |
| `Database.ListSubCategory` | controllers/subcategoryController.js:33-34 | appending an unlisted subcategory to the list of the category it points to keeps the store consistent |
| `Database.SaveNewItem` | controllers/itemController.js:49 | saving a new item whose one parent is stored keeps the store consistent |
| `Database.ListItem` | controllers/itemController.js:52-55 | appending an unlisted item to the list of the subcategory it points to keeps the store consistent |
| `Database.RewriteCategory` | controllers/categoryController.js:67-71 | overwriting a category's fields other than its list keeps the store consistent |
| `Database.RewriteSubCategory` | controllers/subcategoryController.js:110-114 | overwriting a subcategory's fields other than its owner and its list keeps the store consistent |
| `Database.RewriteItem` | controllers/itemController.js:173-177 | overwriting an item's fields other than its parent references keeps the store consistent |
| `CategoryController.CreateCategory` | controllers/categoryController.js:5-22 | stores exactly the six body fields with an empty list under a fresh id and answers 201; a record the schema rejects (e.g. tax missing while taxApplicability is true) answers 400 and stores nothing; the new category reads back by id |
| `CategoryController.GetAllCategories` | controllers/categoryController.js:26-38 | answers 200 with every stored category, each once |
| `CategoryController.GetCategoryById` | controllers/categoryController.js:41-57 | answers 404 exactly when the id is not stored, otherwise 200 with that category |
| `CategoryController.UpdateCategory` | controllers/categoryController.js:61-84 | overwrites only the six listed fields; the list, all subcategories (their tax snapshots) and all items are unchanged; 404 for an unknown id, otherwise 200 with the updated record |
| `SubCategoryController.SubCategoryTaxFromParent` | controllers/subcategoryController.js:20-27 | a new subcategory's tax fields are the parent's and its category is the path's id, whatever tax fields the body holds |
| `SubCategoryController.CreateSubCategory` | controllers/subcategoryController.js:6-42 | 404 and no change for a missing category; otherwise the subcategory is saved with the parent's tax and the id appended once at the end of the parent's list (201); a parent save that fails, because the stored parent with its extended list no longer passes the category schema or for another reason, answers 400 and leaves it stored but unlisted; an invalid record answers 400 and stores nothing |
| `SubCategoryController.GetAllSubCategories` | controllers/subcategoryController.js:46-57 | answers 200 with every stored subcategory, each once |
| `SubCategoryController.GetSubCategoriesByCategory` | controllers/subcategoryController.js:61-80 | 404 exactly when the category is missing; otherwise only stored subcategories that the category lists |
| `SubCategoryController.SubCategoriesByCategoryInListOrder` | controllers/subcategoryController.js:67-75 | in a consistent store the answer has one subcategory per listed id, in list order, each owned by the category |
| `SubCategoryController.GetSubCategoryById` | controllers/subcategoryController.js:84-100 | answers 404 exactly when the id is not stored, otherwise 200 with that subcategory |
| `SubCategoryController.UpdateSubCategory` | controllers/subcategoryController.js:104-127 | overwrites only name, image and description; tax fields, owner and items are unchanged; 404 for an unknown id |
| `ItemController.Total` | controllers/itemController.js:32 | the total is defined exactly when base amount and discount both are, and then total plus discount is the base amount; tax takes no part |
| `ItemController.ItemAmounts` | controllers/itemController.js:29-43 | a valid new item's total is baseAmount - discount, its tax fields are the body's, and changing the tax never changes the total |
| `ItemController.CreateItem` | controllers/itemController.js:7-63 | parent selection: a missing subcategory is 404, else a missing category is 404, with neither id 400, and nothing changes; otherwise the item is saved with the body's tax and amounts and only the reference of the route used; under a subcategory its id is appended once at the end of that list (a parent save that fails, because the subcategory with its extended list no longer passes its schema or for another reason, answers 400 and leaves it unlisted); under a category no list changes |
| `ItemController.GetAllItems` | controllers/itemController.js:67-78 | answers 200 with every stored item, each once |
| `ItemController.GetItemsByCategory` | controllers/itemController.js:82-99 | never answers 404; a 200 answer needs a stored category with a non-empty list and holds only stored items |
| `ItemController.ItemsByCategoryFirstSubCategoryOnly` | controllers/itemController.js:86-94 | in a consistent store, 500 exactly when the category is missing or lists no subcategory; otherwise exactly the first listed subcategory's items, in list order, none of them created directly under the category |
| `ItemController.ItemsOf` | controllers/itemController.js:87-94 | the items of a list of subcategories are exactly the stored items that one of them lists |
| `ItemController.CreatedUnder` | controllers/itemController.js:44 | keeps exactly the documents whose category reference is the given id |
| `ItemController.ItemsUnderCategory` | controllers/itemController.js:82-99 | the intended handler: 404 exactly when the category is missing, otherwise 200 |
| `ItemController.ItemsUnderCategoryComplete` | controllers/itemController.js:82-99 | in a consistent store, the intended handler answers with exactly the stored items that some listed subcategory lists or that were created directly under the category, each belonging to one of those subcategories or to the category |
| `ItemController.MissingCategoryGives500` | controllers/itemController.js:86-91 | for a missing category the handler answers 500 where 404 is intended; for a category with an empty list it answers 500 where 200 is intended |
| `ItemController.DirectItemsMissed` | controllers/itemController.js:87-94 | an item created directly under the category is in the intended answer and absent from the handler's |
| `ItemController.SecondSubCategoryItemsMissed` | controllers/itemController.js:87-94 | an item of the category's second subcategory is in the intended answer and absent from the handler's |
| `ItemController.GetItemsBySubCategory` | controllers/itemController.js:103-120 | 404 exactly when the subcategory is missing; otherwise only stored items that the subcategory lists |
| `ItemController.ItemsBySubCategoryInListOrder` | controllers/itemController.js:107-115 | in a consistent store the answer has one item per listed id, in list order, each pointing back to the subcategory |
| `ItemController.GetItemById` | controllers/itemController.js:124-140 | answers 404 exactly when the id is not stored, otherwise 200 with that item |
| `ItemController.Named` | controllers/itemController.js:150 | keeps exactly the documents whose name equals the parameter, and keeps ascending id order |
| `ItemController.GetItemByName` | controllers/itemController.js:144-163 | always answers 200 (the 404 branch is unreachable), with every item whose name is exactly the parameter, each once, possibly none |
| `ItemController.UpdateItem` | controllers/itemController.js:167-190 | overwrites only name, image, description, taxApplicability, tax, baseAmount and discount; totalAmount and both parent references are unchanged (the total is not recomputed); 404 for an unknown id |

## Left out

- app.js is process bootstrap: environment, API documentation, access logging, the database connection and the listening port. None of it is modelled.
- The route files only register handlers under paths. The model takes one fact from them: an item-create route passes one of the two ids, never both (routes/itemRoute.js:60, 107). This is `CreateItem`'s second precondition.
- UpdateCategory: requires all six listed fields in the body. Whether `findByIdAndUpdate` drops `undefined` keys or runs validators is library behaviour the code does not show, so the schema is not re-checked on update.
- UpdateSubCategory: requires name, image and description in the body, for the same reason.
- UpdateItem: requires all seven listed fields in the body, for the same reason.
- ObjectId casting is not modelled: every id is well formed. A malformed id throws a CastError in the original.
- Casting of body values to the schema types is not modelled: the body is typed. A string sent as a tax is one example.
- Database failures on reads (the 500 branches of the getters) are not modelled. On writes, only the parent's second save may fail for a reason other than validation.
- Concurrent requests are not modelled; every handler runs alone.
- Amounts are unbounded integers. The original uses IEEE-754 numbers; rounding is not modelled.
- JSON serialisation and the error message strings are not modelled.
- Where the id of a new record is taken: `new Model(...)` takes it before validation, so a 400 also uses one up. This is not observable.

## Findings

| source | as written | input that shows it | evidently intended | confidence | as-written member | corrected member |
|---|---|---|---|---|---|---|
| controllers/itemController.js:86-91 | `category.subcategories[0]` is read before the `!category` check, so the check comes too late and the TypeError becomes 500 | GET /items/category/{id} for an id with no category, or for a category with no subcategories | 404 for a missing category; 200 for a category without subcategories | high, not executed | `ItemController.MissingCategoryGives500` | `ItemController.ItemsUnderCategory` |
| controllers/itemController.js:87-94 | only the first subcategory (`subcategories[0]`) is fetched | a category with two subcategories, the second holding an item: that item is not returned | every item under the category: those of all its subcategories and those created directly under it | medium, not executed | `ItemController.SecondSubCategoryItemsMissed` | `ItemController.ItemsUnderCategoryComplete` |
| controllers/itemController.js:87-94 | items are fetched only through the subcategory list, while an item created through the category route carries only a category reference (line 44) | a category holding an item created directly under it: that item is not returned | every item under the category, including those created directly under it | medium, not executed | `ItemController.DirectItemsMissed` | `ItemController.ItemsUnderCategoryComplete` |
