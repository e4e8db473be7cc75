/** The document store behind the three Mongoose models: one collection per model, keyed by
    ObjectId. Ids are handed out in increasing order, so listing a collection by ascending id is
    its natural (insertion) order. */
module Database {
  import opened Wrappers
  import opened Schema
  import opened CategoryModel
  import opened SubCategoryModel
  import opened ItemModel

  /** A document as a query returns it: its `_id` and its fields. */
  datatype Doc<T> = Doc(id: Id, fields: T)

  /** No id occurs twice in a reference list. */
  predicate Distinct(ids: seq<Id>)
  {
    forall i, j :: 0 <= i < j < |ids| ==> ids[i] != ids[j]
  }

  /** Every stored id was handed out, so `nextId` is fresh in all three collections. */
  ghost predicate Allocated(categories: map<Id, Category>, subcategories: map<Id, SubCategory>,
                            items: map<Id, Item>, nextId: Id)
  {
    && (forall id :: id in categories ==> id < nextId)
    && (forall id :: id in subcategories ==> id < nextId)
    && (forall id :: id in items ==> id < nextId)
  }

  /** Every id in a category's `subcategories` names a stored subcategory whose `category` points
      back, and no id is listed twice. */
  ghost predicate CategoriesLinked(categories: map<Id, Category>, subcategories: map<Id, SubCategory>)
  {
    forall c :: c in categories ==>
      && Distinct(categories[c].subcategories)
      && forall s :: s in categories[c].subcategories ==>
           s in subcategories && subcategories[s].category == Some(c)
  }

  /** Every id in a subcategory's `items` names a stored item whose `subcategory` points back, and
      no id is listed twice. */
  ghost predicate SubCategoriesLinked(subcategories: map<Id, SubCategory>, items: map<Id, Item>)
  {
    forall s :: s in subcategories ==>
      && Distinct(subcategories[s].items)
      && forall i :: i in subcategories[s].items ==>
           i in items && items[i].subcategory == Some(s)
  }

  /** An item names exactly one parent, and that parent is stored. */
  ghost predicate HasStoredParent(item: Item, categories: map<Id, Category>, subcategories: map<Id, SubCategory>)
  {
    || (item.subcategory.Some? && item.subcategory.value in subcategories && item.category.None?)
    || (item.category.Some? && item.category.value in categories && item.subcategory.None?)
  }

  /** Every subcategory names a stored category; every item names exactly one stored parent. */
  ghost predicate ParentsStored(categories: map<Id, Category>, subcategories: map<Id, SubCategory>,
                                items: map<Id, Item>)
  {
    && (forall s :: s in subcategories ==>
          subcategories[s].category.Some? && subcategories[s].category.value in categories)
    && (forall i :: i in items ==> HasStoredParent(items[i], categories, subcategories))
  }

  /** The store invariant every handler preserves. */
  ghost predicate Consistent(categories: map<Id, Category>, subcategories: map<Id, SubCategory>,
                             items: map<Id, Item>, nextId: Id)
  {
    && Allocated(categories, subcategories, items, nextId)
    && CategoriesLinked(categories, subcategories)
    && SubCategoriesLinked(subcategories, items)
    && ParentsStored(categories, subcategories, items)
  }

  class Store {
    var categories: map<Id, Category>
    var subcategories: map<Id, SubCategory>
    var items: map<Id, Item>
    /** The next ObjectId to hand out. */
    var nextId: Id

    constructor ()
      ensures Valid()
      ensures categories == map[] && subcategories == map[] && items == map[]
    {
      categories, subcategories, items := map[], map[], map[];
      nextId := 0;
    }

    ghost predicate Valid()
      reads this
    {
      Consistent(categories, subcategories, items, nextId)
    }

    /** `new Model(...)` assigns a fresh ObjectId before anything is saved. */
    method NewId() returns (id: Id)
      requires Valid()
      modifies this`nextId
      ensures Valid()
      ensures id == old(nextId) && nextId == id + 1
      ensures id !in categories && id !in subcategories && id !in items
    {
      id := nextId;
      nextId := nextId + 1;
    }
  }

  /** `Model.find()`: the documents of a collection with an id below `bound`, by ascending id. */
  function Ascending<T(!new)>(m: map<Id, T>, bound: nat): (r: seq<Doc<T>>)
    ensures forall d :: d in r <==> d.id < bound && d.id in m && m[d.id] == d.fields
    ensures forall i, j :: 0 <= i < j < |r| ==> r[i].id < r[j].id
  {
    if bound == 0 then []
    else Ascending(m, bound - 1) + (if bound - 1 in m then [Doc(bound - 1, m[bound - 1])] else [])
  }

  /** `populate(path)` on an array of ids: each id replaced by its document, in list order; an id
      with no stored document is dropped. */
  function Populate<T(!new)>(ids: seq<Id>, m: map<Id, T>): (r: seq<Doc<T>>)
    ensures |r| <= |ids|
    ensures forall d :: d in r <==> d.id in ids && d.id in m && m[d.id] == d.fields
  {
    if ids == [] then []
    else (if ids[0] in m then [Doc(ids[0], m[ids[0]])] else []) + Populate(ids[1..], m)
  }

  /** When every listed id is stored, populating keeps the list exactly: one document per id,
      in the same order. */
  lemma {:induction false} PopulateAll<T(!new)>(ids: seq<Id>, m: map<Id, T>)
    requires forall id :: id in ids ==> id in m
    ensures |Populate(ids, m)| == |ids|
    ensures forall k :: 0 <= k < |ids| ==> Populate(ids, m)[k] == Doc(ids[k], m[ids[k]])
  {
    if ids != [] {
      PopulateAll(ids[1..], m);
      var rest := Populate(ids[1..], m);
      assert Populate(ids, m) == [Doc(ids[0], m[ids[0]])] + rest;
    }
  }

  // How the store's writes keep it consistent. Each handler is a sequence of these steps.

  /** No list holds an id that has not been handed out yet. */
  lemma FreshIdUnlisted(categories: map<Id, Category>, subcategories: map<Id, SubCategory>,
                        items: map<Id, Item>, nextId: Id)
    requires Consistent(categories, subcategories, items, nextId)
    ensures forall c :: c in categories ==> nextId !in categories[c].subcategories
    ensures forall s :: s in subcategories ==> nextId !in subcategories[s].items
  {
  }

  /** Saving a new subcategory (`subcategory.save()`) under a stored category: not yet listed by
      anyone, so nothing becomes inconsistent. */
  lemma SaveNewSubCategory(categories: map<Id, Category>, subcategories: map<Id, SubCategory>,
                           items: map<Id, Item>, nextId: Id, s: SubCategory)
    requires Consistent(categories, subcategories, items, nextId)
    requires s.category.Some? && s.category.value in categories && s.items == []
    ensures Consistent(categories, subcategories[nextId := s], items, nextId + 1)
  {
  }

  /** Appending a stored subcategory's id to its owner's list (`category.save()` after the push). */
  lemma ListSubCategory(categories: map<Id, Category>, subcategories: map<Id, SubCategory>,
                        items: map<Id, Item>, nextId: Id, c: Id, s: Id)
    requires Consistent(categories, subcategories, items, nextId)
    requires c in categories && s in subcategories && subcategories[s].category == Some(c)
    requires s !in categories[c].subcategories
    ensures Consistent(categories[c := categories[c].(subcategories := categories[c].subcategories + [s])],
                       subcategories, items, nextId)
  {
  }

  /** Saving a new item (`item.save()`) whose one parent is stored. */
  lemma SaveNewItem(categories: map<Id, Category>, subcategories: map<Id, SubCategory>,
                    items: map<Id, Item>, nextId: Id, item: Item)
    requires Consistent(categories, subcategories, items, nextId)
    requires HasStoredParent(item, categories, subcategories)
    ensures Consistent(categories, subcategories, items[nextId := item], nextId + 1)
  {
  }

  /** Appending a stored item's id to its subcategory's list (`parent.save()` after the push). */
  lemma ListItem(categories: map<Id, Category>, subcategories: map<Id, SubCategory>,
                 items: map<Id, Item>, nextId: Id, s: Id, i: Id)
    requires Consistent(categories, subcategories, items, nextId)
    requires s in subcategories && i in items && items[i].subcategory == Some(s)
    requires i !in subcategories[s].items
    ensures Consistent(categories, subcategories[s := subcategories[s].(items := subcategories[s].items + [i])],
                       items, nextId)
  {
  }

  /** Overwriting a category's fields other than its list (`findByIdAndUpdate`). */
  lemma RewriteCategory(categories: map<Id, Category>, subcategories: map<Id, SubCategory>,
                        items: map<Id, Item>, nextId: Id, c: Id, updated: Category)
    requires Consistent(categories, subcategories, items, nextId)
    requires c in categories && updated.subcategories == categories[c].subcategories
    ensures Consistent(categories[c := updated], subcategories, items, nextId)
  {
  }

  /** Overwriting a subcategory's fields other than its owner and its list. */
  lemma RewriteSubCategory(categories: map<Id, Category>, subcategories: map<Id, SubCategory>,
                           items: map<Id, Item>, nextId: Id, s: Id, updated: SubCategory)
    requires Consistent(categories, subcategories, items, nextId)
    requires s in subcategories
    requires updated.category == subcategories[s].category && updated.items == subcategories[s].items
    ensures Consistent(categories, subcategories[s := updated], items, nextId)
  {
  }

  /** Overwriting an item's fields other than its parent references. */
  lemma RewriteItem(categories: map<Id, Category>, subcategories: map<Id, SubCategory>,
                    items: map<Id, Item>, nextId: Id, i: Id, updated: Item)
    requires Consistent(categories, subcategories, items, nextId)
    requires i in items
    requires updated.category == items[i].category && updated.subcategory == items[i].subcategory
    ensures Consistent(categories, subcategories, items[i := updated], nextId)
  {
  }
}
