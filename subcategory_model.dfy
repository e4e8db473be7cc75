/** models/Subcategory.js: the SubCategory document and its schema. */
module SubCategoryModel {
  import opened Wrappers
  import opened Schema

  /** A stored SubCategory. `category` is its owner; `items` is an ordered list of Item ids. */
  datatype SubCategory = SubCategory(
    name: Option<string>,
    image: Option<string>,
    description: Option<string>,
    taxApplicability: Option<bool>,
    tax: Option<int>,
    category: Option<Id>,
    items: seq<Id>)

  /** The schema's paths. taxApplicability is required (its `default: null` does not satisfy
      that); tax carries no `required` rule at all. */
  const SubCategorySchema: seq<Path> := [
    Path(Name, Required),
    Path(Image, Required),
    Path(Description, Required),
    Path(TaxApplicability, Required),
    Path(Tax, NotRequired),
    Path(CategoryRef, Required)
  ]

  function SubCategoryDocument(s: SubCategory): Document
  {
    map[
      Name := Text(s.name),
      Image := Text(s.image),
      Description := Text(s.description),
      TaxApplicability := Flag(s.taxApplicability),
      Tax := Number(s.tax),
      CategoryRef := Reference(s.category)
    ]
  }

  /** What `save()` accepts. */
  predicate ValidSubCategory(s: SubCategory)
  {
    Conforms(SubCategorySchema, SubCategoryDocument(s))
  }

  /** `new SubCategory({ name, image, description, taxApplicability, tax, category })`: a missing
      taxApplicability or tax takes the `null` default (None), and the items array starts empty. */
  function NewSubCategory(name: Option<string>, image: Option<string>, description: Option<string>,
                          taxApplicability: Option<bool>, tax: Option<int>, category: Option<Id>): (s: SubCategory)
    ensures s.items == []
    ensures s.name == name && s.image == image && s.description == description
    ensures s.taxApplicability == taxApplicability && s.tax == tax && s.category == category
  {
    SubCategory(name, image, description, taxApplicability, tax, category, [])
  }

  /** The schema's rules field by field: name, image and description are required non-empty
      strings, taxApplicability and category are required, and tax is never required. */
  lemma SubCategoryRules(s: SubCategory)
    ensures ValidSubCategory(s) <==>
      && FilledText(s.name) && FilledText(s.image) && FilledText(s.description)
      && s.taxApplicability.Some?
      && s.category.Some?
  {
    var doc := SubCategoryDocument(s);
    if ValidSubCategory(s) {
      assert Satisfies(doc, SubCategorySchema[0]);
      assert Satisfies(doc, SubCategorySchema[1]);
      assert Satisfies(doc, SubCategorySchema[2]);
      assert Satisfies(doc, SubCategorySchema[3]);
      assert Satisfies(doc, SubCategorySchema[5]);
    }
  }

  /** Unlike Category and Item, a SubCategory's tax is never required, even when
      taxApplicability is true: replacing it, or dropping it, does not change validity. */
  lemma SubCategoryTaxNeverRequired(s: SubCategory, tax: Option<int>)
    ensures ValidSubCategory(s.(tax := tax)) <==> ValidSubCategory(s)
  {
    SubCategoryRules(s);
    SubCategoryRules(s.(tax := tax));
  }
}
