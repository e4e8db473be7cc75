/** models/Category.js: the Category document and its schema. */
module CategoryModel {
  import opened Wrappers
  import opened Schema

  /** A stored Category. `subcategories` is an ordered list of SubCategory ids. */
  datatype Category = Category(
    name: Option<string>,
    image: Option<string>,
    description: Option<string>,
    taxApplicability: Option<bool>,
    tax: Option<int>,
    taxType: Option<string>,
    subcategories: seq<Id>)

  /** The schema's paths and their `required` rules; `subcategories` is an array path and is
      always present. */
  const CategorySchema: seq<Path> := [
    Path(Name, Required),
    Path(Image, Required),
    Path(Description, Required),
    Path(TaxApplicability, Required),
    Path(Tax, RequiredIfTaxApplicable),
    Path(TaxType, NotRequired)
  ]

  function CategoryDocument(c: Category): Document
  {
    map[
      Name := Text(c.name),
      Image := Text(c.image),
      Description := Text(c.description),
      TaxApplicability := Flag(c.taxApplicability),
      Tax := Number(c.tax),
      TaxType := Text(c.taxType)
    ]
  }

  /** What `save()` accepts. */
  predicate ValidCategory(c: Category)
  {
    Conforms(CategorySchema, CategoryDocument(c))
  }

  /** `new Category({ name, image, description, taxApplicability, tax, taxType })`: the array path
      starts empty. */
  function NewCategory(name: Option<string>, image: Option<string>, description: Option<string>,
                       taxApplicability: Option<bool>, tax: Option<int>, taxType: Option<string>): (c: Category)
    ensures c.subcategories == []
    ensures c.name == name && c.image == image && c.description == description
    ensures c.taxApplicability == taxApplicability && c.tax == tax && c.taxType == taxType
  {
    Category(name, image, description, taxApplicability, tax, taxType, [])
  }

  /** The schema's rules field by field: name, image and description are required non-empty
      strings, taxApplicability is required, tax is required exactly when taxApplicability is true,
      and taxType is optional. */
  lemma CategoryRules(c: Category)
    ensures ValidCategory(c) <==>
      && FilledText(c.name) && FilledText(c.image) && FilledText(c.description)
      && c.taxApplicability.Some?
      && (c.taxApplicability == Some(true) ==> c.tax.Some?)
  {
    var doc := CategoryDocument(c);
    if ValidCategory(c) {
      assert Satisfies(doc, CategorySchema[0]);
      assert Satisfies(doc, CategorySchema[1]);
      assert Satisfies(doc, CategorySchema[2]);
      assert Satisfies(doc, CategorySchema[3]);
      assert Satisfies(doc, CategorySchema[4]);
    }
  }

  /** tax is optional when taxApplicability is not true: any tax value, or none, is accepted. */
  lemma CategoryTaxOptionalUnlessApplicable(c: Category, tax: Option<int>)
    requires c.taxApplicability != Some(true)
    ensures ValidCategory(c.(tax := tax)) <==> ValidCategory(c)
  {
    CategoryRules(c);
    CategoryRules(c.(tax := tax));
  }
}
