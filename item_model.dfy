/** models/Item.js: the Item document and its schema. */
module ItemModel {
  import opened Wrappers
  import opened Schema

  /** A stored Item. `discount` always holds a number because the schema supplies the default 0;
      `category` and `subcategory` are references to its parent. */
  datatype Item = Item(
    name: Option<string>,
    image: Option<string>,
    description: Option<string>,
    taxApplicability: Option<bool>,
    tax: Option<int>,
    baseAmount: Option<int>,
    discount: int,
    totalAmount: Option<int>,
    category: Option<Id>,
    subcategory: Option<Id>)

  /** The discount applied when the field is missing. */
  const DefaultDiscount: int := 0

  /** The schema's paths and their `required` rules. */
  const ItemSchema: seq<Path> := [
    Path(Name, Required),
    Path(Image, Required),
    Path(Description, Required),
    Path(TaxApplicability, Required),
    Path(Tax, RequiredIfTaxApplicable),
    Path(BaseAmount, Required),
    Path(Discount, NotRequired),
    Path(TotalAmount, Required),
    Path(CategoryRef, NotRequired),
    Path(SubCategoryRef, NotRequired)
  ]

  function ItemDocument(i: Item): Document
  {
    map[
      Name := Text(i.name),
      Image := Text(i.image),
      Description := Text(i.description),
      TaxApplicability := Flag(i.taxApplicability),
      Tax := Number(i.tax),
      BaseAmount := Number(i.baseAmount),
      Discount := Some(Num(i.discount)),
      TotalAmount := Number(i.totalAmount),
      CategoryRef := Reference(i.category),
      SubCategoryRef := Reference(i.subcategory)
    ]
  }

  /** What `save()` accepts. */
  predicate ValidItem(i: Item)
  {
    Conforms(ItemSchema, ItemDocument(i))
  }

  /** `new Item({ ... })`: a missing discount takes the schema default. */
  function NewItem(name: Option<string>, image: Option<string>, description: Option<string>,
                   taxApplicability: Option<bool>, tax: Option<int>, baseAmount: Option<int>,
                   discount: Option<int>, totalAmount: Option<int>,
                   category: Option<Id>, subcategory: Option<Id>): (i: Item)
    ensures discount.None? ==> i.discount == DefaultDiscount
    ensures discount.Some? ==> i.discount == discount.value
    ensures i.name == name && i.image == image && i.description == description
    ensures i.taxApplicability == taxApplicability && i.tax == tax
    ensures i.baseAmount == baseAmount && i.totalAmount == totalAmount
    ensures i.category == category && i.subcategory == subcategory
  {
    Item(name, image, description, taxApplicability, tax, baseAmount,
         discount.GetOr(DefaultDiscount), totalAmount, category, subcategory)
  }

  /** The schema's rules field by field: name, image and description are required non-empty
      strings; taxApplicability, baseAmount and totalAmount are required; tax is required exactly
      when taxApplicability is true. */
  lemma ItemRules(i: Item)
    ensures ValidItem(i) <==>
      && FilledText(i.name) && FilledText(i.image) && FilledText(i.description)
      && i.taxApplicability.Some?
      && (i.taxApplicability == Some(true) ==> i.tax.Some?)
      && i.baseAmount.Some? && i.totalAmount.Some?
  {
    var doc := ItemDocument(i);
    ItemDocumentFields(i);
    if ValidItem(i) {
      assert Satisfies(doc, ItemSchema[0]);
      assert Satisfies(doc, ItemSchema[1]);
      assert Satisfies(doc, ItemSchema[2]);
      assert Satisfies(doc, ItemSchema[3]);
      assert Satisfies(doc, ItemSchema[4]);
      assert Satisfies(doc, ItemSchema[5]);
      assert Satisfies(doc, ItemSchema[7]);
    }
  }

  /** The document holds each field of the item under its key. */
  lemma ItemDocumentFields(i: Item)
    ensures var doc := ItemDocument(i);
      && Name in doc && doc[Name] == Text(i.name)
      && Image in doc && doc[Image] == Text(i.image)
      && Description in doc && doc[Description] == Text(i.description)
      && TaxApplicability in doc && doc[TaxApplicability] == Flag(i.taxApplicability)
      && Tax in doc && doc[Tax] == Number(i.tax)
      && BaseAmount in doc && doc[BaseAmount] == Number(i.baseAmount)
      && TotalAmount in doc && doc[TotalAmount] == Number(i.totalAmount)
  {
  }



  /** The schema does not insist on a parent: validity does not depend on the category and
      subcategory references (the one-parent rule belongs to the controller). */
  lemma ItemParentsOptional(i: Item, category: Option<Id>, subcategory: Option<Id>)
    ensures ValidItem(i.(category := category, subcategory := subcategory)) <==> ValidItem(i)
  {
    ItemRules(i);
    ItemRules(i.(category := category, subcategory := subcategory));
  }

  /** tax is optional but allowed when taxApplicability is not true. */
  lemma ItemTaxOptionalUnlessApplicable(i: Item, tax: Option<int>)
    requires i.taxApplicability != Some(true)
    ensures ValidItem(i.(tax := tax)) <==> ValidItem(i)
  {
    ItemRules(i);
    ItemRules(i.(tax := tax));
  }
}
