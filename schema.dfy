/** The part of Mongoose's schema machinery that the three models use: a schema is a list of
    paths, each declared with a `required` rule, and a document conforms when every required
    path holds a filled value. */
module Schema {
  import opened Wrappers

  /** A document identifier (a MongoDB ObjectId). */
  type Id = nat

  /** A scalar value as a document holds it at one path. */
  datatype Value = Str(s: string) | Bool(b: bool) | Num(n: int) | Ref(id: Id)

  /** The `required` option of a schema path. */
  datatype Requirement =
    | Required                // `required: true`
    | RequiredIfTaxApplicable // `required: function() { return this.taxApplicability; }`
    | NotRequired             // no `required` option

  /** The scalar paths the three schemas declare, by name. */
  datatype Key =
    | Name | Image | Description | TaxApplicability | Tax | TaxType
    | BaseAmount | Discount | TotalAmount | CategoryRef | SubCategoryRef

  datatype Path = Path(key: Key, requirement: Requirement)

  /** A document's scalar paths; `None` is a path that is missing or null. */
  type Document = map<Key, Option<Value>>

  /** Mongoose's check for a required value: it must be present, and a string must not be empty. */
  predicate Filled(doc: Document, key: Key)
  {
    key in doc && doc[key].Some? && (doc[key].value.Str? ==> |doc[key].value.s| > 0)
  }

  /** `this.taxApplicability` is truthy. */
  predicate TaxApplicable(doc: Document)
  {
    TaxApplicability in doc && doc[TaxApplicability] == Some(Bool(true))
  }

  predicate Satisfies(doc: Document, p: Path)
  {
    match p.requirement
    case Required => Filled(doc, p.key)
    case RequiredIfTaxApplicable => TaxApplicable(doc) ==> Filled(doc, p.key)
    case NotRequired => true
  }

  /** Validation on `save()`: every path of the schema is satisfied. */
  predicate Conforms(schema: seq<Path>, doc: Document)
  {
    forall p :: p in schema ==> Satisfies(doc, p)
  }

  // Conversions from typed fields to document values.

  function Text(o: Option<string>): Option<Value>
  {
    if o.Some? then Some(Str(o.value)) else None
  }

  function Flag(o: Option<bool>): Option<Value>
  {
    if o.Some? then Some(Bool(o.value)) else None
  }

  function Number(o: Option<int>): Option<Value>
  {
    if o.Some? then Some(Num(o.value)) else None
  }

  function Reference(o: Option<Id>): Option<Value>
  {
    if o.Some? then Some(Ref(o.value)) else None
  }

  /** A field that the required check accepts: present and, being a string, non-empty. */
  predicate FilledText(o: Option<string>)
  {
    o.Some? && |o.value| > 0
  }
}
