/** Products and categories as the catalog holds them, the copy-on-write
    edit of one draft field, the choice between a create and a replace
    request, and the category cell of the product table. */
module Products {
  import opened Optional

  /** A product identifier as the collection service hands it out. The
      numeric zero and the empty text are falsy, like a missing id. */
  datatype Id = NoId | NumericId(n: int) | TextId(s: string)

  predicate IsTruthy(id: Id) {
    match id
    case NoId => false
    case NumericId(n) => n != 0
    case TextId(s) => s != ""
  }

  /** `quantity` is the numeric value the field coerces to; `categoryId`
      refers to a category by its id. */
  datatype Product = Product(
    id: Id,
    code: string,
    name: string,
    importDate: string,
    quantity: real,
    categoryId: int)

  datatype Category = Category(id: int, name: string)

  /** The draft the "Add" button opens: it carries no id. */
  const BlankDraft := Product(NoId, "", "", "", 0.0, 0)

  // ---------------------------------------------------------------------
  // Editing one field of a draft

  datatype Field = Code | Name | ImportDate | Quantity | CategoryId

  /** A change event of the form: the input's name and its new value. */
  datatype FieldEdit =
    | SetCode(code: string)
    | SetName(name: string)
    | SetImportDate(importDate: string)
    | SetQuantity(quantity: real)
    | SetCategoryId(categoryId: int)
  {
    function Target(): Field {
      match this
      case SetCode(_) => Code
      case SetName(_) => Name
      case SetImportDate(_) => ImportDate
      case SetQuantity(_) => Quantity
      case SetCategoryId(_) => CategoryId
    }
  }

  /** The fields in which two drafts differ. */
  function ChangedFields(a: Product, b: Product): set<Field> {
    (if a.code != b.code then {Code} else {})
    + (if a.name != b.name then {Name} else {})
    + (if a.importDate != b.importDate then {ImportDate} else {})
    + (if a.quantity != b.quantity then {Quantity} else {})
    + (if a.categoryId != b.categoryId then {CategoryId} else {})
  }

  /** Whether `p` already holds the value `e` would write. */
  predicate Holds(p: Product, e: FieldEdit) {
    match e
    case SetCode(v) => p.code == v
    case SetName(v) => p.name == v
    case SetImportDate(v) => p.importDate == v
    case SetQuantity(v) => p.quantity == v
    case SetCategoryId(v) => p.categoryId == v
  }

  /** A new draft with one field replaced; the old draft is left as it is. */
  function WithField(d: Product, e: FieldEdit): (r: Product)
    ensures Holds(r, e)
    ensures r.id == d.id
    ensures ChangedFields(d, r) <= {e.Target()}
  {
    match e
    case SetCode(v) => d.(code := v)
    case SetName(v) => d.(name := v)
    case SetImportDate(v) => d.(importDate := v)
    case SetQuantity(v) => d.(quantity := v)
    case SetCategoryId(v) => d.(categoryId := v)
  }

  /** A later edit of the same field overrides an earlier one. */
  lemma LastEditWins(d: Product, e1: FieldEdit, e2: FieldEdit)
    requires e1.Target() == e2.Target()
    ensures WithField(WithField(d, e1), e2) == WithField(d, e2)
  {
  }

  /** Edits of different fields can be made in either order. */
  lemma EditsOfDifferentFieldsCommute(d: Product, e1: FieldEdit, e2: FieldEdit)
    requires e1.Target() != e2.Target()
    ensures WithField(WithField(d, e1), e2) == WithField(WithField(d, e2), e1)
  {
  }

  // ---------------------------------------------------------------------
  // Save dispatch

  datatype Request =
    | Replace(id: Id, body: Product)   // PUT /products/{id}
    | Create(body: Product)            // POST /products

  /** A draft whose id is truthy replaces that product; any other draft creates one. */
  function SaveRequest(d: Product): (r: Request)
    ensures r.body == d
    ensures r.Replace? <==> IsTruthy(d.id)
    ensures r.Replace? ==> r.id == d.id
  {
    if IsTruthy(d.id) then Replace(d.id, d) else Create(d)
  }

  /** "Add" drafts are always sent as creations. */
  lemma BlankDraftIsCreated(e: seq<FieldEdit>)
    ensures SaveRequest(ApplyEdits(BlankDraft, e)).Create?
  {
    ApplyEditsKeepsId(BlankDraft, e);
  }

  function ApplyEdits(d: Product, edits: seq<FieldEdit>): Product
    decreases |edits|
  {
    if edits == [] then d else ApplyEdits(WithField(d, edits[0]), edits[1..])
  }

  lemma {:induction false} ApplyEditsKeepsId(d: Product, edits: seq<FieldEdit>)
    ensures ApplyEdits(d, edits).id == d.id
    decreases |edits|
  {
    if edits != [] {
      ApplyEditsKeepsId(WithField(d, edits[0]), edits[1..]);
    }
  }

  // ---------------------------------------------------------------------
  // Category cell

  /** The index of the first category with the given id, if any. */
  function FindCategory(categories: seq<Category>, id: int): (r: Option<nat>)
    ensures r.Some? ==> r.value < |categories| && categories[r.value].id == id
    ensures r.Some? ==> forall j | 0 <= j < r.value :: categories[j].id != id
    ensures r.None? ==> forall j | 0 <= j < |categories| :: categories[j].id != id
  {
    if categories == [] then None
    else if categories[0].id == id then Some(0)
    else match FindCategory(categories[1..], id)
      case None => None
      case Some(i) => Some(i + 1)
  }

  const UnknownCategory := "N/A"

  /** The text of the category cell: the name of the first category with
      the product's category id, or "N/A" when there is none or its name is empty. */
  function CategoryLabel(categories: seq<Category>, categoryId: int): (cell: string)
    ensures cell != ""
    ensures (forall j | 0 <= j < |categories| :: categories[j].id != categoryId) ==> cell == UnknownCategory
    ensures forall i | 0 <= i < |categories| && categories[i].id == categoryId
                       && (forall j | 0 <= j < i :: categories[j].id != categoryId) ::
              cell == (if categories[i].name == "" then UnknownCategory else categories[i].name)
  {
    match FindCategory(categories, categoryId)
    case None => UnknownCategory
    case Some(i) => if categories[i].name != "" then categories[i].name else UnknownCategory
  }
}
