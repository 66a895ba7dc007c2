/** The catalog component's state and its event handlers: loading the
    product and category lists, opening, editing, cancelling and saving
    a draft, and the message line with its delayed clear. */
module App {
  import opened Optional
  import opened Dates
  import opened Products
  import opened Validation
  import opened Search
  import opened Ordering
  import opened Sequences

  /** The outcome of a list request to the collection service. */
  datatype Response<T> = Fetched(data: T) | FetchFailed

  const SavedText := "Product updated successfully!"
  const SaveErrorText := "Error updating product"

  /** The stored list after a product fetch: the fetched list in quantity
      order, or the previous list when the fetch failed. */
  function AfterProductFetch(current: seq<Product>, response: Response<seq<Product>>): (r: seq<Product>)
    requires SortedByQuantity(current)
    ensures SortedByQuantity(r)
    ensures response.Fetched? ==> multiset(r) == multiset(response.data)
    ensures response.FetchFailed? ==> r == current
  {
    match response
    case Fetched(data) => SortByQuantity(data)
    case FetchFailed => current
  }

  class Catalog {
    var products: seq<Product>
    var categories: seq<Category>
    /** The product whose form is open; `None` when no form is shown. */
    var editingProduct: Option<Product>
    var message: string
    /** Timers scheduled to clear the message and not yet fired. */
    var pendingClears: nat

    ghost predicate Valid()
      reads this
    {
      SortedByQuantity(products)
    }

    constructor()
      ensures Valid()
      ensures products == [] && categories == [] && editingProduct == None
      ensures message == "" && pendingClears == 0
    {
      products := [];
      categories := [];
      editingProduct := None;
      message := "";
      pendingClears := 0;
    }

    method FetchProducts(response: Response<seq<Product>>)
      requires Valid()
      modifies this
      ensures Valid()
      ensures products == AfterProductFetch(old(products), response)
      ensures categories == old(categories) && editingProduct == old(editingProduct)
      ensures message == old(message) && pendingClears == old(pendingClears)
    {
      if response.Fetched? {
        products := SortByQuantity(response.data);
      }
    }

    method FetchCategories(response: Response<seq<Category>>)
      requires Valid()
      modifies this
      ensures Valid()
      ensures categories == (if response.Fetched? then response.data else old(categories))
      ensures products == old(products) && editingProduct == old(editingProduct)
      ensures message == old(message) && pendingClears == old(pendingClears)
    {
      if response.Fetched? {
        categories := response.data;
      }
    }

    /** The first render loads both lists; each fetch succeeds or fails on its own. */
    method Mount(productResponse: Response<seq<Product>>, categoryResponse: Response<seq<Category>>)
      requires Valid()
      modifies this
      ensures Valid()
      ensures products == AfterProductFetch(old(products), productResponse)
      ensures categories == (if categoryResponse.Fetched? then categoryResponse.data else old(categories))
      ensures editingProduct == old(editingProduct)
      ensures message == old(message) && pendingClears == old(pendingClears)
    {
      FetchProducts(productResponse);
      FetchCategories(categoryResponse);
    }

    /** "Add Product": a form for a draft without an id. */
    method Add()
      requires Valid()
      modifies this`editingProduct
      ensures Valid()
      ensures editingProduct == Some(BlankDraft) && !IsTruthy(editingProduct.value.id)
    {
      editingProduct := Some(BlankDraft);
    }

    /** "Edit" on a table row: a form for that product. */
    method Edit(p: Product)
      requires Valid()
      modifies this`editingProduct
      ensures Valid()
      ensures editingProduct == Some(p)
    {
      editingProduct := Some(p);
    }

    /** "Cancel": the form closes; nothing else changes. */
    method Cancel()
      requires Valid()
      modifies this`editingProduct
      ensures Valid()
      ensures editingProduct == None
    {
      editingProduct := None;
    }

    /** The save handler. A draft that fails validation only sets that check's
        message. A valid draft is sent as a replace or a create; `saved` is
        whether the service accepted it and `refreshed` the outcome of the
        product fetch that follows a successful save. */
    method HandleUpdate(draft: Product, today: Date, saved: bool, refreshed: Response<seq<Product>>)
      returns (request: Option<Request>)
      requires Valid()
      modifies this
      ensures Valid()
      ensures categories == old(categories)
      ensures Validate(draft, today).Rejected? ==>
                && request == None
                && message == Text(Validate(draft, today).reason)
                && products == old(products)
                && editingProduct == old(editingProduct)
                && pendingClears == old(pendingClears)
      ensures Validate(draft, today).Accepted? ==> request == Some(SaveRequest(draft))
      ensures Validate(draft, today).Accepted? && saved ==>
                && message == SavedText
                && products == AfterProductFetch(old(products), refreshed)
                && editingProduct == None
                && pendingClears == old(pendingClears) + 1
      ensures Validate(draft, today).Accepted? && !saved ==>
                && message == SaveErrorText
                && products == old(products)
                && editingProduct == old(editingProduct)
                && pendingClears == old(pendingClears)
    {
      var verdict := Validate(draft, today);
      if verdict.Rejected? {
        message := Text(verdict.reason);
        return None;
      }
      request := Some(SaveRequest(draft));
      if saved {
        message := SavedText;
        FetchProducts(refreshed);
        editingProduct := None;
        pendingClears := pendingClears + 1;
      } else {
        message := SaveErrorText;
      }
    }

    /** A scheduled clear fires, 3000 ms after a successful save: the message
        is emptied, whatever it says by then. */
    method ClearMessage()
      requires Valid() && pendingClears > 0
      modifies this`message, this`pendingClears
      ensures Valid()
      ensures message == "" && pendingClears == old(pendingClears) - 1
    {
      message := "";
      pendingClears := pendingClears - 1;
    }

    /** The rows of the product table for the current search inputs. */
    function FilteredProducts(searchName: string, searchCategory: Option<int>): (rows: seq<Product>)
      reads this
      requires Valid()
      ensures SortedByQuantity(rows)
      ensures forall p | p in rows :: p in products && Matches(p, searchName, searchCategory)
      ensures forall p | p in products && Matches(p, searchName, searchCategory) :: p in rows
    {
      var rows := HandleSearch(products, searchName, searchCategory);
      SearchSoundAndComplete(products, searchName, searchCategory);
      SubsequenceElements(rows, products);
      SubsequenceKeepsOrder(rows, products);
      rows
    }

    /** The category cell of a table row. */
    function CategoryCell(p: Product): (cell: string)
      reads this
      ensures cell != ""
      ensures (forall c | c in categories :: c.id != p.categoryId) ==> cell == UnknownCategory
      ensures forall i | 0 <= i < |categories| && categories[i].id == p.categoryId
                         && (forall j | 0 <= j < i :: categories[j].id != p.categoryId) ::
                cell == (if categories[i].name == "" then UnknownCategory else categories[i].name)
    {
      CategoryLabel(categories, p.categoryId)
    }
  }

  /** The form of an open draft. Each change builds a new draft value, so
      the product it was opened from is never written. */
  class ProductForm {
    var formData: Product

    constructor(product: Product)
      ensures formData == product
    {
      formData := product;
    }

    method HandleChange(e: FieldEdit)
      modifies this
      ensures formData == WithField(old(formData), e)
      ensures Holds(formData, e) && formData.id == old(formData).id
      ensures ChangedFields(old(formData), formData) <= {e.Target()}
    {
      formData := WithField(formData, e);
    }

    method HandleSubmit() returns (submitted: Product)
      ensures submitted == formData
    {
      submitted := formData;
    }
  }

  /** An edit session that is cancelled after some typing leaves the stored
      products as they were. */
  method CancelledEditKeepsProducts(app: Catalog, p: Product, e: FieldEdit)
    requires app.Valid()
    modifies app
    ensures app.Valid()
    ensures app.products == old(app.products)
    ensures app.editingProduct == None
  {
    app.Edit(p);
    var form := new ProductForm(p);
    form.HandleChange(e);
    app.Cancel();
  }

  /** The form opened on `start` receives the change events `edits` and is
      submitted: the submitted draft is `start` with the edits applied in order. */
  method FillAndSubmit(form: ProductForm, edits: seq<FieldEdit>) returns (submitted: Product)
    modifies form
    ensures submitted == ApplyEdits(old(form.formData), edits)
  {
    var i := 0;
    while i < |edits|
      invariant 0 <= i <= |edits|
      invariant ApplyEdits(form.formData, edits[i..]) == ApplyEdits(old(form.formData), edits)
    {
      assert edits[i..][0] == edits[i] && edits[i..][1..] == edits[i + 1..];
      form.HandleChange(edits[i]);
      i := i + 1;
    }
    assert edits[i..] == [];
    submitted := form.HandleSubmit();
  }

  /** "Edit" on product `p`, the change events `edits`, then "Save": a valid
      draft is sent as a replace of `p`'s id when that id is truthy, otherwise
      as a create; an invalid one sends nothing and leaves `p`'s form open. */
  method EditAndSave(app: Catalog, p: Product, edits: seq<FieldEdit>, today: Date,
                     saved: bool, refreshed: Response<seq<Product>>)
    returns (request: Option<Request>)
    requires app.Valid()
    modifies app
    ensures app.Valid()
    ensures Validate(ApplyEdits(p, edits), today).Accepted? && IsTruthy(p.id) ==>
              request == Some(Replace(p.id, ApplyEdits(p, edits)))
    ensures Validate(ApplyEdits(p, edits), today).Accepted? && !IsTruthy(p.id) ==>
              request == Some(Create(ApplyEdits(p, edits)))
    ensures Validate(ApplyEdits(p, edits), today).Rejected? ==>
              && request == None
              && app.editingProduct == Some(p)
              && app.message == Text(Validate(ApplyEdits(p, edits), today).reason)
  {
    app.Edit(p);
    var form := new ProductForm(p);
    var draft := FillAndSubmit(form, edits);
    ApplyEditsKeepsId(p, edits);
    request := app.HandleUpdate(draft, today, saved, refreshed);
  }

  /** "Add Product", the change events `edits`, then "Save": a valid draft is
      always sent as a create. */
  method AddAndSave(app: Catalog, edits: seq<FieldEdit>, today: Date,
                    saved: bool, refreshed: Response<seq<Product>>)
    returns (request: Option<Request>)
    requires app.Valid()
    modifies app
    ensures app.Valid()
    ensures Validate(ApplyEdits(BlankDraft, edits), today).Accepted? ==>
              request == Some(Create(ApplyEdits(BlankDraft, edits)))
    ensures Validate(ApplyEdits(BlankDraft, edits), today).Rejected? ==>
              && request == None
              && app.editingProduct == Some(BlankDraft)
  {
    app.Add();
    var form := new ProductForm(BlankDraft);
    var draft := FillAndSubmit(form, edits);
    ApplyEditsKeepsId(BlankDraft, edits);
    request := app.HandleUpdate(draft, today, saved, refreshed);
  }
}
