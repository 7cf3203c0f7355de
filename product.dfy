/** The product catalogue (the `product` table): how create and update store
    a row, the availability toggle, and the fallback list of popular
    products. */
module Products {
  import opened Common

  /** A row of the `product` table. */
  datatype Product = Product(
    name: string,
    productType: Option<string>,
    price: real,
    quantity: int,
    information: Option<string>,
    image: Option<string>)

  /** The stored product type: trimmed and lower-cased, or null when the
      given value is missing or empty. */
  function NormalizeType(t: Option<string>): (r: Option<string>)
    ensures r.None? <==> !Truthy(t)
    ensures r.Some? ==> |r.value| <= |t.value|
  {
    if Truthy(t) then Some(Lower(Trim(t.value))) else None
  }

  /** A stored type has no upper-case letter and no surrounding
      whitespace. */
  lemma NormalizeTypeShape(t: Option<string>)
    requires Truthy(t)
    ensures forall i :: 0 <= i < |NormalizeType(t).value| ==> !('A' <= NormalizeType(t).value[i] <= 'Z')
    ensures Trim(NormalizeType(t).value) == NormalizeType(t).value
  {
    var s := Trim(t.value);
    TrimShape(t.value);
    LowerNoUpper(s);
    LowerTrimmed(s);
  }

  /** A type of whitespace only is stored as the empty string. */
  lemma NormalizeTypeBlank(t: Option<string>)
    requires Truthy(t)
    ensures NormalizeType(t) == Some("") <==> forall i :: 0 <= i < |t.value| ==> IsJsSpace(t.value[i])
  {
    TrimEmpty(t.value);
  }

  /** Normalising a stored type again keeps it, unless it is the empty
      string, which is falsy and becomes null. */
  lemma NormalizeTypeAgain(t: Option<string>)
    ensures NormalizeType(t) != Some("") ==> NormalizeType(NormalizeType(t)) == NormalizeType(t)
    ensures NormalizeType(t) == Some("") ==> NormalizeType(NormalizeType(t)) == None
  {
    if Truthy(t) {
      var v := NormalizeType(t).value;
      NormalizeTypeShape(t);
      if v != "" {
        assert Lower(Trim(v)) == v;
      }
    }
  }

  /** The row that create and update write for the given fields: the type
      normalised, and an empty information or image text stored as null. */
  function Stored(p: Product): (r: Product)
    ensures r.name == p.name && r.price == p.price && r.quantity == p.quantity
    ensures r.productType == NormalizeType(p.productType)
    ensures r.information.Some? <==> Truthy(p.information)
    ensures r.image.Some? <==> Truthy(p.image)
    ensures r.information.Some? ==> r.information == p.information
    ensures r.image.Some? ==> r.image == p.image
  {
    p.(productType := NormalizeType(p.productType), information := OrNull(p.information), image := OrNull(p.image))
  }

  /** The quantity the availability toggle writes: an item in stock
      becomes unavailable (0), any other becomes available with 1. */
  function Toggled(q: int): (r: int)
    ensures r == 0 || r == 1
    ensures r > 0 <==> q <= 0
  {
    if q > 0 then 0 else 1
  }

  /** Toggling twice does not restore the quantity of a product in stock:
      it leaves exactly one item. */
  lemma ToggleTwice(q: int)
    requires q > 0
    ensures Toggled(Toggled(q)) == 1
  {
  }

  class ProductTable {
    var rows: map<Id, Product>
    /** The next auto-increment key. */
    var nextId: Id

    ghost predicate Valid()
      reads this
    {
      forall k :: k in rows ==> k < nextId
    }

    constructor ()
      ensures rows == map[] && Valid()
    {
      rows := map[];
      nextId := 1;
    }

    /** `getById`: the row with that key, or null. */
    function Lookup(id: Id): (r: Option<Product>)
      reads this
      ensures r.Some? <==> id in rows
      ensures r.Some? ==> r.value == rows[id]
    {
      if id in rows then Some(rows[id]) else None
    }

    /** `create`: inserts the normalised row under a fresh key. */
    method Create(p: Product) returns (id: Id)
      requires Valid()
      modifies this
      ensures Valid()
      ensures id !in old(rows)
      ensures rows == old(rows)[id := Stored(p)]
    {
      id := nextId;
      rows := rows[id := Stored(p)];
      nextId := nextId + 1;
    }

    /** `update`: overwrites every column of that product and no other row;
        reports whether the product exists. */
    method Update(id: Id, p: Product) returns (updated: bool)
      requires Valid()
      modifies this`rows
      ensures Valid()
      ensures updated <==> id in old(rows)
      ensures updated ==> rows == old(rows)[id := Stored(p)]
      ensures !updated ==> rows == old(rows)
    {
      updated := id in rows;
      if updated {
        rows := rows[id := Stored(p)];
      }
    }

    /** `toggleAvailability`: a missing product gives false and nothing
        changes; otherwise only that product's quantity is toggled. */
    method ToggleAvailability(id: Id) returns (ok: bool)
      requires Valid()
      modifies this`rows
      ensures Valid()
      ensures ok <==> id in old(rows)
      ensures ok ==> rows == old(rows)[id := old(rows)[id].(quantity := Toggled(old(rows)[id].quantity))]
      ensures !ok ==> rows == old(rows)
    {
      if id !in rows {
        return false;
      }
      var q := rows[id].quantity;
      var newQ := if q > 0 then 0 else 1;
      rows := rows[id := rows[id].(quantity := newQ)];
      ok := true;
    }
  }

  // ---------------------------------------------------------------------
  // Popular products
  // ---------------------------------------------------------------------

  /** A row of the popular-products listing; the fallback rows have no key
      and no quantity. */
  datatype Listing = Listing(
    productId: Option<Id>,
    productType: Option<string>,
    name: string,
    price: real,
    image: Option<string>,
    quantity: Option<int>)

  /** The sample rows shown when the catalogue cannot be read or is empty. */
  const Fallback: seq<Listing> := [
    Listing(None, Some("Meat"), "Beef Slices", 6.9, None, None),
    Listing(None, Some("Veg"), "Golden Enoki", 2.0, None, None),
    Listing(None, Some("Veg"), "Lotus Root", 2.2, None, None)
  ]

  /** `getPopularProducts`, given the outcome of its query (the three rows
      with the highest keys, or a database error): never an error and never
      an empty list. */
  function PopularProducts(query: Result<seq<Listing>>): (r: seq<Listing>)
    ensures r != []
    ensures query.Err? ==> r == Fallback
    ensures query.Ok? && query.value == [] ==> r == Fallback
    ensures query.Ok? && query.value != [] ==> r == query.value
  {
    if query.Err? || query.value == [] then Fallback else query.value
  }
}
