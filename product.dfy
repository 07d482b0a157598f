/**
 * The Product entity, as far as its observable behaviour is fixed:
 * construction-time validation, renaming and repricing.
 */
module Products {
  import opened Wrappers

  const IdRequired := "Id is required."
  const NameRequired := "Name is required."
  const PricePositive := "Price must be greater then zero."

  /** Construction checks id, then name, then that the price is positive; the first failure wins. */
  function Validate(id: string, name: string, price: int): (r: Option<string>)
    ensures r.None? <==> id != "" && name != "" && price > 0
    ensures id == "" ==> r == Some(IdRequired)
    ensures id != "" && name == "" ==> r == Some(NameRequired)
    ensures id != "" && name != "" && price <= 0 ==> r == Some(PricePositive)
  {
    if |id| == 0 then Some(IdRequired)
    else if |name| == 0 then Some(NameRequired)
    else if price <= 0 then Some(PricePositive)
    else None
  }

  class Product {
    const id: string
    var name: string
    var price: int

    constructor (id: string, name: string, price: int)
      requires Validate(id, name, price).None?
      ensures this.id == id && this.name == name && this.price == price
    {
      this.id := id;
      this.name := name;
      this.price := price;
    }

    /** new Product(id, name, price): fails with the validation message, else a fresh product. */
    static method New(id: string, name: string, price: int) returns (r: Result<Product, string>)
      ensures r.Failure? <==> Validate(id, name, price).Some?
      ensures r.Failure? ==> Validate(id, name, price) == Some(r.error)
      ensures r.Success? ==> fresh(r.value)
      ensures r.Success? ==> r.value.id == id && r.value.name == name && r.value.price == price
    {
      match Validate(id, name, price)
      case Some(message) =>
        r := Failure(message);
      case None =>
        var p := new Product(id, name, price);
        r := Success(p);
    }

    /** changeName(n): the name becomes n. */
    method ChangeName(name: string)
      modifies this`name
      ensures this.name == name
    {
      this.name := name;
    }

    /** changePrice(p): the price becomes p; unlike construction, no positivity check. */
    method ChangePrice(price: int)
      modifies this`price
      ensures this.price == price
    {
      this.price := price;
    }
  }

  /** The behaviour a caller can rely on, exercised step by step. */
  method ProductLifecycle() {
    var bad := Product.New("", "Product 1", 100);
    assert bad == Failure(IdRequired);
    bad := Product.New("p1", "", 100);
    assert bad == Failure(NameRequired);
    bad := Product.New("123", "Product 1", -1);
    assert bad == Failure(PricePositive);

    var created := Product.New("123", "Name", 1);
    assert created.Success?;
    var p := created.value;
    p.ChangeName("Product 2");
    assert p.name == "Product 2" && p.price == 1;
    p.ChangePrice(150);
    assert p.price == 150 && p.name == "Product 2";
  }
}
