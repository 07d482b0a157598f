/**
 * The Customer entity, as far as its observable behaviour is fixed:
 * construction-time validation of id and name, renaming, setting an address,
 * activation that needs an address, and accumulating reward points.
 */
module Customers {
  import opened Wrappers
  import Addresses

  const IdRequired := "Id is required"
  const NameRequired := "Name is required"
  const AddressMandatory := "Address is mandatory to activate a customer"

  /** Construction checks the id first, then the name; the first failure wins. */
  function Validate(id: string, name: string): (r: Option<string>)
    ensures r.None? <==> id != "" && name != ""
    ensures id == "" ==> r == Some(IdRequired)
    ensures id != "" && name == "" ==> r == Some(NameRequired)
  {
    if |id| == 0 then Some(IdRequired)
    else if |name| == 0 then Some(NameRequired)
    else None
  }

  class Customer {
    const id: string
    var name: string
    var address: Option<Addresses.Address>
    var active: bool
    var rewardPoints: int

    /** A customer is only ever active while it has an address. */
    ghost predicate Valid()
      reads this
    {
      active ==> address.Some?
    }

    /** A new customer has no address, is inactive and has no reward points. */
    constructor (id: string, name: string)
      requires Validate(id, name).None?
      ensures Valid()
      ensures this.id == id && this.name == name
      ensures address == None && !active && rewardPoints == 0
    {
      this.id := id;
      this.name := name;
      address := None;
      active := false;
      rewardPoints := 0;
    }

    /** new Customer(id, name): fails with the validation message, else a fresh inactive customer. */
    static method New(id: string, name: string) returns (r: Result<Customer, string>)
      ensures r.Failure? <==> Validate(id, name).Some?
      ensures r.Failure? ==> Validate(id, name) == Some(r.error)
      ensures r.Success? ==> fresh(r.value) && r.value.Valid()
      ensures r.Success? ==> r.value.id == id && r.value.name == name
      ensures r.Success? ==> r.value.address == None && !r.value.active && r.value.rewardPoints == 0
    {
      match Validate(id, name)
      case Some(message) =>
        r := Failure(message);
      case None =>
        var c := new Customer(id, name);
        r := Success(c);
    }

    /** changeName(n): the name becomes n. */
    method ChangeName(name: string)
      requires Valid()
      modifies this`name
      ensures Valid()
      ensures this.name == name
    {
      this.name := name;
    }

    /** The Address setter: the customer now has address a. */
    method SetAddress(a: Addresses.Address)
      requires Valid()
      modifies this`address
      ensures Valid()
      ensures address == Some(a)
    {
      address := Some(a);
    }

    /** activate(): fails, changing nothing, unless an address is set; otherwise the customer is active. */
    method Activate() returns (r: Outcome<string>)
      requires Valid()
      modifies this`active
      ensures Valid()
      ensures r.Fail? <==> address.None?
      ensures r.Fail? ==> r.error == AddressMandatory && active == old(active)
      ensures r.Pass? ==> active
    {
      if address.None? {
        r := Fail(AddressMandatory);
      } else {
        active := true;
        r := Pass;
      }
    }

    /** deactivate(): the customer is inactive. */
    method Deactivate()
      requires Valid()
      modifies this`active
      ensures Valid()
      ensures !active
    {
      active := false;
    }

    /** isActive(): whether the customer is active; a customer reported active has an address. */
    function IsActive(): (r: bool)
      reads this
      ensures Valid() && r ==> address.Some?
    {
      active
    }

    /** addRewardPoints(points): the balance grows by points. */
    method AddRewardPoints(points: int)
      requires Valid()
      modifies this`rewardPoints
      ensures Valid()
      ensures rewardPoints == old(rewardPoints) + points
    {
      rewardPoints := rewardPoints + points;
    }
  }

  /** The behaviour a caller can rely on, exercised step by step. */
  method CustomerLifecycle() {
    var bad := Customer.New("", "Alessandro");
    assert bad == Failure(IdRequired);
    bad := Customer.New("123", "");
    assert bad == Failure(NameRequired);

    var created := Customer.New("1", "Customer 1");
    assert created.Success?;
    var c := created.value;

    c.ChangeName("Jane");
    assert c.name == "Jane";

    c.Deactivate();
    assert !c.IsActive();

    var refused := c.Activate();
    assert refused == Fail(AddressMandatory) && !c.IsActive();

    assert Addresses.NewAddress("Street R", 123, "14640-000", "Morro Agudo").Success?;
    c.SetAddress(Addresses.AddressData("Street R", 123, "14640-000", "Morro Agudo"));
    var ok := c.Activate();
    assert ok == Pass && c.IsActive();

    assert c.rewardPoints == 0;
    c.AddRewardPoints(10);
    assert c.rewardPoints == 10;
    c.AddRewardPoints(10);
    assert c.rewardPoints == 20;
  }
}
