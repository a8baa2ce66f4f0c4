/**
 * Customers: a Regular or Premium variant with an id drawn from a
 * process-wide counter ("CUS001", "CUS002", ...). The counter is passed in
 * and handed back instead of living in a static field.
 */
module Customers {
  import opened Results
  import opened Decimal

  datatype Tier = Regular | Premium

  /**
   * The fields are fixed at construction; there are no mutators. The
   * name-only stub leaves id, contact and address unset (Java null) and age
   * at Java's default 0.
   */
  datatype Customer = Customer(
    id: Option<string>,
    name: string,
    age: int,
    contact: Option<string>,
    address: Option<string>,
    tier: Tier)

  /** A customer value paired with the counter after its creation. */
  datatype Created = Created(customer: Customer, counter: nat)

  /** The minimum balance a Premium customer must keep: 10000.00. */
  const PremiumMinimumBalance: Hundredths := 1_000_000

  /** "CUS" followed by the counter value padded to three digits (`CUS%03d`). */
  function CustomerId(n: nat): string
  {
    "CUS" + ZeroPad(n, 3)
  }

  /**
   * The four-argument constructor, shared by RegularCustomer and
   * PremiumCustomer: it advances the counter by one and stores every field
   * as given.
   */
  function NewCustomer(counter: nat, name: string, age: int, contact: string, address: string, tier: Tier): (r: Created)
    ensures r.counter == counter + 1
    ensures r.customer.id == Some(CustomerId(r.counter))
    ensures r.customer.name == name && r.customer.age == age
    ensures r.customer.contact == Some(contact) && r.customer.address == Some(address)
    ensures r.customer.tier == tier
  {
    Created(Customer(Some(CustomerId(counter + 1)), name, age, Some(contact), Some(address), tier), counter + 1)
  }

  /** `new RegularCustomer(name)`: a Regular stub carrying only the name, with no id consumed. */
  function NameOnly(name: string): (c: Customer)
    ensures c.name == name && c.tier == Regular
    ensures c.id.None? && c.contact.None? && c.address.None?
  {
    Customer(None, name, 0, None, None, Regular)
  }

  /** `getCustomerType()`. */
  function CustomerType(c: Customer): (r: string)
    ensures r == "Premium" <==> c.tier == Premium
    ensures r == "Regular" <==> c.tier == Regular
  {
    match c.tier
    case Regular => "Regular"
    case Premium => "Premium"
  }

  /** `PremiumCustomer.hasWaivedFees()`, which only Premium customers have and which never says no. */
  function HasWaivedFees(c: Customer): (r: bool)
    requires c.tier == Premium
    ensures r
  {
    true
  }

  /** `PremiumCustomer.getMinimumBalance()`: the same fixed requirement for every Premium customer. */
  function MinimumBalanceRequirement(c: Customer): (r: Hundredths)
    requires c.tier == Premium
    ensures r as real / 100.0 == 10000.0
  {
    PremiumMinimumBalance
  }

  /** Every customer the constructors build that carries an id has the `CUS%03d` shape of a counter value. */
  ghost predicate WellFormed(c: Customer)
  {
    (c.tier == Premium ==> c.id.Some?) &&
    (c.id.Some? ==> exists n: nat :: n >= 1 && c.id.value == CustomerId(n))
  }

  /** Both constructors build well-formed customers; a Premium one always has an id. */
  lemma ConstructorsWellFormed(counter: nat, name: string, age: int, contact: string, address: string, tier: Tier)
    ensures WellFormed(NewCustomer(counter, name, age, contact, address, tier).customer)
    ensures WellFormed(NameOnly(name))
  {
    var c := NewCustomer(counter, name, age, contact, address, tier).customer;
    assert c.id.value == CustomerId(counter + 1);
  }

  /** Creating customers one after another never repeats an id. */
  lemma {:induction false} SequentialIdsDistinct(counter: nat, k: nat)
    requires k >= 1
    requires counter + 1 + k <= JavaIntMax
    ensures CustomerId(counter + 1) != CustomerId(counter + 1 + k)
  {
    var a := CustomerId(counter + 1);
    var b := CustomerId(counter + 1 + k);
    assert a[3..] == ZeroPad(counter + 1, 3);
    assert b[3..] == ZeroPad(counter + 1 + k, 3);
    ZeroPadInjective(counter + 1, counter + 1 + k, 3);
  }
}
