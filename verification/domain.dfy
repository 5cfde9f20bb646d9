/** The records of the quotation form: catalog products, line items and postal addresses. */
module Domain {

  /** A catalog entry; prices are exact decimals here, where the source has JavaScript doubles. */
  datatype Product = Product(sku: string, description: string, price: real)

  /** One row of the quotation; `quantity` is whatever the quantity field parsed to. */
  datatype LineItem = LineItem(id: string, sku: string, description: string, price: real, quantity: int)

  datatype Address = Address(
    companyName: string,
    contactName: string,
    addressLine1: string,
    addressLine2: string,
    city: string,
    province: string,
    postalCode: string,
    country: string,
    email: string)

  /** The form's blank address: every field empty. */
  const EmptyAddress := Address("", "", "", "", "", "", "", "", "")

  /** The names of an address's fields (`keyof Address`). */
  datatype AddressField =
    | CompanyName | ContactName | AddressLine1 | AddressLine2
    | City | Province | PostalCode | Country | Email

  /** `address[field]`. */
  function GetField(a: Address, f: AddressField): string
  {
    match f
    case CompanyName => a.companyName
    case ContactName => a.contactName
    case AddressLine1 => a.addressLine1
    case AddressLine2 => a.addressLine2
    case City => a.city
    case Province => a.province
    case PostalCode => a.postalCode
    case Country => a.country
    case Email => a.email
  }

  /** `{...address, [field]: value}`: the one field takes the new value and every other field keeps its own. */
  function SetField(a: Address, f: AddressField, v: string): (r: Address)
    ensures GetField(r, f) == v
    ensures forall g :: g != f ==> GetField(r, g) == GetField(a, g)
  {
    match f
    case CompanyName => a.(companyName := v)
    case ContactName => a.(contactName := v)
    case AddressLine1 => a.(addressLine1 := v)
    case AddressLine2 => a.(addressLine2 := v)
    case City => a.(city := v)
    case Province => a.(province := v)
    case PostalCode => a.(postalCode := v)
    case Country => a.(country := v)
    case Email => a.(email := v)
  }

  /** Two addresses that agree on every field are the same address. */
  lemma AddressExtensionality(a: Address, b: Address)
    requires forall f :: GetField(a, f) == GetField(b, f)
    ensures a == b
  {
    assert GetField(a, CompanyName) == GetField(b, CompanyName);
    assert GetField(a, ContactName) == GetField(b, ContactName);
    assert GetField(a, AddressLine1) == GetField(b, AddressLine1);
    assert GetField(a, AddressLine2) == GetField(b, AddressLine2);
    assert GetField(a, City) == GetField(b, City);
    assert GetField(a, Province) == GetField(b, Province);
    assert GetField(a, PostalCode) == GetField(b, PostalCode);
    assert GetField(a, Country) == GetField(b, Country);
    assert GetField(a, Email) == GetField(b, Email);
  }

  /** The edited address is the only one holding `v` in field `f` and the old value in every other field. */
  lemma SetFieldUnique(a: Address, f: AddressField, v: string, r: Address)
    requires GetField(r, f) == v
    requires forall g :: g != f ==> GetField(r, g) == GetField(a, g)
    ensures r == SetField(a, f, v)
  {
    AddressExtensionality(r, SetField(a, f, v));
  }
}
