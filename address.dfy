/**
 * The Address value object: four fields validated once at construction, and
 * a canonical one-line text form.
 */
module Addresses {
  import opened Wrappers

  const StreetRequired := "Street is required."
  const NumberRequired := "Number is required."
  const ZipRequired := "Zip is required."
  const CityRequired := "City is required."

  /** The fields of an address, before validation. The house number is an integer. */
  datatype AddressData = AddressData(street: string, number: int, zip: string, city: string)

  /** What validate() accepts: only the number 0 is refused, negative numbers pass. */
  predicate WellFormed(a: AddressData) {
    a.street != "" && a.number != 0 && a.zip != "" && a.city != ""
  }

  /** An Address that exists has passed validation. */
  type Address = a: AddressData | WellFormed(a) witness AddressData("s", 1, "z", "c")

  /** Every rule the fields break, in the order validate() checks them. */
  function BrokenRules(street: string, number: int, zip: string, city: string): seq<string> {
    (if street == "" then [StreetRequired] else [])
    + (if number == 0 then [NumberRequired] else [])
    + (if zip == "" then [ZipRequired] else [])
    + (if city == "" then [CityRequired] else [])
  }

  /** validate(): the message of the first failing check, or None. */
  function Validate(street: string, number: int, zip: string, city: string): (r: Option<string>)
    ensures r.None? <==> WellFormed(AddressData(street, number, zip, city))
    ensures r.None? <==> BrokenRules(street, number, zip, city) == []
    ensures r.Some? ==> r.value == BrokenRules(street, number, zip, city)[0]
  {
    if |street| == 0 then Some(StreetRequired)
    else if number == 0 then Some(NumberRequired)
    else if |zip| == 0 then Some(ZipRequired)
    else if |city| == 0 then Some(CityRequired)
    else None
  }

  /** new Address(street, number, zip, city): the fields are stored unchanged and validated. */
  function NewAddress(street: string, number: int, zip: string, city: string): (r: Result<Address, string>)
    ensures r.Success? <==> WellFormed(AddressData(street, number, zip, city))
    ensures r.Success? ==> r.value == AddressData(street, number, zip, city)
    ensures r.Failure? ==> Validate(street, number, zip, city) == Some(r.error)
  {
    match Validate(street, number, zip, city)
    case Some(message) => Failure(message)
    case None => Success(AddressData(street, number, zip, city))
  }

  /** A field left empty or zeroed on its own is reported by its own message. */
  lemma SingleMissingField(street: string, number: int, zip: string, city: string)
    requires street != "" && number != 0 && zip != "" && city != ""
    ensures NewAddress("", number, zip, city) == Failure(StreetRequired)
    ensures NewAddress(street, 0, zip, city) == Failure(NumberRequired)
    ensures NewAddress(street, number, "", city) == Failure(ZipRequired)
    ensures NewAddress(street, number, zip, "") == Failure(CityRequired)
    ensures NewAddress(street, -number, zip, city).Success?
  {
  }

  // Decimal text of integers, as a template string prints an integral number.

  predicate IsDigit(c: char) {
    '0' <= c <= '9'
  }

  function DigitChar(d: nat): (c: char)
    requires d < 10
  {
    ('0' as int + d) as char
  }

  function DigitValue(c: char): nat {
    if IsDigit(c) then c as int - '0' as int else 0
  }

  /** The decimal digits of n, most significant first, without leading zeros; they read back as n. */
  function NatToString(n: nat): (s: string)
    ensures |s| > 0
    ensures forall i :: 0 <= i < |s| ==> IsDigit(s[i])
    ensures ParseNat(s) == n
    ensures |s| == 1 || s[0] != '0'
    decreases n
  {
    if n < 10 then [DigitChar(n)]
    else
      var t := NatToString(n / 10);
      var s := t + [DigitChar(n % 10)];
      assert s[..|s| - 1] == t;
      assert |t| == 1 ==> ParseNat(t) == DigitValue(t[0]) by {
        if |t| == 1 {
          assert t[..0] == [];
        }
      }
      s
  }

  /** An integer in decimal, with a leading '-' when negative; it reads back as n and holds no comma. */
  function IntToString(n: int): (s: string)
    ensures ParseInt(s) == n
    ensures ',' !in s
    ensures |s| > 0 && (n < 0 <==> s[0] == '-')
    ensures n < 0 ==> |s| > 1 && s[1] != '0'
    ensures n >= 0 ==> |s| == 1 || s[0] != '0'
    ensures forall i :: (if n < 0 then 1 else 0) <= i < |s| ==> IsDigit(s[i])
  {
    if n < 0 then
      var t := NatToString(-n);
      var s := "-" + t;
      assert s[1..] == t;
      assert |t| == 1 ==> ParseNat(t) == DigitValue(t[0]) by {
        if |t| == 1 {
          assert t[..0] == [];
        }
      }
      s
    else
      var s := NatToString(n);
      assert IsDigit(s[0]);
      s
  }

  /** The value of a string of decimal digits, read from the last digit back. */
  function ParseNat(s: string): nat
    decreases |s|
  {
    if s == [] then 0 else ParseNat(s[..|s| - 1]) * 10 + DigitValue(s[|s| - 1])
  }

  /** The value of decimal text with an optional leading '-'. */
  function ParseInt(s: string): int {
    if |s| > 0 && s[0] == '-' then 0 - ParseNat(s[1..]) as int else ParseNat(s)
  }

  /** toString(): street, number, zip and city, separated by ", ". */
  function ToString(a: Address): string {
    a.street + ", " + IntToString(a.number) + ", " + a.zip + ", " + a.city
  }

  /** The pieces of s between commas, in order; a string without commas is one piece. */
  function Split(s: string): (r: seq<string>)
    ensures |r| > 0
    decreases |s|
  {
    if s == [] then [""]
    else if s[0] == ',' then [""] + Split(s[1..])
    else var rest := Split(s[1..]); [[s[0]] + rest[0]] + rest[1..]
  }

  lemma {:induction false} SplitNoComma(a: string)
    requires ',' !in a
    ensures Split(a) == [a]
    decreases |a|
  {
    if a != [] {
      SplitNoComma(a[1..]);
      assert [a[0]] + a[1..] == a;
    }
  }

  lemma {:induction false} SplitAtComma(a: string, b: string)
    requires ',' !in a
    ensures Split(a + "," + b) == [a] + Split(b)
    decreases |a|
  {
    if a == [] {
      assert a + "," + b == [','] + b;
      assert ([','] + b)[1..] == b;
    } else {
      var s := a + "," + b;
      assert s[0] == a[0];
      assert s[1..] == a[1..] + "," + b;
      SplitAtComma(a[1..], b);
      assert [a[0]] + a[1..] == a;
    }
  }

  /** Reads the text form back: four comma-separated pieces, the last three after one space. */
  function FromString(s: string): Option<Address> {
    var f := Split(s);
    if |f| == 4 && |f[1]| > 0 && f[1][0] == ' ' && |f[2]| > 0 && f[2][0] == ' ' && |f[3]| > 0 && f[3][0] == ' ' then
      match NewAddress(f[0], ParseInt(f[1][1..]), f[2][1..], f[3][1..])
      case Success(a) => Some(a)
      case Failure(_) => None
    else None
  }

  /** The text form splits at its three separators into the four fields, the last three after a space. */
  lemma SplitToString(a: Address)
    requires ',' !in a.street && ',' !in a.zip && ',' !in a.city
    ensures Split(ToString(a)) == [a.street, " " + IntToString(a.number), " " + a.zip, " " + a.city]
  {
    var p1, p2, p3 := " " + IntToString(a.number), " " + a.zip, " " + a.city;
    var r2 := p2 + "," + p3;
    var r1 := p1 + "," + r2;
    assert Split(r2) == [p2, p3] by {
      assert ',' !in p2 && ',' !in p3;
      SplitAtComma(p2, p3);
      SplitNoComma(p3);
    }
    assert Split(r1) == [p1, p2, p3] by {
      assert ',' !in p1;
      SplitAtComma(p1, r2);
    }
    SplitAtComma(a.street, r1);
    assert ToString(a) == a.street + "," + r1;
  }

  /**
   * The text form loses nothing: when street, zip and city contain no comma,
   * the four fields are read back from it.
   */
  lemma ToStringRoundTrip(a: Address)
    requires ',' !in a.street && ',' !in a.zip && ',' !in a.city
    ensures FromString(ToString(a)) == Some(a)
  {
    var num := IntToString(a.number);
    SplitToString(a);
    assert (" " + num)[1..] == num && (" " + a.zip)[1..] == a.zip && (" " + a.city)[1..] == a.city;
  }

  /** Two addresses with comma-free text fields have the same text form only if they are equal. */
  lemma ToStringInjective(a: Address, b: Address)
    requires ',' !in a.street && ',' !in a.zip && ',' !in a.city
    requires ',' !in b.street && ',' !in b.zip && ',' !in b.city
    requires ToString(a) == ToString(b)
    ensures a == b
  {
    ToStringRoundTrip(a);
    ToStringRoundTrip(b);
  }

  /** The text form of the address used for a customer's change of address. */
  lemma ToStringExample()
    ensures ToString(AddressData("Street 1", 1, "12345-678", "City 1")) == "Street 1, 1, 12345-678, City 1"
  {
    assert IntToString(1) == NatToString(1) == "1";
  }

  /** A negative house number is printed with its sign. */
  lemma IntToStringExample()
    ensures IntToString(-42) == "-42"
  {
    assert NatToString(4) == "4";
    assert NatToString(42) == "42";
  }
}
