/**
 * What the orders and sales pages share: the customer list they look names up
 * in, and the short ids they cut from a timestamp.
 */
module Directory {
  import opened Wrappers
  import opened Lists
  import opened Text

  datatype Customer = Customer(id: string, name: string)

  function CustomerId(c: Customer): string {
    c.id
  }

  const UnknownCustomer := "Cliente Desconhecido"

  const InitialCustomers: seq<Customer> := [
    Customer("CUST001", "Liam Johnson"),
    Customer("CUST002", "Olivia Smith"),
    Customer("CUST003", "Noah Williams"),
    Customer("CUST004", "Emma Brown"),
    Customer("CUST005", "James Jones")
  ]

  /**
   * `customers.find(c => c.id === id)?.name || 'Cliente Desconhecido'`: the name of the
   * first customer with the id, or the fallback when there is none or its name is empty.
   */
  function CustomerName(customers: seq<Customer>, id: string): (r: string)
    ensures r != UnknownCustomer ==>
              exists i :: 0 <= i < |customers| && customers[i].id == id && customers[i].name == r
    ensures (forall i :: 0 <= i < |customers| ==> customers[i].id != id) ==> r == UnknownCustomer
    ensures r != ""
  {
    match Find(customers, CustomerId, id)
    case Some(c) => if c.name != "" then c.name else UnknownCustomer
    case None => UnknownCustomer
  }

  /** With unique ids, a listed customer with a name is found by its id. */
  lemma KnownCustomer(customers: seq<Customer>, c: Customer)
    requires DistinctKeys(customers, CustomerId) && c in customers && c.name != ""
    ensures CustomerName(customers, c.id) == c.name
  {
    var i :| 0 <= i < |customers| && customers[i] == c;
    var found := Find(customers, CustomerId, c.id);
    assert found.Some?;
    var j :| 0 <= j < |customers| && customers[j] == found.value;
    SameKeySameEntry(customers, CustomerId, i, j);
  }

  lemma InitialCustomersDistinct()
    ensures DistinctKeys(InitialCustomers, CustomerId)
    ensures forall i :: 0 <= i < |InitialCustomers| ==> InitialCustomers[i].name != ""
  {
  }

  /** `String(now).slice(-3)`: the last three digits of a timestamp, or all of them when fewer. */
  function LastThreeDigits(now: nat): (r: string)
    ensures AllDigits(r) && 1 <= |r| <= 3
  {
    var s := NatToString(now);
    if |s| <= 3 then s else s[|s| - 3..]
  }

  /** The suffix is the timestamp modulo one thousand. */
  lemma LastThreeDigitsValue(now: nat)
    ensures DecimalValue(LastThreeDigits(now)) == now % 1000
  {
    var s := NatToString(now);
    DecimalValueOfNatToString(now);
    assert Pow10(3) == 1000 by {
      assert Pow10(2) == 100 && Pow10(1) == 10 && Pow10(0) == 1;
    }
    if |s| <= 3 {
      DecimalValueBound(s);
      assert Pow10(|s|) <= Pow10(3) by {
        assert Pow10(2) == 100 && Pow10(1) == 10 && Pow10(0) == 1;
      }
    } else {
      var front, suffix := s[..|s| - 3], s[|s| - 3..];
      assert s == front + suffix;
      DecimalValueConcat(front, suffix);
      DecimalValueBound(suffix);
      RemainderOfThousand(now, DecimalValue(front), DecimalValue(suffix));
    }
  }

  lemma RemainderOfThousand(n: nat, q: nat, r: nat)
    requires n == q * 1000 + r && r < 1000
    ensures r == n % 1000
  {
  }

  /** From 100 on, the suffix is the three digits of the timestamp's hundreds, tens and units. */
  lemma LastThreeDigitsOf(now: nat)
    requires now >= 100
    ensures LastThreeDigits(now) == [DigitChar(now / 100 % 10), DigitChar(now / 10 % 10), DigitChar(now % 10)]
  {
    var h := now / 100;
    assert now / 10 / 10 == h;
    var front := if h < 10 then [] else NatToString(h / 10);
    assert NatToString(h) == front + [DigitChar(h % 10)];
    assert NatToString(now / 10) == NatToString(h) + [DigitChar(now / 10 % 10)];
    var s := NatToString(now);
    assert s == NatToString(now / 10) + [DigitChar(now % 10)];
    assert s == front + [DigitChar(h % 10), DigitChar(now / 10 % 10), DigitChar(now % 10)];
    assert s[|s| - 3..] == [DigitChar(h % 10), DigitChar(now / 10 % 10), DigitChar(now % 10)];
  }

  lemma ThousandApartDigits(t: nat)
    ensures (t + 1000) / 100 % 10 == t / 100 % 10
    ensures (t + 1000) / 10 % 10 == t / 10 % 10
    ensures (t + 1000) % 10 == t % 10
  {
    assert (t + 1000) / 100 == t / 100 + 10;
    assert (t + 1000) / 10 == t / 10 + 100;
  }

  /**
   * Timestamps a second (1000 ms) apart, from 100 on, give the same suffix, so the ids
   * cut from them collide; for example 1000 and 2000 both give "000".
   */
  lemma LastThreeDigitsCollide(t: nat)
    requires t >= 100
    ensures LastThreeDigits(t) == LastThreeDigits(t + 1000)
  {
    LastThreeDigitsOf(t);
    LastThreeDigitsOf(t + 1000);
    ThousandApartDigits(t);
  }
}
