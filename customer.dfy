/** The customer record, the seed table the service starts with, and the
    facts about tables that the store's operations rely on. */
module CustomerTable {
  import opened Strconv

  /** One customer record; the registry keeps it whole, and no field is validated. */
  datatype Customer = Customer(
    id: string,
    name: string,
    role: string,
    email: string,
    phone: string,
    contacted: bool)

  /** The registry: record identifier to record. */
  type Table = map<string, Customer>

  /** What a lookup-style operation produces: a value, or the registry's one
      domain error. */
  datatype Result<T> = Ok(value: T) | NotFound

  /** The plain-text body sent with every 404. */
  const NotFoundMessage: string := "Customer not found"

  /** Every record is stored under its own identifier. */
  predicate WellKeyed(t: Table) {
    forall k :: k in t ==> t[k].id == k
  }

  /** The four records the service starts with. */
  function Seed(): (t: Table)
    ensures t.Keys == {"1", "2", "3", "4"}
    ensures WellKeyed(t)
    ensures forall k :: k in t ==> !t[k].contacted
  {
    map[
      "1" := Customer("1", "John Doe", "CEO", "jodo@example.com", "1234567890", false),
      "2" := Customer("2", "Jane Doe", "CTO", "jado@example.com", "1234567890", false),
      "3" := Customer("3", "John Smith", "CFO", "josm@example.com", "1234567890", false),
      "4" := Customer("4", "Jane Smith", "CMO", "jasm@example.com", "1234567890", false)
    ]
  }

  /** The identifier a create assigns: the decimal form of the table's size plus one. */
  function NextId(t: Table): (id: string)
    ensures IsCanonical(id) && DecimalValue(id) == |t| + 1
  {
    ValueOfItoa(|t| + 1);
    Itoa(|t| + 1)
  }

  /** `keys` visits every key of `t` exactly once, and `cs` holds the record
      stored under each visited key, in the same order. */
  ghost predicate Enumerates(t: Table, keys: seq<string>, cs: seq<Customer>) {
    && |keys| == |cs|
    && (forall i :: 0 <= i < |keys| ==> keys[i] in t && cs[i] == t[keys[i]])
    && (forall i, j :: 0 <= i < j < |keys| ==> keys[i] != keys[j])
    && (forall k :: k in t ==> k in keys)
  }

  /** `cs` is the table's values, one per key, in some order. */
  ghost predicate IsListing(t: Table, cs: seq<Customer>) {
    exists keys :: Enumerates(t, keys, cs)
  }

  /** A listing has one entry per key. */
  lemma {:induction false} ListingSize(t: Table, cs: seq<Customer>)
    requires IsListing(t, cs)
    ensures |cs| == |t|
  {
    var keys :| Enumerates(t, keys, cs);
    DistinctKeysCount(t, keys);
  }

  lemma {:induction false} DistinctKeysCount(t: Table, keys: seq<string>)
    requires forall i, j :: 0 <= i < j < |keys| ==> keys[i] != keys[j]
    requires forall i :: 0 <= i < |keys| ==> keys[i] in t
    requires forall k :: k in t ==> k in keys
    ensures |keys| == |t|
  {
    if keys == [] {
      assert t.Keys == {};
    } else {
      var k := keys[|keys| - 1];
      var rest := keys[..|keys| - 1];
      assert forall i :: 0 <= i < |rest| ==> rest[i] == keys[i];
      var smaller := t - {k};
      forall k' | k' in smaller ensures k' in rest {
        var i :| 0 <= i < |keys| && keys[i] == k';
        assert i != |keys| - 1;
      }
      DistinctKeysCount(smaller, rest);
    }
  }

  /** Listing a well-keyed table, then looking up each listed record by its
      own identifier, gives back that same record; and every stored record
      is listed. */
  lemma ListingRoundTrip(t: Table, cs: seq<Customer>)
    requires WellKeyed(t) && IsListing(t, cs)
    ensures forall i :: 0 <= i < |cs| ==> cs[i].id in t && t[cs[i].id] == cs[i]
    ensures forall k :: k in t ==> t[k] in cs
  {
  }

  /** Among any |t| + 1 consecutive numbers there is one whose identifier is
      not a key of `t`. */
  lemma FreeIdInRange(t: Table, lo: nat)
    ensures exists m :: lo <= m <= lo + |t| && Itoa(m) !in t
  {
    var ids := DecimalRange(lo, |t| + 1);
    DecimalRangeSize(lo, |t| + 1);
    if forall m :: lo <= m <= lo + |t| ==> Itoa(m) in t {
      assert ids <= t.Keys;
      SubsetSize(ids, t.Keys);
      assert false;
    }
  }

  lemma {:induction false} SubsetSize(a: set<string>, b: set<string>)
    requires a <= b
    ensures |a| <= |b|
  {
    if a != {} {
      var x :| x in a;
      SubsetSize(a - {x}, b - {x});
    }
  }

  /** Keys "1" .. "n" with n = |t|: the table has only grown through creates. */
  predicate IsDense(t: Table) {
    t.Keys == DecimalRange(1, |t|)
  }

  lemma SeedIsDense()
    ensures IsDense(Seed())
  {
    var t := Seed();
    assert |t| == 4 by {
      assert t.Keys == {"1", "2", "3", "4"};
    }
    assert Itoa(1) == "1" && Itoa(2) == "2" && Itoa(3) == "3" && Itoa(4) == "4";
    assert DecimalRange(1, 4) == {"1", "2", "3", "4"};
  }

  /** On a dense table the next identifier is new, so a create grows the
      table by one and keeps it dense. */
  lemma DenseCreateIsFresh(t: Table, c: Customer)
    requires IsDense(t)
    ensures NextId(t) !in t
    ensures |t[NextId(t) := c]| == |t| + 1
    ensures IsDense(t[NextId(t) := c])
  {
    DecimalRangeExcludes(1, |t|, |t| + 1);
    DecimalRangeStep(1, |t|);
  }

  /** After the seed's record "2" is removed, the next identifier is "4",
      which still belongs to a stored record. */
  lemma NextIdAfterDeleteCollides()
    ensures NextId(Seed() - {"2"}) == "4"
    ensures "4" in Seed() - {"2"}
  {
  }
}
