/** The package-level customer map and the table logic of the five handlers,
    with the HTTP and JSON glue stripped off. Each method is one handler's
    effect on the map, taken as a single atomic step. */
module CustomerStore {
  import opened Strconv
  import opened CustomerTable

  class Store {
    /** The registry: identifier to record, changed in place by the handlers. */
    var db: Table

    /** The process starts with the four seed records. */
    constructor ()
      ensures db == Seed()
    {
      db := Seed();
    }

    /** GET /customers: every stored record, one per key, in the map's
        (unspecified) iteration order. */
    method List() returns (customers: seq<Customer>)
      ensures IsListing(db, customers)
      ensures |customers| == |db|
    {
      var remaining := db.Keys;
      ghost var keys: seq<string> := [];
      customers := [];
      while remaining != {}
        invariant remaining <= db.Keys
        invariant |keys| == |customers|
        invariant |keys| + |remaining| == |db|
        invariant forall i :: 0 <= i < |keys| ==> keys[i] in db && customers[i] == db[keys[i]]
        invariant forall i :: 0 <= i < |keys| ==> keys[i] !in remaining
        invariant forall i, j :: 0 <= i < j < |keys| ==> keys[i] != keys[j]
        invariant forall k :: k in db ==> k in remaining || k in keys
        decreases |remaining|
      {
        var k :| k in remaining;
        customers := customers + [db[k]];
        keys := keys + [k];
        remaining := remaining - {k};
      }
      assert Enumerates(db, keys, customers);
    }

    /** GET /customers/{id}: the stored record, or NotFound. */
    method Get(id: string) returns (r: Result<Customer>)
      ensures r.Ok? <==> id in db
      ensures r.Ok? ==> r.value == db[id]
    {
      if id in db {
        r := Ok(db[id]);
      } else {
        r := NotFound;
      }
    }

    /** POST /customers, as written: the draft gets the identifier
        decimal(|db| + 1), and is stored under it whether or not that key is
        already taken. The retry loop is only entered when the candidate is
        free, so it finds it free on its first pass. */
    method Create(draft: Customer) returns (c: Customer)
      modifies this
      ensures c == draft.(id := NextId(old(db)))
      ensures db == old(db)[c.id := c]
      ensures c.id !in old(db) ==> |db| == old(|db|) + 1
      ensures c.id in old(db) ==> |db| == old(|db|) && db.Keys == old(db.Keys)
      ensures WellKeyed(old(db)) ==> WellKeyed(db)
    {
      var t := db;
      c := draft;
      var candidate := Itoa(|t| + 1);
      if candidate in t {
        c := c.(id := candidate);
      } else {
        var done := false;
        ghost var passes := 0;
        while !done
          invariant candidate == Itoa(|t| + 1) && candidate !in t
          invariant 0 <= passes <= 1 && (done <==> passes == 1)
          invariant c == if done then draft.(id := candidate) else draft
          decreases 1 - passes
        {
          candidate := Itoa(|t| + 1);
          passes := passes + 1;
          if candidate in t {
            // the `continue` branch: the table has not changed since the
            // candidate was found absent, so it cannot be taken now
            assert false;
          } else {
            c := c.(id := candidate);
            done := true;
          }
        }
      }
      db := t[candidate := c];
    }

    /** POST /customers with the identifier scheme the code's comment asks
        for: scan upward from decimal(|db| + 1) to the first identifier that
        is not taken, so a create always adds a record. */
    method CreateFresh(draft: Customer) returns (c: Customer)
      modifies this
      ensures c == draft.(id := c.id)
      ensures c.id !in old(db)
      ensures IsCanonical(c.id) && old(|db|) < DecimalValue(c.id) <= 2 * old(|db|) + 1
      ensures forall m :: old(|db|) < m < DecimalValue(c.id) ==> Itoa(m) in old(db)
      ensures NextId(old(db)) !in old(db) ==> c.id == NextId(old(db))
      ensures db == old(db)[c.id := c]
      ensures |db| == old(|db|) + 1
      ensures WellKeyed(old(db)) ==> WellKeyed(db)
    {
      var t := db;
      var n := |t| + 1;
      FreeIdInRange(t, n);
      var candidate := Itoa(n);
      while candidate in t
        invariant |t| + 1 <= n <= 2 * |t| + 1
        invariant candidate == Itoa(n)
        invariant forall m :: |t| + 1 <= m < n ==> Itoa(m) in t
        invariant exists m :: n <= m <= 2 * |t| + 1 && Itoa(m) !in t
        decreases 2 * |t| + 1 - n
      {
        n := n + 1;
        candidate := Itoa(n);
      }
      ValueOfItoa(n);
      c := draft.(id := candidate);
      db := t[candidate := c];
    }

    /** PUT /customers/{id}: replace the stored record with the payload as
        given, its own identifier included, or report NotFound. */
    method Update(id: string, payload: Customer) returns (r: Result<Customer>)
      modifies this
      ensures id in old(db) ==> r == Ok(payload) && db == old(db)[id := payload]
      ensures id in old(db) ==> db.Keys == old(db.Keys) && |db| == old(|db|)
      ensures id !in old(db) ==> r == NotFound && db == old(db)
      ensures WellKeyed(old(db)) && id in old(db) ==> (WellKeyed(db) <==> payload.id == id)
    {
      if id in db {
        db := db[id := payload];
        r := Ok(payload);
      } else {
        r := NotFound;
      }
    }

    /** DELETE /customers/{id}: remove the record and return what remains,
        or report NotFound. */
    method Delete(id: string) returns (r: Result<Table>)
      modifies this
      ensures id in old(db) ==> db == old(db) - {id} && r == Ok(db)
      ensures id in old(db) ==> id !in db && |db| == old(|db|) - 1
      ensures id !in old(db) ==> r == NotFound && db == old(db)
      ensures WellKeyed(old(db)) ==> WellKeyed(db)
    {
      if id in db {
        db := db - {id};
        r := Ok(db);
      } else {
        r := NotFound;
      }
    }
  }
}
