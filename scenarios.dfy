/** Request sequences against a freshly started service, showing what a
    client can rely on from the store's contracts alone. */
module Scenarios {
  import opened Strconv
  import opened CustomerTable
  import opened CustomerStore
  import opened Handlers

  /** POST /customers on the seed table answers 201 with identifier "5",
      and the table then holds five records. */
  method CreateOnSeed(draft: Customer) returns (resp: Response<Customer>, size: nat)
    ensures resp == Response(201, Json(draft.(id := "5")))
    ensures size == 5
  {
    var s := new Store();
    assert |s.db| == 4 by {
      assert s.db.Keys == {"1", "2", "3", "4"};
    }
    var c := s.Create(draft);
    resp := Respond(AddCustomer, Ok(c));
    SeedIsDense();
    DenseCreateIsFresh(Seed(), c);
    size := |s.db|;
  }

  /** GET /customers/99 on the seed table answers 404 "Customer not found". */
  method GetMissing() returns (resp: Response<Customer>)
    ensures resp == Response(404, Text("Customer not found"))
  {
    var s := new Store();
    var r := s.Get("99");
    resp := Respond(GetCustomer, r);
  }

  /** DELETE /customers/2 answers 200 with the three remaining records, and
      a later GET /customers/2 answers 404. */
  method DeleteThenGet() returns (deleted: Response<Table>, after: Response<Customer>)
    ensures deleted == Response(200, Json(Seed() - {"2"}))
    ensures deleted.body.value.Keys == {"1", "3", "4"}
    ensures after == Response(404, Text(NotFoundMessage))
  {
    var s := new Store();
    var r := s.Delete("2");
    deleted := Respond(DeleteCustomer, r);
    var g := s.Get("2");
    after := Respond(GetCustomer, g);
  }

  /** DELETE /customers/2 then POST /customers: the new record is given the
      identifier "4", replaces the seed's customer 4, and the table does not
      grow. */
  method CreateAfterDeleteOverwrites(draft: Customer) returns (c: Customer, size: nat, stored: Result<Customer>)
    ensures c == draft.(id := "4")
    ensures size == 3
    ensures stored == Ok(c)
  {
    var s := new Store();
    var _ := s.Delete("2");
    NextIdAfterDeleteCollides();
    c := s.Create(draft);
    size := |s.db|;
    stored := s.Get("4");
  }

  /** The same requests with the corrected create: the new record gets the
      first free identifier, "5", and the table grows back to four records. */
  method CreateFreshAfterDelete(draft: Customer) returns (c: Customer, size: nat)
    ensures c == draft.(id := "5")
    ensures size == 4
  {
    var s := new Store();
    var _ := s.Delete("2");
    ghost var before := s.db;
    assert before.Keys == {"1", "3", "4"} && |before| == 3;
    c := s.CreateFresh(draft);
    ItoaOfValue(c.id);
    ghost var v := DecimalValue(c.id);
    assert v != 4 by {
      assert Itoa(4) == "4";
    }
    assert v <= 5 by {
      assert Itoa(5) == "5";
    }
    assert c.id == Itoa(5);
    size := |s.db|;
  }

  /** PUT /customers/1 with a payload whose own identifier is "7": the record
      stored under "1" now claims identifier "7", so the table is no longer
      well keyed. */
  method UpdateWithOtherId(payload: Customer) returns (stored: Result<Customer>, keyed: bool)
    requires payload.id == "7"
    ensures stored == Ok(payload)
    ensures !keyed
  {
    var s := new Store();
    var _ := s.Update("1", payload);
    stored := s.Get("1");
    keyed := WellKeyed(s.db);
  }
}
