/**
  The customer resource controller: listing with the name/email filter,
  create, show, partial update and delete over the customers table.
  Each action returns a Response value in place of an HTTP response; the
  tier is appended to every customer a response carries.
 */
module CustomerController {
  import opened CustomerModel
  import opened CustomerTable

  // ----- the listing filter -----

  /** Query parameters: each is either absent or carries a value. */
  datatype Query = Query(name: Option<string>, email: Option<string>)

  datatype Column = NameColumn | EmailColumn
  datatype Connective = And | Or

  /** One `where` (And) or `orWhere` (Or) equality clause. */
  datatype Clause = Clause(connective: Connective, column: Column, value: string)

  /** The clauses the nested where-group receives: a `where` on name when the
      name parameter is present, then an `orWhere` on email when the email
      parameter is present. */
  function GroupClauses(q: Query): seq<Clause>
  {
    (if q.name.Some? then [Clause(And, NameColumn, q.name.value)] else [])
    + (if q.email.Some? then [Clause(Or, EmailColumn, q.email.value)] else [])
  }

  function ColumnValue(c: Customer, column: Column): string
  {
    match column
    case NameColumn => c.name
    case EmailColumn => c.email
  }

  predicate Holds(clause: Clause, c: Customer)
  {
    ColumnValue(c, clause.column) == clause.value
  }

  /** SQL reading of the clauses after the first: AND binds tighter than OR,
      so the list is a disjunction of AND-runs; `run` is the value of the
      run still open. */
  function EvalRuns(cs: seq<Clause>, c: Customer, run: bool): bool
  {
    if cs == [] then run
    else if cs[0].connective == Or then run || EvalRuns(cs[1..], c, Holds(cs[0], c))
    else EvalRuns(cs[1..], c, run && Holds(cs[0], c))
  }

  /** A where-group: the connective of its first clause is dropped, so an
      `orWhere` that opens the group acts as a plain `where`. */
  predicate GroupHolds(cs: seq<Clause>, c: Customer)
  {
    cs == [] || EvalRuns(cs[1..], c, Holds(cs[0], c))
  }

  /** The row test of the listing query: without either parameter there is
      no where-group at all. */
  predicate Matches(q: Query, c: Customer)
  {
    if q.name.None? && q.email.None? then true
    else GroupHolds(GroupClauses(q), c)
  }

  /** Reference definition: no filter, or a match on any supplied field. */
  predicate MatchesAnySupplied(q: Query, c: Customer)
  {
    || (q.name.None? && q.email.None?)
    || (q.name.Some? && c.name == q.name.value)
    || (q.email.Some? && c.email == q.email.value)
  }

  /** The filter is the union of the supplied field matches, not their
      intersection; a sole parameter is a plain equality test. */
  lemma MatchesIsUnion(q: Query, c: Customer)
    ensures Matches(q, c) <==> MatchesAnySupplied(q, c)
    ensures q.name.Some? && q.email.None? ==> (Matches(q, c) <==> c.name == q.name.value)
    ensures q.name.None? && q.email.Some? ==> (Matches(q, c) <==> c.email == q.email.value)
    ensures q.name.Some? && q.email.Some? ==>
              (Matches(q, c) <==> c.name == q.name.value || c.email == q.email.value)
  {
    var cs := GroupClauses(q);
    match (q.name, q.email)
    case (None, None) =>
    case (Some(n), None) =>
      assert cs == [Clause(And, NameColumn, n)];
    case (None, Some(e)) =>
      assert cs == [Clause(Or, EmailColumn, e)];
    case (Some(n), Some(e)) =>
      assert cs == [Clause(And, NameColumn, n), Clause(Or, EmailColumn, e)];
      assert cs[1..] == [Clause(Or, EmailColumn, e)];
      assert cs[1..][1..] == [];
      assert EvalRuns(cs[1..][1..], c, Holds(cs[1], c)) == Holds(cs[1], c);
      assert GroupHolds(cs, c) == (Holds(cs[0], c) || Holds(cs[1], c));
  }

  /** `s` is `t` with some elements left out, the rest in their order. */
  ghost predicate IsSubsequence<T>(s: seq<T>, t: seq<T>)
    decreases |t|
  {
    || s == []
    || (t != [] && ((s[0] == t[0] && IsSubsequence(s[1..], t[1..])) || IsSubsequence(s, t[1..])))
  }

  /** The rows the listing query returns, in table order. */
  function Select(rows: Table, q: Query): (r: Table)
    ensures IsSubsequence(r, rows)
    ensures forall c :: c in r <==> c in rows && Matches(q, c)
  {
    if rows == [] then []
    else if Matches(q, rows[0]) then [rows[0]] + Select(rows[1..], q)
    else Select(rows[1..], q)
  }

  /** Without parameters the listing is the whole table in table order. */
  lemma {:induction false} SelectAll(rows: Table)
    ensures Select(rows, Query(None, None)) == rows
  {
    if rows != [] {
      SelectAll(rows[1..]);
      assert [rows[0]] + rows[1..] == rows;
    }
  }

  /** With both parameters the listing holds exactly the rows matching the
      name or the email. */
  lemma SelectBothIsUnion(rows: Table, name: string, email: string)
    ensures forall c :: c in Select(rows, Query(Some(name), Some(email))) <==>
                          c in rows && (c.name == name || c.email == email)
  {
    forall c {
      MatchesIsUnion(Query(Some(name), Some(email)), c);
    }
  }

  /** When no row has the name or the email, the listing is empty. */
  lemma SelectNoMatchIsEmpty(rows: Table, name: string, email: string)
    requires forall c :: c in rows ==> c.name != name && c.email != email
    ensures Select(rows, Query(Some(name), Some(email))) == []
  {
    var r := Select(rows, Query(Some(name), Some(email)));
    if r != [] {
      assert r[0] in r;
      MatchesIsUnion(Query(Some(name), Some(email)), r[0]);
    }
  }

  /** The listing scenario with two customers: a present name and an absent
      email finds the first, an absent name and a present email finds the
      second, and two absent values find neither. */
  lemma EitherFieldScenario()
    ensures var alice := Customer("a", "Alice Smith", "alice@example.com", None, None);
            var bob := Customer("b", "Bob Johnson", "bob@example.com", None, None);
            && Select([alice, bob], Query(Some("Alice Smith"), Some("nonexistent@example.com"))) == [alice]
            && Select([alice, bob], Query(Some("Nonexistent Name"), Some("bob@example.com"))) == [bob]
            && Select([alice, bob], Query(Some("Nonexistent"), Some("nonexistent@example.com"))) == []
  {
    var alice := Customer("a", "Alice Smith", "alice@example.com", None, None);
    var bob := Customer("b", "Bob Johnson", "bob@example.com", None, None);
    var rows := [alice, bob];
    assert rows[1..] == [bob] && [bob][1..] == [];
    var q1 := Query(Some("Alice Smith"), Some("nonexistent@example.com"));
    MatchesIsUnion(q1, alice);
    MatchesIsUnion(q1, bob);
    assert Select(rows, q1) == [alice] + Select([bob], q1);
    var q2 := Query(Some("Nonexistent Name"), Some("bob@example.com"));
    MatchesIsUnion(q2, alice);
    MatchesIsUnion(q2, bob);
    assert Select(rows, q2) == Select([bob], q2);
    assert Select([bob], q2) == [bob] + Select([], q2);
    SelectNoMatchIsEmpty(rows, "Nonexistent", "nonexistent@example.com");
  }

  // ----- responses -----

  /** A customer as it is returned: the stored fields with the tier appended. */
  datatype CustomerView = CustomerView(customer: Customer, tier: Tier)

  function Present(c: Customer, clock: Clock): CustomerView
  {
    CustomerView(c, TierOf(c.annualSpend, c.lastPurchaseDate, clock))
  }

  function PresentAll(cs: seq<Customer>, clock: Clock): (vs: seq<CustomerView>)
    ensures |vs| == |cs|
    ensures forall i :: 0 <= i < |cs| ==> vs[i].customer == cs[i]
    ensures forall i :: 0 <= i < |cs| ==> vs[i].tier == TierOf(cs[i].annualSpend, cs[i].lastPurchaseDate, clock)
  {
    if cs == [] then [] else [Present(cs[0], clock)] + PresentAll(cs[1..], clock)
  }

  datatype Response =
    | Listed(customers: seq<CustomerView>)
    | Created(created: CustomerView)
    | Found(found: CustomerView)
    | Updated(updated: CustomerView)
    | Deleted
    | NotFound
    | EmailInUse

  /** A create request: name and email are required, the two nullable fields
      default to null when absent. */
  datatype NewCustomer = NewCustomer(
    name: string,
    email: string,
    annualSpend: Option<Cents>,
    lastPurchaseDate: Option<Instant>)

  function Record(id: string, req: NewCustomer): Customer
  {
    Customer(id, req.name, req.email, req.annualSpend, req.lastPurchaseDate)
  }

  // ----- the controller over the table -----

  class CustomerStore {
    var rows: Table

    predicate Valid()
      reads this
    {
      Consistent(rows)
    }

    constructor ()
      ensures Valid() && rows == []
    {
      rows := [];
    }

    /** List customers, filtered by name or email when either is given. */
    method Index(q: Query, clock: Clock) returns (r: Response)
      requires Valid()
      ensures r.Listed?
      ensures |r.customers| == |Select(rows, q)|
      ensures forall i :: 0 <= i < |r.customers| ==> r.customers[i].customer == Select(rows, q)[i]
      ensures forall v :: v in r.customers ==> v.customer in rows && Matches(q, v.customer)
      ensures forall v :: v in r.customers ==>
                v.tier == TierOf(v.customer.annualSpend, v.customer.lastPurchaseDate, clock)
    {
      var selected := Select(rows, q);
      r := Listed(PresentAll(selected, clock));
      forall v | v in r.customers
        ensures v.customer in rows && Matches(q, v.customer)
      {
        var i :| 0 <= i < |r.customers| && r.customers[i] == v;
        assert selected[i] in selected;
      }
      forall v | v in r.customers
        ensures v.tier == TierOf(v.customer.annualSpend, v.customer.lastPurchaseDate, clock)
      {
        var i :| 0 <= i < |r.customers| && r.customers[i] == v;
      }
    }

    /** Create a customer under a fresh id; an email already in use is
        refused and the table is left as it was. */
    method Store(id: string, req: NewCustomer, clock: Clock) returns (r: Response)
      requires Valid() && !HasId(rows, id)
      modifies this
      ensures Valid()
      ensures EmailTaken(old(rows), req.email) ==> r == EmailInUse && rows == old(rows)
      ensures !EmailTaken(old(rows), req.email) ==>
                r == Created(Present(Record(id, req), clock)) && rows == Inserted(old(rows), Record(id, req))
      ensures !EmailTaken(old(rows), req.email) ==>
                Find(rows, id) == Some(Record(id, req))
      ensures forall other :: other != id ==> Find(rows, other) == Find(old(rows), other)
    {
      if EmailTaken(rows, req.email) {
        r := EmailInUse;
      } else {
        var c := Record(id, req);
        InsertedProperties(rows, c);
        rows := Inserted(rows, c);
        r := Created(Present(c, clock));
      }
    }

    /** Show one customer by id. */
    method Show(id: string, clock: Clock) returns (r: Response)
      requires Valid()
      ensures !HasId(rows, id) <==> r == NotFound
      ensures r != NotFound ==> r.Found? && r.found.customer in rows && r.found.customer.id == id
      ensures r != NotFound ==> r.found.tier == TierOf(r.found.customer.annualSpend, r.found.customer.lastPurchaseDate, clock)
    {
      var found := Find(rows, id);
      if found.None? {
        r := NotFound;
      } else {
        r := Found(Present(found.value, clock));
      }
    }

    /** Overwrite the supplied fields of the customer with this id. An email
        that belongs to another customer is refused; the customer's own email
        is not. */
    method Update(id: string, p: Patch, clock: Clock) returns (r: Response)
      requires Valid()
      modifies this
      ensures Valid()
      ensures !HasId(old(rows), id) ==> r == NotFound && rows == old(rows)
      ensures HasId(old(rows), id) && p.email.Some? && EmailTakenByOther(old(rows), id, p.email.value) ==>
                r == EmailInUse && rows == old(rows)
      ensures HasId(old(rows), id) && !(p.email.Some? && EmailTakenByOther(old(rows), id, p.email.value)) ==>
                && rows == Patched(old(rows), id, p)
                && r == Updated(Present(Apply(Find(old(rows), id).value, p), clock))
                && Find(rows, id) == Some(Apply(Find(old(rows), id).value, p))
                && forall other :: other != id ==> Find(rows, other) == Find(old(rows), other)
    {
      var found := Find(rows, id);
      if found.None? {
        r := NotFound;
      } else if p.email.Some? && EmailTakenByOther(rows, id, p.email.value) {
        r := EmailInUse;
      } else {
        PatchedConsistent(rows, id, p);
        PatchedFindTarget(rows, id, p);
        forall other | other != id
          ensures Find(Patched(rows, id, p), other) == Find(rows, other)
        {
          PatchedFindOthers(rows, id, p, other);
        }
        rows := Patched(rows, id, p);
        r := Updated(Present(Apply(found.value, p), clock));
      }
    }

    /** Delete the customer with this id. */
    method Destroy(id: string) returns (r: Response)
      requires Valid()
      modifies this
      ensures Valid()
      ensures !HasId(old(rows), id) ==> r == NotFound && rows == old(rows)
      ensures HasId(old(rows), id) ==> r == Deleted && rows == Removed(old(rows), id)
      ensures HasId(old(rows), id) ==> |rows| == |old(rows)| - 1
      ensures !HasId(rows, id)
      ensures forall other :: other != id ==> Find(rows, other) == Find(old(rows), other)
    {
      RemovedCount(rows, id);
      RemovedFind(rows, id);
      RemovedConsistent(rows, id);
      if !HasId(rows, id) {
        r := NotFound;
      } else {
        rows := Removed(rows, id);
        r := Deleted;
      }
    }
  }

  /** 2024-01-01T00:00:00Z and 2024-06-01T00:00:00Z as Unix seconds. */
  const Jan2024: Instant := 1704067200
  const Jun2024: Instant := 1717200000

  /** A client of the controller: create, show, update, delete, and show
      again, as the feature scenarios do. The created row is found by its id,
      the update keeps the id and overwrites the supplied fields, and after
      the delete the id is no longer found. */
  method CrudScenario(clock: Clock)
    returns (created: Response, shown: Response, updated: Response, deleted: Response, again: Response)
    ensures created.Created?
    ensures created.created.customer == Customer("id-1", "John Doe", "johndoe@example.com", Some(100050), Some(Jan2024))
    ensures shown.Found? && shown.found.customer == created.created.customer
    ensures updated.Updated?
    ensures updated.updated.customer == Customer("id-1", "John Smith", "johnsmith@example.com", Some(200075), Some(Jun2024))
    ensures deleted == Deleted && again == NotFound
  {
    var store := new CustomerStore();
    created := store.Store("id-1", NewCustomer("John Doe", "johndoe@example.com", Some(100050), Some(Jan2024)), clock);
    shown := store.Show("id-1", clock);
    var patch := Patch(Some("John Smith"), Some("johnsmith@example.com"), Some(Some(200075)), Some(Some(Jun2024)));
    updated := store.Update("id-1", patch, clock);
    deleted := store.Destroy("id-1");
    again := store.Show("id-1", clock);
  }
}
