/**
  The customers table: rows in insertion order, with the primary key on `id`
  and the unique index on `email` that the schema declares, and the three
  ways the controller changes it (insert a row, overwrite fields of a row,
  delete a row).
 */
module CustomerTable {
  import opened CustomerModel

  type Table = seq<Customer>

  predicate HasId(rows: Table, id: string)
  {
    exists i :: 0 <= i < |rows| && rows[i].id == id
  }

  predicate EmailTaken(rows: Table, email: string)
  {
    exists i :: 0 <= i < |rows| && rows[i].email == email
  }

  /** The email belongs to some row other than the one with this id. */
  predicate EmailTakenByOther(rows: Table, id: string, email: string)
  {
    exists i :: 0 <= i < |rows| && rows[i].id != id && rows[i].email == email
  }

  predicate UniqueIds(rows: Table)
  {
    forall i, j :: 0 <= i < j < |rows| ==> rows[i].id != rows[j].id
  }

  predicate UniqueEmails(rows: Table)
  {
    forall i, j :: 0 <= i < j < |rows| ==> rows[i].email != rows[j].email
  }

  /** The table's integrity constraints: primary key and unique email. */
  predicate Consistent(rows: Table)
  {
    UniqueIds(rows) && UniqueEmails(rows)
  }

  /** Lookup by primary key. */
  function Find(rows: Table, id: string): (r: Option<Customer>)
    ensures r.None? <==> !HasId(rows, id)
    ensures r.Some? ==> r.value in rows && r.value.id == id
  {
    if rows == [] then None
    else if rows[0].id == id then Some(rows[0])
    else
      var r := Find(rows[1..], id);
      assert HasId(rows, id) ==> HasId(rows[1..], id) by {
        if HasId(rows, id) {
          var i :| 0 <= i < |rows| && rows[i].id == id;
          assert rows[1..][i - 1].id == id;
        }
      }
      assert HasId(rows[1..], id) ==> HasId(rows, id) by {
        if HasId(rows[1..], id) {
          var i :| 0 <= i < |rows[1..]| && rows[1..][i].id == id;
          assert rows[i + 1].id == id;
        }
      }
      r
  }

  /** In a table with unique ids, the row Find returns is the only row with
      that id. */
  lemma FindIsTheRow(rows: Table, id: string, k: nat)
    requires UniqueIds(rows) && k < |rows| && rows[k].id == id
    ensures Find(rows, id) == Some(rows[k])
  {
  }

  // ----- insert -----

  /** The table after a row is inserted. */
  function Inserted(rows: Table, c: Customer): Table
  {
    rows + [c]
  }

  /** Inserting a row with a fresh id and an unused email keeps the
      constraints, makes the row findable, and changes no other lookup. */
  lemma InsertedProperties(rows: Table, c: Customer)
    requires Consistent(rows) && !HasId(rows, c.id) && !EmailTaken(rows, c.email)
    ensures Consistent(Inserted(rows, c))
    ensures Find(Inserted(rows, c), c.id) == Some(c)
    ensures forall id :: id != c.id ==> Find(Inserted(rows, c), id) == Find(rows, id)
  {
    var r := Inserted(rows, c);
    assert r[|rows|] == c && forall i :: 0 <= i < |rows| ==> r[i] == rows[i];
    FindIsTheRow(r, c.id, |rows|);
  }

  // ----- partial update -----

  /** The fields a request supplies. For the two nullable columns, `None`
      means "not supplied" and `Some(None)` means "set to null". */
  datatype Patch = Patch(
    name: Option<string>,
    email: Option<string>,
    annualSpend: Option<Option<Cents>>,
    lastPurchaseDate: Option<Option<Instant>>)

  const NoChange: Patch := Patch(None, None, None, None)

  /** Overwrite the supplied fields of a row; the id is kept. */
  function Apply(c: Customer, p: Patch): (r: Customer)
    ensures r.id == c.id
  {
    Customer(
      c.id,
      if p.name.Some? then p.name.value else c.name,
      if p.email.Some? then p.email.value else c.email,
      if p.annualSpend.Some? then p.annualSpend.value else c.annualSpend,
      if p.lastPurchaseDate.Some? then p.lastPurchaseDate.value else c.lastPurchaseDate)
  }

  /** A patch changes exactly the fields it supplies: a supplied field takes
      the supplied value, a field it does not supply keeps its value,
      applying it twice is applying it once, and a patch with nothing in it
      changes nothing. */
  lemma ApplyProperties(c: Customer, p: Patch)
    ensures Apply(Apply(c, p), p) == Apply(c, p)
    ensures Apply(c, NoChange) == c
    ensures p.name.None? ==> Apply(c, p).name == c.name
    ensures p.email.None? ==> Apply(c, p).email == c.email
    ensures p.annualSpend.None? ==> Apply(c, p).annualSpend == c.annualSpend
    ensures p.lastPurchaseDate.None? ==> Apply(c, p).lastPurchaseDate == c.lastPurchaseDate
    ensures p.name.Some? ==> Apply(c, p).name == p.name.value
    ensures p.email.Some? ==> Apply(c, p).email == p.email.value
    ensures p.annualSpend.Some? ==> Apply(c, p).annualSpend == p.annualSpend.value
    ensures p.lastPurchaseDate.Some? ==> Apply(c, p).lastPurchaseDate == p.lastPurchaseDate.value
  {
  }

  /** The table after the row with this id has the patch applied. */
  function Patched(rows: Table, id: string, p: Patch): (r: Table)
    ensures |r| == |rows|
    ensures forall i :: 0 <= i < |rows| && rows[i].id != id ==> r[i] == rows[i]
    ensures forall i :: 0 <= i < |rows| && rows[i].id == id ==> r[i] == Apply(rows[i], p)
  {
    if rows == [] then []
    else [if rows[0].id == id then Apply(rows[0], p) else rows[0]] + Patched(rows[1..], id, p)
  }

  /** Patching a row whose new email is not another row's keeps the
      constraints. */
  lemma PatchedConsistent(rows: Table, id: string, p: Patch)
    requires Consistent(rows)
    requires p.email.Some? ==> !EmailTakenByOther(rows, id, p.email.value)
    ensures Consistent(Patched(rows, id, p))
  {
  }

  lemma PatchedUniqueIds(rows: Table, id: string, p: Patch)
    requires UniqueIds(rows)
    ensures UniqueIds(Patched(rows, id, p))
  {
  }

  /** After a patch the row is found with the new fields. */
  lemma PatchedFindTarget(rows: Table, id: string, p: Patch)
    requires UniqueIds(rows) && HasId(rows, id)
    ensures Find(Patched(rows, id, p), id) == Some(Apply(Find(rows, id).value, p))
  {
    PatchedUniqueIds(rows, id, p);
    var k :| 0 <= k < |rows| && rows[k].id == id;
    FindIsTheRow(rows, id, k);
    FindIsTheRow(Patched(rows, id, p), id, k);
  }

  /** A patch leaves every other lookup unchanged. */
  lemma PatchedFindOthers(rows: Table, id: string, p: Patch, other: string)
    requires UniqueIds(rows) && other != id
    ensures Find(Patched(rows, id, p), other) == Find(rows, other)
  {
    var r := Patched(rows, id, p);
    if HasId(rows, other) {
      PatchedUniqueIds(rows, id, p);
      var m :| 0 <= m < |rows| && rows[m].id == other;
      FindIsTheRow(rows, other, m);
      FindIsTheRow(r, other, m);
    } else {
      assert !HasId(r, other) by {
        forall m | 0 <= m < |r| ensures r[m].id != other {
          assert r[m].id == rows[m].id;
        }
      }
    }
  }

  // ----- delete -----

  /** The table after the row with this id is deleted. */
  function Removed(rows: Table, id: string): (r: Table)
    ensures forall c :: c in r <==> c in rows && c.id != id
    ensures |r| <= |rows|
  {
    if rows == [] then []
    else if rows[0].id == id then Removed(rows[1..], id)
    else [rows[0]] + Removed(rows[1..], id)
  }

  /** With unique ids, the first row's id appears nowhere in the rest, and
      the rest has unique ids. */
  lemma HeadIdNotInTail(rows: Table)
    requires UniqueIds(rows) && rows != []
    ensures UniqueIds(rows[1..])
    ensures forall c :: c in rows[1..] ==> c.id != rows[0].id
  {
    var tail := rows[1..];
    forall i, j | 0 <= i < j < |tail| ensures tail[i].id != tail[j].id {
      assert tail[i] == rows[i + 1] && tail[j] == rows[j + 1];
    }
  }

  lemma ConsUniqueIds(x: Customer, rest: Table)
    requires UniqueIds(rest) && forall c :: c in rest ==> c.id != x.id
    ensures UniqueIds([x] + rest)
  {
    var r := [x] + rest;
    forall i, j | 0 <= i < j < |r| ensures r[i].id != r[j].id {
      assert r[j] == rest[j - 1];
      if i > 0 { assert r[i] == rest[i - 1]; }
    }
  }

  /** Deleting keeps the ids unique. */
  lemma {:induction false} RemovedUniqueIds(rows: Table, id: string)
    requires UniqueIds(rows)
    ensures UniqueIds(Removed(rows, id))
  {
    if rows != [] {
      HeadIdNotInTail(rows);
      RemovedUniqueIds(rows[1..], id);
      if rows[0].id != id {
        ConsUniqueIds(rows[0], Removed(rows[1..], id));
      }
    }
  }

  lemma HeadEmailNotInTail(rows: Table)
    requires UniqueEmails(rows) && rows != []
    ensures UniqueEmails(rows[1..])
    ensures forall c :: c in rows[1..] ==> c.email != rows[0].email
  {
    var tail := rows[1..];
    forall i, j | 0 <= i < j < |tail| ensures tail[i].email != tail[j].email {
      assert tail[i] == rows[i + 1] && tail[j] == rows[j + 1];
    }
  }

  lemma ConsUniqueEmails(x: Customer, rest: Table)
    requires UniqueEmails(rest) && forall c :: c in rest ==> c.email != x.email
    ensures UniqueEmails([x] + rest)
  {
    var r := [x] + rest;
    forall i, j | 0 <= i < j < |r| ensures r[i].email != r[j].email {
      assert r[j] == rest[j - 1];
      if i > 0 { assert r[i] == rest[i - 1]; }
    }
  }

  /** Deleting keeps the emails unique. */
  lemma {:induction false} RemovedUniqueEmails(rows: Table, id: string)
    requires UniqueEmails(rows)
    ensures UniqueEmails(Removed(rows, id))
  {
    if rows != [] {
      HeadEmailNotInTail(rows);
      RemovedUniqueEmails(rows[1..], id);
      if rows[0].id != id {
        ConsUniqueEmails(rows[0], Removed(rows[1..], id));
      }
    }
  }

  /** Deleting keeps the constraints. */
  lemma RemovedConsistent(rows: Table, id: string)
    requires Consistent(rows)
    ensures Consistent(Removed(rows, id))
  {
    RemovedUniqueIds(rows, id);
    RemovedUniqueEmails(rows, id);
  }

  /** Deleting removes exactly one row when the id was present and nothing
      otherwise. */
  lemma {:induction false} RemovedCount(rows: Table, id: string)
    requires UniqueIds(rows)
    ensures HasId(rows, id) ==> |Removed(rows, id)| == |rows| - 1
    ensures !HasId(rows, id) ==> Removed(rows, id) == rows
  {
    if rows != [] {
      var tail := rows[1..];
      HeadIdNotInTail(rows);
      RemovedCount(tail, id);
      if rows[0].id == id {
        assert !HasId(tail, id) by {
          forall i | 0 <= i < |tail| ensures tail[i].id != id {
            assert tail[i] in tail;
          }
        }
      }
    }
  }

  /** After a delete the id is not found, and every other lookup is unchanged. */
  lemma RemovedFind(rows: Table, id: string)
    requires Consistent(rows)
    ensures Find(Removed(rows, id), id) == None
    ensures forall other :: other != id ==> Find(Removed(rows, id), other) == Find(rows, other)
  {
  }
}
