/**
 `DELETE /applications/:id` of src/routes/portal.ts: one transaction with a savepoint around the delete on each child
 table, on a PostgreSQL connection where any statement may fail.

 A failed statement leaves the transaction aborted until it is rolled back, to a savepoint or altogether. A delete
 on a table that does not exist fails with 42P01 (`undefined_table`); no other statement does.
 */
module ApplicationDelete {

  datatype Row = Row(application: string, content: string)

  /** The tables that exist, each with its rows. */
  type Tables = map<string, seq<Row>>

  const APPLICATIONS := "applications"

  const UNDEFINED_TABLE := "42P01"

  /** How a statement ends apart from its own errors. */
  datatype Outcome = Fine | Fails | Lost | LostAfterEffect

  type Plan = nat -> Outcome

  /** What the `catch` clauses see: nothing, or the error's code. */
  datatype Reply = Done | Failed(code: string)

  // ---- What a delete means ----

  function Others(rows: seq<Row>, id: string): seq<Row> {
    if rows == [] then []
    else (if rows[0].application == id then [] else [rows[0]]) + Others(rows[1..], id)
  }

  predicate Has(rows: seq<Row>, id: string) {
    exists i :: 0 <= i < |rows| && rows[i].application == id
  }

  /** The rows left are exactly those of other applications, in their order. */
  lemma {:induction false} OthersMeans(rows: seq<Row>, id: string)
    ensures forall r :: multiset(Others(rows, id))[r] == if r.application == id then 0 else multiset(rows)[r]
  {
    if rows != [] {
      OthersMeans(rows[1..], id);
      assert rows == [rows[0]] + rows[1..];
    }
  }

  function DeleteFrom(tables: Tables, table: string, id: string): (r: Tables)
    ensures r.Keys == tables.Keys
  {
    if table in tables then tables[table := Others(tables[table], id)] else tables
  }

  /** The database without the application's rows in `names`. */
  ghost predicate Deleted(before: Tables, after: Tables, names: seq<string>, id: string) {
    && after.Keys == before.Keys
    && forall t :: t in before ==> after[t] == if t in names then Others(before[t], id) else before[t]
  }

  lemma {:induction false} OthersTwice(rows: seq<Row>, id: string)
    ensures Others(Others(rows, id), id) == Others(rows, id)
  {
    if rows != [] {
      OthersTwice(rows[1..], id);
      if rows[0].application != id {
        var r := [rows[0]] + Others(rows[1..], id);
        assert Others(rows, id) == r && r[1..] == Others(rows[1..], id);
      } else {
        assert Others(rows, id) == Others(rows[1..], id);
      }
    }
  }

  lemma DeletedMore(before: Tables, after: Tables, names: seq<string>, table: string, id: string)
    requires Deleted(before, after, names, id)
    ensures Deleted(before, DeleteFrom(after, table, id), names + [table], id)
  {
    forall t | t in before && t in names + [table]
      ensures DeleteFrom(after, table, id)[t] == Others(before[t], id)
    {
      OthersTwice(before[t], id);
    }
  }

  // ---- The connection ----

  /** A connection in a transaction: what it sees, the savepoints set, and whether a statement has failed. */
  class Client {
    var committed: Tables
    var working: Tables
    var savepoints: seq<Tables>
    var aborted: bool
    var live: bool

    constructor (tables: Tables)
      ensures committed == tables && working == tables && savepoints == [] && !aborted && live
    {
      committed, working, savepoints, aborted, live := tables, tables, [], false, true;
    }

    /** A statement that ends in an error: the transaction is aborted, or the connection is gone. */
    method Fail(outcome: Outcome) returns (reply: Reply)
      requires !outcome.Fine?
      modifies this`aborted, this`live
      ensures aborted && live == (old(live) && outcome.Fails?) && reply == Failed("XX000")
    {
      aborted, live := true, live && outcome.Fails?;
      reply := Failed("XX000");
    }

    method Begin(outcome: Outcome) returns (reply: Reply)
      modifies this
      ensures committed == old(committed)
      ensures reply.Done? <==> outcome.Fine?
      ensures reply.Done? ==> working == committed && savepoints == [] && !aborted && live
      ensures reply.Failed? ==> reply.code != UNDEFINED_TABLE
    {
      if outcome.Fine? {
        working, savepoints, aborted, live := committed, [], false, true;
        reply := Done;
      } else {
        reply := Fail(outcome);
      }
    }

    method Savepoint(outcome: Outcome) returns (reply: Reply)
      requires live && !aborted
      modifies this
      ensures committed == old(committed) && working == old(working)
      ensures reply.Done? <==> outcome.Fine?
      ensures reply.Done? ==> savepoints == old(savepoints) + [working] && !aborted && live
      ensures reply.Failed? ==> reply.code != UNDEFINED_TABLE
    {
      if outcome.Fine? {
        savepoints := savepoints + [working];
        reply := Done;
      } else {
        reply := Fail(outcome);
      }
    }

    method Delete(table: string, id: string, outcome: Outcome) returns (reply: Reply, rowCount: nat)
      requires live && !aborted
      modifies this
      ensures committed == old(committed) && savepoints == old(savepoints)
      ensures reply.Done? <==> outcome.Fine? && table in old(working)
      ensures reply.Done? ==> working == DeleteFrom(old(working), table, id) && !aborted && live
      ensures reply.Done? ==> rowCount == |old(working)[table]| - |Others(old(working)[table], id)|
      ensures reply.Failed? ==> aborted && working == old(working)
      ensures reply.Failed? && reply.code == UNDEFINED_TABLE <==> outcome.Fine? && table !in old(working)
      ensures reply.Failed? && reply.code == UNDEFINED_TABLE ==> live
    {
      rowCount := 0;
      if !outcome.Fine? {
        reply := Fail(outcome);
      } else if table !in working {
        aborted := true;
        reply := Failed(UNDEFINED_TABLE);
      } else {
        OthersShorter(working[table], id);
        rowCount := |working[table]| - |Others(working[table], id)|;
        working := DeleteFrom(working, table, id);
        reply := Done;
      }
    }

    method Release(outcome: Outcome) returns (reply: Reply)
      requires live && !aborted && savepoints != []
      modifies this
      ensures committed == old(committed) && working == old(working)
      ensures reply.Done? <==> outcome.Fine?
      ensures reply.Done? ==> savepoints == old(savepoints)[..|old(savepoints)| - 1] && !aborted && live
      ensures reply.Failed? ==> reply.code != UNDEFINED_TABLE
    {
      if outcome.Fine? {
        savepoints := savepoints[..|savepoints| - 1];
        reply := Done;
      } else {
        reply := Fail(outcome);
      }
    }

    method RollbackTo(outcome: Outcome) returns (reply: Reply)
      requires live && savepoints != []
      modifies this
      ensures committed == old(committed) && savepoints == old(savepoints)
      ensures reply.Done? <==> outcome.Fine?
      ensures reply.Done? ==> working == savepoints[|savepoints| - 1] && !aborted && live
    {
      if outcome.Fine? {
        working, aborted := savepoints[|savepoints| - 1], false;
        reply := Done;
      } else {
        reply := Fail(outcome);
      }
    }

    method Commit(outcome: Outcome) returns (reply: Reply)
      requires live && !aborted
      modifies this
      ensures reply.Done? <==> outcome.Fine?
      ensures committed == if outcome.Fine? || outcome.LostAfterEffect? then old(working) else old(committed)
    {
      if outcome.Fine? || outcome.LostAfterEffect? {
        committed := working;
      }
      if outcome.Fine? {
        reply := Done;
      } else {
        reply := Fail(outcome);
      }
    }

    /** `ROLLBACK`, errors swallowed: an open transaction leaves no trace. */
    method Rollback()
      modifies this
      ensures committed == old(committed)
    {
      working, savepoints, aborted := committed, [], false;
    }
  }

  lemma {:induction false} OthersShorter(rows: seq<Row>, id: string)
    ensures |Others(rows, id)| <= |rows|
    ensures |Others(rows, id)| < |rows| <==> Has(rows, id)
  {
    if rows != [] {
      OthersShorter(rows[1..], id);
      assert rows[0].application == id ==> Has(rows, id);
      if i :| 0 <= i < |rows| - 1 && rows[1..][i].application == id {
        assert rows[i + 1].application == id;
      }
      if i :| 0 <= i < |rows| && rows[i].application == id {
        assert i > 0 ==> rows[1..][i - 1].application == id;
      }
    }
  }

  // ---- The handler ----

  /** The body of the loop: one child table under its savepoint. */
  method DeleteChild(client: Client, table: string, id: string, plan: Plan, first: nat)
    returns (ok: bool, next: nat)
    requires client.live && !client.aborted
    modifies client
    ensures client.committed == old(client.committed)
    ensures ok ==> client.live && !client.aborted
    ensures ok ==> client.savepoints == old(client.savepoints)
    ensures ok ==> client.working == DeleteFrom(old(client.working), table, id)
    ensures (forall n :: plan(n).Fine?) ==> ok
  {
    next := first;
    var reply := client.Savepoint(plan(next));
    next := next + 1;
    if reply.Done? {
      var count;
      reply, count := client.Delete(table, id, plan(next));
      next := next + 1;
      if reply.Done? {
        reply := client.Release(plan(next));
        next := next + 1;
      }
    }
    if reply.Failed? && reply.code == UNDEFINED_TABLE {
      reply := client.RollbackTo(plan(next));
      next := next + 1;
      if reply.Done? {
        reply := client.Release(plan(next));
        next := next + 1;
      }
    }
    ok := reply.Done?;
  }

  datatype Response = Deleted200 | NotFound404 | Thrown

  /**
   Whatever statement fails, and whichever tables are missing, the database ends up either unchanged or without
   exactly this application's rows in every existing child table and in `applications`. A normal response means the
   latter, and a 404 that there was no such application; a run without faults on a database with an `applications`
   table responds normally.
   */
  method DeleteApplication(client: Client, childTables: seq<string>, id: string, plan: Plan)
    returns (response: Response)
    modifies client
    ensures client.committed == old(client.committed)
            || Deleted(old(client.committed), client.committed, childTables + [APPLICATIONS], id)
    ensures !response.Thrown? ==>
              && Deleted(old(client.committed), client.committed, childTables + [APPLICATIONS], id)
              && APPLICATIONS in old(client.committed)
              && (APPLICATIONS !in childTables ==>
                    (response.Deleted200? <==> Has(old(client.committed)[APPLICATIONS], id)))
    ensures (forall n :: plan(n).Fine?) && APPLICATIONS in old(client.committed) ==> !response.Thrown?
  {
    var rowCount := 0;
    var step := 0;
    var reply := client.Begin(plan(step));
    step := step + 1;
    var ok := reply.Done?;
    if ok {
      var i := 0;
      while ok && i < |childTables|
        invariant 0 <= i <= |childTables|
        invariant client.committed == old(client.committed)
        invariant (forall n :: plan(n).Fine?) ==> ok
        invariant ok ==> client.live && !client.aborted && client.savepoints == []
        invariant ok ==> Deleted(old(client.committed), client.working, childTables[..i], id)
      {
        DeletedMore(old(client.committed), client.working, childTables[..i], childTables[i], id);
        ok, step := DeleteChild(client, childTables[i], id, plan, step);
        assert childTables[..i + 1] == childTables[..i] + [childTables[i]];
        i := i + 1;
      }
      if ok {
        assert childTables[..i] == childTables;
        DeletedMore(old(client.committed), client.working, childTables, APPLICATIONS, id);
        ghost var seen := client.working;
        reply, rowCount := client.Delete(APPLICATIONS, id, plan(step));
        if reply.Done? {
          OthersShorter(seen[APPLICATIONS], id);
        }
        step := step + 1;
        ok := reply.Done?;
      }
      if ok {
        reply := client.Commit(plan(step));
        ok := reply.Done?;
      }
    }
    if !ok {
      client.Rollback();
      return Thrown;
    }
    response := if rowCount == 0 then NotFound404 else Deleted200;
  }
}
