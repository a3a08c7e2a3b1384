/** The audit table (audit.service.ts): one row per tax form and user, with its events appended. */
module AuditLog {
  import opened Prelude

  datatype Event = Event(timestamp: int, action: string, status: string, ip: string)

  datatype Audit = Audit(taxFormId: string, auth0Id: string, accessEvents: seq<Event>)

  /** One call of addAudit. */
  datatype Call = Call(taxFormId: string, auth0Id: string, event: Event)

  predicate Matching(a: Audit, taxFormId: string, auth0Id: string) {
    a.taxFormId == taxFormId && a.auth0Id == auth0Id
  }

  /** First row of the form that belongs to the user; |rows| when there is none. */
  function FindAudit(rows: seq<Audit>, taxFormId: string, auth0Id: string): (i: nat)
    ensures i <= |rows|
    ensures i < |rows| ==> Matching(rows[i], taxFormId, auth0Id)
    ensures forall j :: 0 <= j < i ==> !Matching(rows[j], taxFormId, auth0Id)
  {
    FindIndex(rows, (a: Audit) => Matching(a, taxFormId, auth0Id))
  }

  function Added(rows: seq<Audit>, c: Call): seq<Audit> {
    var i := FindAudit(rows, c.taxFormId, c.auth0Id);
    if i < |rows| then rows[i := rows[i].(accessEvents := rows[i].accessEvents + [c.event])]
    else rows + [Audit(c.taxFormId, c.auth0Id, [c.event])]
  }

  function AllAdded(calls: seq<Call>): seq<Audit> {
    if calls == [] then [] else Added(AllAdded(calls[..|calls| - 1]), Last(calls))
  }

  /** The abstract value: the events recorded for a form and a user, in order. */
  function EventsOf(calls: seq<Call>, taxFormId: string, auth0Id: string): seq<Event> {
    if calls == [] then []
    else EventsOf(calls[..|calls| - 1], taxFormId, auth0Id) +
         if Last(calls).taxFormId == taxFormId && Last(calls).auth0Id == auth0Id then [Last(calls).event] else []
  }

  /** No two rows are for the same form and user. */
  ghost predicate OneRowPerPair(rows: seq<Audit>) {
    forall i, j :: 0 <= i < j < |rows| ==> !Matching(rows[j], rows[i].taxFormId, rows[i].auth0Id)
  }

  function EventsIn(rows: seq<Audit>, taxFormId: string, auth0Id: string): seq<Event> {
    var i := FindAudit(rows, taxFormId, auth0Id);
    if i < |rows| then rows[i].accessEvents else []
  }

  lemma {:induction false} AddedFinds(rows: seq<Audit>, c: Call, taxFormId: string, auth0Id: string)
    requires OneRowPerPair(rows)
    ensures OneRowPerPair(Added(rows, c))
    ensures EventsIn(Added(rows, c), taxFormId, auth0Id) ==
      EventsIn(rows, taxFormId, auth0Id) + if c.taxFormId == taxFormId && c.auth0Id == auth0Id then [c.event] else []
  {
    var more := Added(rows, c);
    var i, j, k := FindAudit(rows, c.taxFormId, c.auth0Id), FindAudit(rows, taxFormId, auth0Id),
                   FindAudit(more, taxFormId, auth0Id);
    assert forall l :: 0 <= l < |rows| ==>
      Matching(more[l], taxFormId, auth0Id) == Matching(rows[l], taxFormId, auth0Id);
    if i == |rows| {
      assert more[|rows|] == Audit(c.taxFormId, c.auth0Id, [c.event]);
      assert Matching(more[|rows|], taxFormId, auth0Id) <==> c.taxFormId == taxFormId && c.auth0Id == auth0Id;
    }
    if j < |rows| {
      assert Matching(more[j], taxFormId, auth0Id);
      assert k == j;
    } else if c.taxFormId == taxFormId && c.auth0Id == auth0Id {
      assert k == |rows|;
    } else {
      assert k == |more|;
    }
  }

  /** The table refines a map from form and user to the exact sequence of their events: one row per
      pair that has any, and no row without events. */
  lemma {:induction false} TableRefinesMap(calls: seq<Call>, taxFormId: string, auth0Id: string)
    ensures var rows := AllAdded(calls);
      && OneRowPerPair(rows)
      && EventsIn(rows, taxFormId, auth0Id) == EventsOf(calls, taxFormId, auth0Id)
      && (FindAudit(rows, taxFormId, auth0Id) < |rows| <==> EventsOf(calls, taxFormId, auth0Id) != [])
  {
    if calls != [] {
      var before, c := calls[..|calls| - 1], Last(calls);
      TableRefinesMap(before, taxFormId, auth0Id);
      AddedFinds(AllAdded(before), c, taxFormId, auth0Id);
      AddedHasRow(AllAdded(before), c, taxFormId, auth0Id);
    }
  }

  lemma {:induction false} AddedHasRow(rows: seq<Audit>, c: Call, taxFormId: string, auth0Id: string)
    ensures var more := Added(rows, c);
      FindAudit(more, taxFormId, auth0Id) < |more| <==>
        FindAudit(rows, taxFormId, auth0Id) < |rows| || (c.taxFormId == taxFormId && c.auth0Id == auth0Id)
  {
    var more := Added(rows, c);
    var i, j := FindAudit(rows, c.taxFormId, c.auth0Id), FindAudit(rows, taxFormId, auth0Id);
    assert forall l :: 0 <= l < |rows| ==>
      Matching(more[l], taxFormId, auth0Id) == Matching(rows[l], taxFormId, auth0Id);
    assert j < |rows| ==> Matching(more[j], taxFormId, auth0Id);
    assert i == |rows| ==> more[|rows|] == Audit(c.taxFormId, c.auth0Id, [c.event]);
  }

  class AuditService {
    var rows: seq<Audit>
    ghost var calls: seq<Call>

    ghost predicate Valid() reads this {
      rows == AllAdded(calls)
    }

    constructor ()
      ensures Valid() && calls == []
    {
      rows, calls := [], [];
    }

    method AddAudit(taxFormId: string, auth0Id: string, accessEvent: Event)
      requires Valid()
      modifies this
      ensures Valid() && calls == old(calls) + [Call(taxFormId, auth0Id, accessEvent)]
      ensures EventsIn(rows, taxFormId, auth0Id) == old(EventsIn(rows, taxFormId, auth0Id)) + [accessEvent]
    {
      ghost var before := rows;
      TableRefinesMap(calls, taxFormId, auth0Id);
      AddedFinds(rows, Call(taxFormId, auth0Id, accessEvent), taxFormId, auth0Id);
      var i := 0;
      while i < |rows| && !(rows[i].taxFormId == taxFormId && rows[i].auth0Id == auth0Id)
        invariant 0 <= i <= |rows|
        invariant forall j :: 0 <= j < i ==> !Matching(rows[j], taxFormId, auth0Id)
      {
        i := i + 1;
      }
      if i == |rows| {
        rows := rows + [Audit(taxFormId, auth0Id, [accessEvent])];
      } else {
        rows := rows[i := rows[i].(accessEvents := rows[i].accessEvents + [accessEvent])];
      }
      calls := calls + [Call(taxFormId, auth0Id, accessEvent)];
      assert calls[..|calls| - 1] == old(calls);
    }
  }
}
