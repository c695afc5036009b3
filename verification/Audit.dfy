/** The authorization audit trail (governance/audit.py). */
module Audit {
  import opened Text
  import opened Wire
  import opened Policies

  /** The log level a record is emitted at; a production logger may be set to `Warning`. */
  datatype Level = Info | Warning

  datatype AuditRecord = AuditRecord(
    principal: string,
    operation: string,
    target: string,
    outcome: string,
    reason: string,
    classification: Option<string>,
    requiredRoles: seq<string>,
    grantedRoles: seq<string>,
    protocolVersion: Option<string>,
    argumentNames: Option<seq<string>>,
    level: Level)

  const ALLOW := "allow"
  const DENY := "deny"
  const PENDING := "pending"

  /** The outcome of a record: the override when one is given, otherwise the decision's. */
  function OutcomeOf(decision: Decision, override: Option<string>): string {
    if override.Some? && override.value != "" then override.value
    else if decision.allowed then ALLOW
    else DENY
  }

  /** The record one call of `record` emits. Argument names are kept, argument values never. */
  function Event(principal: string, operation: string, decision: Decision, arguments: Option<seq<Entry>>,
                 protocolVersion: Option<string>, override: Option<string>): AuditRecord
  {
    var outcome := OutcomeOf(decision, override);
    AuditRecord(
      principal,
      operation,
      decision.target,
      outcome,
      decision.reason,
      decision.classification,
      decision.requiredRoles,
      decision.grantedRoles,
      protocolVersion,
      if arguments.Some? then Some(Sorted(KeyNames(arguments.value))) else None,
      if outcome == DENY then Warning else Info)
  }

  /** The stream the audit logger writes to. */
  class AuditLog {
    var records: seq<AuditRecord>

    constructor ()
      ensures records == []
    {
      records := [];
    }

    /** `record`. */
    method Record(principal: string, operation: string, decision: Decision, arguments: Option<seq<Entry>>,
                  protocolVersion: Option<string>, override: Option<string>)
      modifies this
      ensures records == old(records) + [Event(principal, operation, decision, arguments, protocolVersion, override)]
    {
      var outcome := OutcomeOf(decision, override);
      var event := AuditRecord(principal, operation, decision.target, outcome, decision.reason,
                               decision.classification, decision.requiredRoles, decision.grantedRoles,
                               protocolVersion, None, Info);
      if arguments.Some? {
        event := event.(argumentNames := Some(Sorted(KeyNames(arguments.value))));
      }
      if event.outcome == DENY {
        event := event.(level := Warning);
      }
      records := records + [event];
    }
  }

  // ---------- counting and filtering ----------

  function Count(records: seq<AuditRecord>, operation: string, outcome: string): nat {
    if records == [] then 0
    else
      (if records[0].operation == operation && records[0].outcome == outcome then 1 else 0)
      + Count(records[1..], operation, outcome)
  }

  function CountFor(records: seq<AuditRecord>, operation: string, outcome: string, target: string): nat {
    if records == [] then 0
    else
      (if records[0].operation == operation && records[0].outcome == outcome && records[0].target == target then 1 else 0)
      + CountFor(records[1..], operation, outcome, target)
  }

  /** The deny records, in order. */
  function Denials(records: seq<AuditRecord>): seq<AuditRecord> {
    if records == [] then []
    else if records[0].outcome == DENY then [records[0]] + Denials(records[1..])
    else Denials(records[1..])
  }

  /** What a logger set to WARNING lets through. */
  function AtWarning(records: seq<AuditRecord>): seq<AuditRecord> {
    if records == [] then []
    else if records[0].level == Warning then [records[0]] + AtWarning(records[1..])
    else AtWarning(records[1..])
  }

  /** The records of one operation, in order. */
  function Of(records: seq<AuditRecord>, operation: string): seq<AuditRecord> {
    if records == [] then []
    else if records[0].operation == operation then [records[0]] + Of(records[1..], operation)
    else Of(records[1..], operation)
  }

  lemma {:induction false} CountAppend(a: seq<AuditRecord>, b: seq<AuditRecord>, operation: string, outcome: string)
    ensures Count(a + b, operation, outcome) == Count(a, operation, outcome) + Count(b, operation, outcome)
  {
    if a == [] {
      assert a + b == b;
    } else {
      assert (a + b)[1..] == a[1..] + b;
      CountAppend(a[1..], b, operation, outcome);
    }
  }

  lemma {:induction false} CountForAppend(a: seq<AuditRecord>, b: seq<AuditRecord>, operation: string, outcome: string,
                                          target: string)
    ensures CountFor(a + b, operation, outcome, target)
         == CountFor(a, operation, outcome, target) + CountFor(b, operation, outcome, target)
  {
    if a == [] {
      assert a + b == b;
    } else {
      assert (a + b)[1..] == a[1..] + b;
      CountForAppend(a[1..], b, operation, outcome, target);
    }
  }

  lemma {:induction false} DenialsAppend(a: seq<AuditRecord>, b: seq<AuditRecord>)
    ensures Denials(a + b) == Denials(a) + Denials(b)
    ensures AtWarning(a + b) == AtWarning(a) + AtWarning(b)
  {
    if a == [] {
      assert a + b == b;
    } else {
      assert (a + b)[1..] == a[1..] + b;
      DenialsAppend(a[1..], b);
    }
  }

  lemma {:induction false} OfAppend(a: seq<AuditRecord>, b: seq<AuditRecord>, operation: string)
    ensures Of(a + b, operation) == Of(a, operation) + Of(b, operation)
  {
    if a == [] {
      assert a + b == b;
    } else {
      assert (a + b)[1..] == a[1..] + b;
      OfAppend(a[1..], b, operation);
    }
  }

  // One request leaves at most two records; these spell the counts and filters out for that case.

  predicate Hit(records: seq<AuditRecord>, i: nat, operation: string, outcome: string) {
    i < |records| && records[i].operation == operation && records[i].outcome == outcome
  }

  lemma CountFew(records: seq<AuditRecord>, operation: string, outcome: string)
    requires |records| <= 2
    ensures Count(records, operation, outcome)
         == (if Hit(records, 0, operation, outcome) then 1 else 0) + (if Hit(records, 1, operation, outcome) then 1 else 0)
  {
    if |records| == 2 {
      assert records[1..] == [records[1]];
      assert [records[1]][1..] == [];
    }
  }

  lemma CountForFew(records: seq<AuditRecord>, operation: string, outcome: string, target: string)
    requires |records| <= 2
    ensures CountFor(records, operation, outcome, target)
         == (if Hit(records, 0, operation, outcome) && records[0].target == target then 1 else 0)
          + (if Hit(records, 1, operation, outcome) && records[1].target == target then 1 else 0)
  {
    if |records| == 2 {
      assert records[1..] == [records[1]];
      assert [records[1]][1..] == [];
    }
  }

  lemma FilterFew(records: seq<AuditRecord>, operation: string)
    requires |records| <= 2
    ensures |records| == 0 ==> Denials(records) == AtWarning(records) == Of(records, operation) == []
    ensures |records| == 1 ==>
              && Denials(records) == (if records[0].outcome == DENY then records else [])
              && AtWarning(records) == (if records[0].level == Warning then records else [])
              && Of(records, operation) == (if records[0].operation == operation then records else [])
    ensures |records| == 2 ==>
              && Denials(records) == Denials([records[0]]) + Denials([records[1]])
              && AtWarning(records) == AtWarning([records[0]]) + AtWarning([records[1]])
              && Of(records, operation) == Of([records[0]], operation) + Of([records[1]], operation)
  {
    if |records| == 1 {
      assert records == [records[0]];
    }
    if |records| == 2 {
      assert records == [records[0]] + [records[1]];
      DenialsAppend([records[0]], [records[1]]);
      OfAppend([records[0]], [records[1]], operation);
    }
  }
}
