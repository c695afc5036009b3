/** Authorization decisions over a loaded policy (governance/policy.py). */
module Policies {
  import opened Text
  import opened Wire

  datatype Rule = Rule(
    pattern: string,
    allowRoles: set<string>,
    classification: string,
    description: string,
    requiresApproval: bool,
    approvalPrompt: string)

  datatype Row = Row(key: string, rule: Rule)

  predicate UniqueKeys(rows: seq<Row>) {
    forall i, j :: 0 <= i < j < |rows| ==> rows[i].key != rows[j].key
  }

  /** A dict of rules in document order. */
  type Table = rows: seq<Row> | UniqueKeys(rows) witness []

  datatype Policy = Policy(tools: Table, resources: Table, declaredRoles: set<string>)

  datatype Decision = Decision(
    allowed: bool,
    reason: string,
    target: string,
    classification: Option<string>,
    requiredRoles: seq<string>,
    grantedRoles: seq<string>,
    requiresApproval: bool,
    approvalPrompt: string)

  /** `fnmatch.fnmatchcase(uri, pattern)`. */
  type Matcher = (string, string) -> bool

  const GRANTED := "granted by role"
  const NO_ROLE := "caller holds none of the roles this tool requires"
  const NO_TOOL := "no policy entry for this tool (default deny)"
  const NO_RESOURCE := "no policy entry for this resource (default deny)"

  // ---------- tables ----------

  function Find(t: seq<Row>, key: string): Option<Rule> {
    if t == [] then None
    else if t[0].key == key then Some(t[0].rule)
    else Find(t[1..], key)
  }

  function Keys(t: seq<Row>): seq<string> {
    seq(|t|, i requires 0 <= i < |t| => t[i].key)
  }

  lemma {:induction false} FindExactly(t: seq<Row>, key: string)
    requires UniqueKeys(t)
    ensures Find(t, key).Some? <==> exists i :: 0 <= i < |t| && t[i].key == key
    ensures forall i :: 0 <= i < |t| && t[i].key == key ==> Find(t, key) == Some(t[i].rule)
  {
    if t != [] {
      FindExactly(t[1..], key);
      assert forall i :: 1 <= i < |t| ==> t[i] == t[1..][i - 1];
    }
  }

  // ---------- decisions ----------

  function Roles(roles: seq<string>): set<string> {
    set r | r in roles
  }

  predicate Granted(rule: Rule, roles: seq<string>) {
    Roles(roles) * rule.allowRoles != {}
  }

  function Deny(reason: string, target: string, granted: seq<string>): Decision {
    Decision(false, reason, target, None, [], granted, false, "")
  }

  /** `_match`. */
  function Match(rule: Rule, target: string, granted: seq<string>): Decision {
    var allowed := Roles(granted) * rule.allowRoles != {};
    Decision(
      allowed,
      if allowed then GRANTED else NO_ROLE,
      target,
      Some(rule.classification),
      Sorted(rule.allowRoles),
      granted,
      rule.requiresApproval,
      rule.approvalPrompt)
  }

  function DecideTool(policy: Policy, tool: string, roles: seq<string>): Decision {
    var granted := Sorted(Roles(roles));
    match Find(policy.tools, tool)
    case None => Deny(NO_TOOL, tool, granted)
    case Some(rule) => Match(rule, tool, granted)
  }

  function DecideResource(policy: Policy, glob: Matcher, uri: string, roles: seq<string>): Decision {
    var granted := Sorted(Roles(roles));
    match SelectRule(policy.resources, glob, uri)
    case None => Deny(NO_RESOURCE, uri, granted)
    case Some(rule) => Match(rule, uri, granted)
  }

  function VisibleTools(policy: Policy, roles: seq<string>): set<string> {
    set row | row in policy.tools && Granted(row.rule, roles) :: row.key
  }

  // ---------- resource selection ----------

  /** `sorted(keys, key=len, reverse=True)`: longest first; ties keep their order. */
  function LongestFirst(keys: seq<string>): seq<string> {
    if keys == [] then [] else InsertByLength(keys[0], LongestFirst(keys[1..]))
  }

  function InsertByLength(key: string, keys: seq<string>): seq<string> {
    if keys == [] || |keys[0]| <= |key| then [key] + keys
    else [keys[0]] + InsertByLength(key, keys[1..])
  }

  /** The first key that matches. */
  function Scan(keys: seq<string>, glob: Matcher, uri: string): Option<string> {
    if keys == [] then None
    else if glob(uri, keys[0]) then Some(keys[0])
    else Scan(keys[1..], glob, uri)
  }

  /** The rule `_resource_rule` returns. */
  function SelectRule(t: Table, glob: Matcher, uri: string): Option<Rule> {
    match Scan(LongestFirst(Keys(t)), glob, uri)
    case None => None
    case Some(key) => Find(t, key)
  }

  /** `_resource_rule`: scan the patterns longest first and stop at the first match. */
  method ResourceRule(t: Table, glob: Matcher, uri: string) returns (result: Option<Rule>)
    ensures result == SelectRule(t, glob, uri)
  {
    var ordered := LongestFirst(Keys(t));
    for i := 0 to |ordered|
      invariant Scan(ordered, glob, uri) == Scan(ordered[i..], glob, uri)
    {
      if glob(uri, ordered[i]) {
        return Find(t, ordered[i]);
      }
      assert ordered[i..][1..] == ordered[i + 1..];
    }
    return None;
  }

  /** Row `i` is the earliest of the longest patterns that match. */
  predicate Selected(t: seq<Row>, glob: Matcher, uri: string, i: nat) {
    && i < |t|
    && glob(uri, t[i].key)
    && forall j :: 0 <= j < |t| && glob(uri, t[j].key) ==>
         |t[j].key| < |t[i].key| || (|t[j].key| == |t[i].key| && i <= j)
  }

  predicate LengthSorted(keys: seq<string>) {
    forall i, j :: 0 <= i < j < |keys| ==> |keys[i]| >= |keys[j]|
  }

  lemma {:induction false} InsertKeepsSorted(key: string, keys: seq<string>)
    requires LengthSorted(keys)
    ensures LengthSorted(InsertByLength(key, keys))
    ensures forall k :: k in InsertByLength(key, keys) <==> k == key || k in keys
  {
    if keys != [] && |keys[0]| > |key| {
      InsertKeepsSorted(key, keys[1..]);
      var r := InsertByLength(key, keys);
      assert keys == [keys[0]] + keys[1..];
      forall j | 0 < j < |r| ensures |r[0]| >= |r[j]| {
        assert r[j] in InsertByLength(key, keys[1..]);
      }
    }
  }

  lemma {:induction false} LongestFirstSorts(keys: seq<string>)
    ensures LengthSorted(LongestFirst(keys))
    ensures forall k :: k in LongestFirst(keys) <==> k in keys
  {
    if keys != [] {
      LongestFirstSorts(keys[1..]);
      InsertKeepsSorted(keys[0], LongestFirst(keys[1..]));
      assert keys == [keys[0]] + keys[1..];
    }
  }

  lemma {:induction false} ScanFindsMember(keys: seq<string>, glob: Matcher, uri: string)
    ensures Scan(keys, glob, uri).Some? <==> exists i :: 0 <= i < |keys| && glob(uri, keys[i])
    ensures Scan(keys, glob, uri).Some? ==> Scan(keys, glob, uri).value in keys && glob(uri, Scan(keys, glob, uri).value)
  {
    if keys != [] {
      ScanFindsMember(keys[1..], glob, uri);
      assert forall i :: 1 <= i < |keys| ==> keys[i] == keys[1..][i - 1];
    }
  }

  lemma {:induction false} ScanInsert(key: string, keys: seq<string>, glob: Matcher, uri: string)
    requires LengthSorted(keys)
    ensures Scan(InsertByLength(key, keys), glob, uri)
         == var rest := Scan(keys, glob, uri);
            if glob(uri, key) && (rest.None? || |rest.value| <= |key|) then Some(key) else rest
  {
    ScanFindsMember(keys, glob, uri);
    if keys == [] || |keys[0]| <= |key| {
      assert ([key] + keys)[1..] == keys;
    } else {
      ScanInsert(key, keys[1..], glob, uri);
      ScanFindsMember(keys[1..], glob, uri);
      var r := [keys[0]] + InsertByLength(key, keys[1..]);
      assert r[1..] == InsertByLength(key, keys[1..]);
    }
  }

  lemma {:induction false} ScanSelects(t: seq<Row>, glob: Matcher, uri: string)
    ensures var found := Scan(LongestFirst(Keys(t)), glob, uri);
      if found.None? then forall i :: 0 <= i < |t| ==> !glob(uri, t[i].key)
      else exists i: nat :: Selected(t, glob, uri, i) && t[i].key == found.value
  {
    if t != [] {
      var rest := t[1..];
      assert Keys(t)[1..] == Keys(rest);
      ScanSelects(rest, glob, uri);
      LongestFirstSorts(Keys(rest));
      ScanInsert(t[0].key, LongestFirst(Keys(rest)), glob, uri);
      var below := Scan(LongestFirst(Keys(rest)), glob, uri);
      assert forall i :: 1 <= i < |t| ==> t[i] == rest[i - 1];
      if below.Some? {
        var i: nat :| Selected(rest, glob, uri, i) && rest[i].key == below.value;
        if glob(uri, t[0].key) && |below.value| <= |t[0].key| {
          assert Selected(t, glob, uri, 0);
        } else {
          assert Selected(t, glob, uri, i + 1);
        }
      } else if glob(uri, t[0].key) {
        assert Selected(t, glob, uri, 0);
      }
    }
  }

  /** The sorted scan returns the first rule in the document among those whose pattern matches with
      the greatest length, and nothing exactly when no pattern matches. */
  lemma SelectsEarliestLongest(t: Table, glob: Matcher, uri: string)
    ensures SelectRule(t, glob, uri).None? <==> forall i :: 0 <= i < |t| ==> !glob(uri, t[i].key)
    ensures forall i: nat :: Selected(t, glob, uri, i) ==> SelectRule(t, glob, uri) == Some(t[i].rule)
    ensures SelectRule(t, glob, uri).Some? ==> exists i: nat :: Selected(t, glob, uri, i)
  {
    ScanSelects(t, glob, uri);
    var found := Scan(LongestFirst(Keys(t)), glob, uri);
    if found.Some? {
      FindExactly(t, found.value);
    }
  }

  /** Every row of one table is a row of the other. */
  ghost predicate SameRows(t: seq<Row>, u: seq<Row>) {
    forall row :: row in t <==> row in u
  }

  predicate NoTies(t: seq<Row>, glob: Matcher, uri: string) {
    forall i, j :: 0 <= i < j < |t| && glob(uri, t[i].key) && glob(uri, t[j].key) ==> |t[i].key| != |t[j].key|
  }

  /** Reordering the document never changes the selected rule unless two matching patterns have the
      same length. */
  lemma SelectionIgnoresOrder(t: Table, u: Table, glob: Matcher, uri: string)
    requires SameRows(t, u) && NoTies(t, glob, uri)
    ensures SelectRule(t, glob, uri) == SelectRule(u, glob, uri)
  {
    SelectsEarliestLongest(t, glob, uri);
    SelectsEarliestLongest(u, glob, uri);
    if SelectRule(t, glob, uri).Some? {
      var i: nat :| Selected(t, glob, uri, i);
      assert t[i] in u;
      var k :| 0 <= k < |u| && u[k] == t[i];
      var j: nat :| Selected(u, glob, uri, j);
      assert u[j] in t;
      var m :| 0 <= m < |t| && t[m] == u[j];
      assert i == m;
    } else {
      forall j | 0 <= j < |u| ensures !glob(uri, u[j].key) {
        assert u[j] in t;
      }
    }
  }

  // ---------- what decisions depend on ----------

  lemma GrantedListIsTheRoleSet(roles: seq<string>)
    ensures Roles(Sorted(Roles(roles))) == Roles(roles)
  {
  }

  /** A tool call is allowed exactly when the policy has an entry for the tool that names one of the
      caller's roles. */
  lemma ToolAllowedIff(policy: Policy, tool: string, roles: seq<string>)
    ensures DecideTool(policy, tool, roles).allowed
       <==> exists i :: 0 <= i < |policy.tools| && policy.tools[i].key == tool && Granted(policy.tools[i].rule, roles)
  {
    GrantedListIsTheRoleSet(roles);
    FindExactly(policy.tools, tool);
  }

  /** A resource read is allowed exactly when the selected rule names one of the caller's roles. */
  lemma ResourceAllowedIff(policy: Policy, glob: Matcher, uri: string, roles: seq<string>)
    ensures DecideResource(policy, glob, uri, roles).allowed
       <==> exists i: nat :: Selected(policy.resources, glob, uri, i) && Granted(policy.resources[i].rule, roles)
  {
    GrantedListIsTheRoleSet(roles);
    SelectsEarliestLongest(policy.resources, glob, uri);
  }

  /** The decision carries the rule: its approval requirement, prompt and classification, and its roles
      in the one ascending order. */
  ghost predicate Reports(decision: Decision, rule: Rule, target: string) {
    && decision.target == target
    && decision.classification == Some(rule.classification)
    && decision.requiresApproval == rule.requiresApproval
    && decision.approvalPrompt == rule.approvalPrompt
    && forall listed :: Ascending(listed) && (forall role :: role in listed <==> role in rule.allowRoles)
                        ==> decision.requiredRoles == listed
  }

  lemma MatchReports(rule: Rule, target: string, granted: seq<string>)
    ensures Reports(Match(rule, target, granted), rule, target)
  {
    forall listed | Ascending(listed) && (forall role :: role in listed <==> role in rule.allowRoles)
      ensures Sorted(rule.allowRoles) == listed
    {
      AscendingIsCanonical(listed, Sorted(rule.allowRoles));
    }
  }

  /** A decision on a tool reports that tool's own rule, and a decision on a resource the selected
      rule. */
  lemma DecisionReportsRule(policy: Policy, glob: Matcher, target: string, roles: seq<string>, i: nat)
    ensures i < |policy.tools| && policy.tools[i].key == target
            ==> Reports(DecideTool(policy, target, roles), policy.tools[i].rule, target)
    ensures Selected(policy.resources, glob, target, i)
            ==> Reports(DecideResource(policy, glob, target, roles), policy.resources[i].rule, target)
  {
    var granted := Sorted(Roles(roles));
    FindExactly(policy.tools, target);
    SelectsEarliestLongest(policy.resources, glob, target);
    if i < |policy.tools| {
      MatchReports(policy.tools[i].rule, target, granted);
    }
    if i < |policy.resources| {
      MatchReports(policy.resources[i].rule, target, granted);
    }
  }

  /** What a decision is without a rule: denied, naming nothing, and asking for nothing. */
  predicate DefaultDenied(decision: Decision, reason: string) {
    && !decision.allowed && decision.reason == reason
    && decision.classification == None && decision.requiredRoles == []
    && !decision.requiresApproval && decision.approvalPrompt == ""
  }

  /** The reason recorded with a decision tells its three cases apart: a role granted it, no role of the
      caller's did, or there is no rule. */
  lemma ReasonsTell(policy: Policy, glob: Matcher, target: string, roles: seq<string>)
    ensures var d := DecideTool(policy, target, roles);
      && (d.allowed <==> d.reason == "granted by role")
      && (if exists i :: 0 <= i < |policy.tools| && policy.tools[i].key == target then
            !d.allowed ==> d.reason == "caller holds none of the roles this tool requires"
          else DefaultDenied(d, "no policy entry for this tool (default deny)"))
    ensures var d := DecideResource(policy, glob, target, roles);
      && (d.allowed <==> d.reason == "granted by role")
      && (if exists i :: 0 <= i < |policy.resources| && glob(target, policy.resources[i].key) then
            !d.allowed ==> d.reason == "caller holds none of the roles this tool requires"
          else DefaultDenied(d, "no policy entry for this resource (default deny)"))
  {
    FindExactly(policy.tools, target);
    SelectsEarliestLongest(policy.resources, glob, target);
    assert |GRANTED| < |NO_TOOL| && |GRANTED| < |NO_ROLE| && |GRANTED| < |NO_RESOURCE|;
  }

  /** Two role lists with the same members get the identical decision, and the role lists recorded
      in it are the only ascending lists of those members. */
  lemma DecisionsDependOnRoleSet(policy: Policy, glob: Matcher, target: string, r: seq<string>, s: seq<string>,
                                 listed: seq<string>)
    requires forall role :: role in r <==> role in s
    ensures DecideTool(policy, target, r) == DecideTool(policy, target, s)
    ensures DecideResource(policy, glob, target, r) == DecideResource(policy, glob, target, s)
    ensures Ascending(listed) && (forall role :: role in listed <==> role in r) ==>
              && DecideTool(policy, target, s).grantedRoles == listed
              && DecideResource(policy, glob, target, s).grantedRoles == listed
  {
    assert Roles(r) == Roles(s);
    if Ascending(listed) && forall role :: role in listed <==> role in r {
      AscendingIsCanonical(listed, Sorted(Roles(s)));
    }
  }

  lemma ToolAccessIsUnion(policy: Policy, tool: string, r: seq<string>, s: seq<string>)
    ensures DecideTool(policy, tool, r + s).allowed
       <==> DecideTool(policy, tool, r).allowed || DecideTool(policy, tool, s).allowed
    ensures VisibleTools(policy, r + s) == VisibleTools(policy, r) + VisibleTools(policy, s)
  {
    ToolAllowedIff(policy, tool, r);
    ToolAllowedIff(policy, tool, s);
    ToolAllowedIff(policy, tool, r + s);
    forall i | 0 <= i < |policy.tools|
      ensures Granted(policy.tools[i].rule, r + s) <==> Granted(policy.tools[i].rule, r) || Granted(policy.tools[i].rule, s)
    {
      GrantedUnion(policy.tools[i].rule, r, s);
    }
  }

  lemma ResourceAccessIsUnion(policy: Policy, glob: Matcher, uri: string, r: seq<string>, s: seq<string>)
    ensures DecideResource(policy, glob, uri, r + s).allowed
       <==> DecideResource(policy, glob, uri, r).allowed || DecideResource(policy, glob, uri, s).allowed
  {
    GrantedListIsTheRoleSet(r);
    GrantedListIsTheRoleSet(s);
    GrantedListIsTheRoleSet(r + s);
    var rule := SelectRule(policy.resources, glob, uri);
    if rule.Some? {
      GrantedUnion(rule.value, r, s);
    }
  }

  /** Holding two sets of roles gives exactly the access each of them gives. */
  lemma AccessIsUnionOfRoles(policy: Policy, glob: Matcher, target: string, r: seq<string>, s: seq<string>)
    ensures DecideTool(policy, target, r + s).allowed
       <==> DecideTool(policy, target, r).allowed || DecideTool(policy, target, s).allowed
    ensures DecideResource(policy, glob, target, r + s).allowed
       <==> DecideResource(policy, glob, target, r).allowed || DecideResource(policy, glob, target, s).allowed
    ensures VisibleTools(policy, r + s) == VisibleTools(policy, r) + VisibleTools(policy, s)
  {
    ToolAccessIsUnion(policy, target, r, s);
    ResourceAccessIsUnion(policy, glob, target, r, s);
  }

  lemma GrantedUnion(rule: Rule, r: seq<string>, s: seq<string>)
    ensures Granted(rule, r + s) <==> Granted(rule, r) || Granted(rule, s)
  {
    assert Roles(r + s) == Roles(r) + Roles(s);
    assert Roles(r + s) * rule.allowRoles == Roles(r) * rule.allowRoles + Roles(s) * rule.allowRoles;
  }

  /** Every row of `narrow` restricts a row of `wide` filed under the same key. */
  ghost predicate Narrows(narrow: seq<Row>, wide: seq<Row>) {
    forall row :: row in narrow ==>
      exists other :: other in wide && other.key == row.key && row.rule.allowRoles <= other.rule.allowRoles
  }

  /** Deleting tool rules, or taking roles out of them, never lets a new tool call through. */
  lemma NarrowingToolsNeverWidens(narrow: Policy, wide: Policy, tool: string, roles: seq<string>)
    requires Narrows(narrow.tools, wide.tools)
    ensures DecideTool(narrow, tool, roles).allowed ==> DecideTool(wide, tool, roles).allowed
    ensures VisibleTools(narrow, roles) <= VisibleTools(wide, roles)
  {
    ToolAllowedIff(narrow, tool, roles);
    ToolAllowedIff(wide, tool, roles);
    forall row | row in narrow.tools && Granted(row.rule, roles)
      ensures exists other :: other in wide.tools && other.key == row.key && Granted(other.rule, roles)
    {
      var other :| other in wide.tools && other.key == row.key && row.rule.allowRoles <= other.rule.allowRoles;
      assert Granted(other.rule, roles) by {
        var role :| role in Roles(roles) * row.rule.allowRoles;
        assert role in Roles(roles) * other.rule.allowRoles;
      }
    }
  }

  /** The table without row `d`. */
  function DeleteRow(t: Table, d: nat): Table
    requires d < |t|
  {
    t[..d] + t[d + 1..]
  }

  /** Row `i` is the one selected once row `d` is gone. */
  predicate RunnerUp(t: seq<Row>, glob: Matcher, uri: string, d: nat, i: nat) {
    && i < |t| && i != d
    && glob(uri, t[i].key)
    && forall j :: 0 <= j < |t| && j != d && glob(uri, t[j].key) ==>
         |t[j].key| < |t[i].key| || (|t[j].key| == |t[i].key| && i <= j)
  }

  function Undeleted(d: nat, i: nat): nat {
    if i < d then i else i + 1
  }

  function Shifted(d: nat, i: nat): (k: nat)
    requires i != d
    ensures Undeleted(d, k) == i
  {
    if i < d then i else i - 1
  }

  lemma RemainingRows(t: Table, d: nat)
    requires d < |t|
    ensures |DeleteRow(t, d)| == |t| - 1
    ensures forall k: nat :: k < |t| - 1 ==> DeleteRow(t, d)[k] == t[Undeleted(d, k)]
    ensures forall i: nat :: i < |t| && i != d ==> DeleteRow(t, d)[Shifted(d, i)] == t[i]
  {
  }

  lemma SelectedAfterDeletion(t: Table, glob: Matcher, uri: string, d: nat, k: nat)
    requires d < |t| && Selected(DeleteRow(t, d), glob, uri, k)
    ensures RunnerUp(t, glob, uri, d, Undeleted(d, k))
  {
    RemainingRows(t, d);
    var u := DeleteRow(t, d);
    forall j: nat | j < |t| && j != d && glob(uri, t[j].key)
      ensures |t[j].key| < |u[k].key| || (|t[j].key| == |u[k].key| && Undeleted(d, k) <= j)
    {
      assert u[Shifted(d, j)] == t[j];
    }
  }

  lemma RunnerUpIsSelected(t: Table, glob: Matcher, uri: string, d: nat, k: nat)
    requires d < |t| && k < |t| - 1 && RunnerUp(t, glob, uri, d, Undeleted(d, k))
    ensures Selected(DeleteRow(t, d), glob, uri, k)
  {
    RemainingRows(t, d);
    var u := DeleteRow(t, d);
    forall j: nat | j < |u| && glob(uri, u[j].key)
      ensures |u[j].key| < |u[k].key| || (|u[j].key| == |u[k].key| && k <= j)
    {
      assert u[j] == t[Undeleted(d, j)];
    }
  }

  /** After deleting row `d`, the next pattern in line decides. */
  lemma AllowedAfterDeletion(policy: Policy, glob: Matcher, uri: string, roles: seq<string>, d: nat)
    requires d < |policy.resources|
    ensures DecideResource(policy.(resources := DeleteRow(policy.resources, d)), glob, uri, roles).allowed
       <==> exists i: nat :: RunnerUp(policy.resources, glob, uri, d, i) && Granted(policy.resources[i].rule, roles)
  {
    var t := policy.resources;
    var u := DeleteRow(t, d);
    ResourceAllowedIff(policy.(resources := u), glob, uri, roles);
    RemainingRows(t, d);
    if k: nat :| Selected(u, glob, uri, k) && Granted(u[k].rule, roles) {
      SelectedAfterDeletion(t, glob, uri, d, k);
    }
    if i: nat :| RunnerUp(t, glob, uri, d, i) && Granted(t[i].rule, roles) {
      RunnerUpIsSelected(t, glob, uri, d, Shifted(d, i));
    }
  }

  lemma WinnerOrRunnerUp(t: Table, glob: Matcher, uri: string, d: nat, i: nat)
    requires d < |t| && RunnerUp(t, glob, uri, d, i)
    ensures Selected(t, glob, uri, d) || Selected(t, glob, uri, i)
  {
  }

  /** Deleting a resource rule lets a new read through exactly when that rule was the selected one,
      refused the caller, and the next pattern in line grants one of the caller's roles. */
  lemma DeletingResourceRuleWidensIff(policy: Policy, glob: Matcher, uri: string, roles: seq<string>, d: nat)
    requires d < |policy.resources|
    ensures var t := policy.resources;
      var after := policy.(resources := DeleteRow(t, d));
      (DecideResource(after, glob, uri, roles).allowed && !DecideResource(policy, glob, uri, roles).allowed)
      <==>
      (&& Selected(t, glob, uri, d)
       && !Granted(t[d].rule, roles)
       && exists i: nat :: RunnerUp(t, glob, uri, d, i) && Granted(t[i].rule, roles))
  {
    var t := policy.resources;
    AllowedAfterDeletion(policy, glob, uri, roles, d);
    ResourceAllowedIff(policy, glob, uri, roles);
    if i: nat :| RunnerUp(t, glob, uri, d, i) && Granted(t[i].rule, roles) {
      WinnerOrRunnerUp(t, glob, uri, d, i);
    }
  }
}
