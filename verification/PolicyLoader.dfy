/** Loading a policy document (`Policy.from_mapping`, `_parse_roles`, `_parse_rules`). */
module PolicyLoader {
  import opened Text
  import opened Wire
  import opened Policies

  const CLASSIFICATIONS: seq<string> := ["public", "internal", "confidential", "restricted"]

  datatype Section = ToolsSection | ResourcesSection

  datatype PolicyError =
    | NotAMapping
    | UnsupportedVersion(found: Value)
    | DefaultNotDeny
    | RolesNotMapping
    | SectionNotMapping(section: Section)
    | RuleNotMapping(section: Section, pattern: string)
    | UnknownClassification(section: Section, pattern: string, classification: string)
    | AllowRolesNotList(section: Section, pattern: string)
    | UndeclaredRoles(section: Section, pattern: string, roles: seq<string>)

  type Loaded<T> = Result<T, PolicyError>

  // ---------- what a valid document is ----------

  function Classification(body: seq<Entry>): string {
    Render(GetOr(body, "classification", Str("internal")))
  }

  /** `body.get("allow_roles") or []`. */
  function AllowRoles(body: seq<Entry>): Value {
    Or(Get(body, "allow_roles"), List([]))
  }

  function RenderAll(items: seq<Value>): set<string> {
    set v | v in items :: Render(v)
  }

  /** The rule a well-formed entry stands for. */
  function RuleFor(pattern: string, body: seq<Entry>): Rule
    requires AllowRoles(body).List?
  {
    Rule(
      pattern,
      RenderAll(AllowRoles(body).items),
      Classification(body),
      Render(GetOr(body, "description", Str(""))),
      Truthy(GetOr(body, "requires_approval", Bool(false))),
      Render(GetOr(body, "approval_prompt", Str(""))))
  }

  predicate ValidRule(entry: Entry, declared: set<string>) {
    && entry.value.Mapping?
    && Classification(entry.value.entries) in CLASSIFICATIONS
    && var roles := AllowRoles(entry.value.entries);
       && roles.List?
       && RenderAll(roles.items) <= declared
  }

  predicate ValidSection(raw: Value, declared: set<string>) {
    raw.Null? || (raw.Mapping? && forall i :: 0 <= i < |raw.entries| ==> ValidRule(raw.entries[i], declared))
  }

  function DeclaredRoles(raw: Value): set<string> {
    if raw.Mapping? then KeyNames(raw.entries) else {}
  }

  /** `1` and `True` both compare equal to 1. */
  predicate IsVersionOne(v: Value) {
    v == Int(1) || v == Bool(true)
  }

  predicate ValidHeader(doc: Value) {
    && doc.Mapping?
    && IsVersionOne(Get(doc.entries, "version"))
    && GetOr(doc.entries, "default", Str("deny")) == Str("deny")
  }

  predicate ValidDocument(doc: Value) {
    && ValidHeader(doc)
    && var roles := Get(doc.entries, "roles");
       && (roles.Null? || roles.Mapping?)
       && ValidSection(Get(doc.entries, "tools"), DeclaredRoles(roles))
       && ValidSection(Get(doc.entries, "resources"), DeclaredRoles(roles))
  }

  // ---------- parsing ----------

  /** `rules[pattern] = rule`: an existing key keeps its place and gets the new rule. */
  function Assign(t: seq<Row>, key: string, rule: Rule): seq<Row> {
    if t == [] then [Row(key, rule)]
    else if t[0].key == key then [Row(key, rule)] + t[1..]
    else [t[0]] + Assign(t[1..], key, rule)
  }

  /** The error one entry of a section raises, checked in the order of the source. */
  function RuleError(section: Section, entry: Entry, declared: set<string>): Option<PolicyError> {
    var pattern := Render(entry.key);
    if !entry.value.Mapping? then Some(RuleNotMapping(section, pattern))
    else
      var body := entry.value.entries;
      if Classification(body) !in CLASSIFICATIONS then
        Some(UnknownClassification(section, pattern, Classification(body)))
      else if !AllowRoles(body).List? then Some(AllowRolesNotList(section, pattern))
      else
        var unknown := RenderAll(AllowRoles(body).items) - declared;
        if unknown != {} then Some(UndeclaredRoles(section, pattern, Sorted(unknown))) else None
  }

  /** The table a list of valid entries leaves behind. */
  function RulesOf(entries: seq<Entry>, declared: set<string>): (t: seq<Row>)
    requires forall i :: 0 <= i < |entries| ==> ValidRule(entries[i], declared)
  {
    if entries == [] then []
    else
      var last := entries[|entries| - 1];
      var pattern := Render(last.key);
      assert ValidRule(last, declared);
      Assign(RulesOf(entries[..|entries| - 1], declared), pattern, RuleFor(pattern, last.value.entries))
  }

  lemma RuleErrorIff(section: Section, entry: Entry, declared: set<string>)
    ensures RuleError(section, entry, declared).None? <==> ValidRule(entry, declared)
  {
    if entry.value.Mapping? && AllowRoles(entry.value.entries).List? {
      var named := RenderAll(AllowRoles(entry.value.entries).items);
      assert forall role :: role in named && role !in declared ==> role in named - declared;
    }
  }

  /** Entry `i` is the first invalid one and `error` is what it raises. */
  predicate FirstRuleError(section: Section, entries: seq<Entry>, declared: set<string>, i: nat, error: PolicyError) {
    && i < |entries|
    && RuleError(section, entries[i], declared) == Some(error)
    && forall j :: 0 <= j < i ==> ValidRule(entries[j], declared)
  }

  /** One pass of the loop body of `_parse_rules`. */
  method ParseRule(section: Section, entry: Entry, declared: set<string>) returns (result: Loaded<Rule>)
    ensures result.Success? <==> ValidRule(entry, declared)
    ensures result.Success? ==> result.value == RuleFor(Render(entry.key), entry.value.entries)
    ensures result.Failure? ==> RuleError(section, entry, declared) == Some(result.error)
  {
    RuleErrorIff(section, entry, declared);
    var pattern := Render(entry.key);
    if !entry.value.Mapping? {
      return Failure(RuleNotMapping(section, pattern));
    }
    var body := entry.value.entries;
    var classification := Render(GetOr(body, "classification", Str("internal")));
    if classification !in CLASSIFICATIONS {
      return Failure(UnknownClassification(section, pattern, classification));
    }
    var allowRoles := Or(Get(body, "allow_roles"), List([]));
    if !allowRoles.List? {
      return Failure(AllowRolesNotList(section, pattern));
    }
    var unknown := RenderAll(allowRoles.items) - declared;
    if unknown != {} {
      return Failure(UndeclaredRoles(section, pattern, Sorted(unknown)));
    }
    return Success(Rule(
                     pattern,
                     RenderAll(allowRoles.items),
                     classification,
                     Render(GetOr(body, "description", Str(""))),
                     Truthy(GetOr(body, "requires_approval", Bool(false))),
                     Render(GetOr(body, "approval_prompt", Str("")))));
  }

  /** `error` is what an invalid section raises: its shape first, then its first invalid entry. */
  ghost predicate SectionFailure(section: Section, raw: Value, declared: set<string>, error: PolicyError) {
    if !raw.Mapping? then error == SectionNotMapping(section)
    else exists i: nat :: FirstRuleError(section, raw.entries, declared, i, error)
  }

  lemma RulesNext(entries: seq<Entry>, declared: set<string>, i: nat)
    requires i < |entries| && forall j :: 0 <= j <= i ==> ValidRule(entries[j], declared)
    ensures var pattern := Render(entries[i].key);
      RulesOf(entries[..i + 1], declared)
      == Assign(RulesOf(entries[..i], declared), pattern, RuleFor(pattern, entries[i].value.entries))
  {
    assert entries[..i + 1][..i] == entries[..i];
  }

  /** `_parse_rules`. */
  method ParseRules(section: Section, raw: Value, declared: set<string>) returns (result: Loaded<Table>)
    ensures result.Success? <==> ValidSection(raw, declared)
    ensures result.Success? ==> result.value == TableOf(raw, declared)
    ensures result.Failure? ==> SectionFailure(section, raw, declared, result.error)
  {
    if raw.Null? {
      return Success([]);
    }
    if !raw.Mapping? {
      return Failure(SectionNotMapping(section));
    }
    var entries := raw.entries;
    var rules: Table := [];
    for i := 0 to |entries|
      invariant forall j :: 0 <= j < i ==> ValidRule(entries[j], declared)
      invariant rules == RulesOf(entries[..i], declared)
    {
      var parsed := ParseRule(section, entries[i], declared);
      if parsed.Failure? {
        assert FirstRuleError(section, entries, declared, i, parsed.error);
        return Failure(parsed.error);
      }
      var pattern := Render(entries[i].key);
      AssignKeepsUnique(rules, pattern, parsed.value);
      RulesNext(entries, declared, i);
      rules := Assign(rules, pattern, parsed.value);
    }
    assert entries[..|entries|] == entries;
    return Success(rules);
  }

  /** `_parse_roles`. */
  function ParseRoles(raw: Value): Loaded<set<string>> {
    match raw
    case Null => Success({})
    case Mapping(entries) => Success(KeyNames(entries))
    case _ => Failure(RolesNotMapping)
  }

  /** `error` is what an invalid document raises: its first failing check. */
  ghost predicate DocumentFailure(raw: Value, error: PolicyError) {
    if !raw.Mapping? then error == NotAMapping
    else if Lookup(raw.entries, "version") !in {Some(Int(1)), Some(Bool(true))} then
      error == UnsupportedVersion(Get(raw.entries, "version"))
    else if Lookup(raw.entries, "default") !in {None, Some(Str("deny"))} then error == DefaultNotDeny
    else
      var roles, declared := Get(raw.entries, "roles"), DeclaredRoles(Get(raw.entries, "roles"));
      var tools, resources := Get(raw.entries, "tools"), Get(raw.entries, "resources");
      if !roles.Null? && !roles.Mapping? then error == RolesNotMapping
      else if ValidSection(tools, declared) then SectionFailure(ResourcesSection, resources, declared, error)
      else SectionFailure(ToolsSection, tools, declared, error)
  }

  /** `Policy.from_mapping`: accepts exactly the valid documents, and the first check that fails
      decides the error. */
  method FromMapping(raw: Value) returns (result: Loaded<Policy>)
    ensures result.Success? <==> ValidDocument(raw)
    ensures result.Success? ==>
              var declared := DeclaredRoles(Get(raw.entries, "roles"));
              && result.value.declaredRoles == declared
              && result.value.tools == TableOf(Get(raw.entries, "tools"), declared)
              && result.value.resources == TableOf(Get(raw.entries, "resources"), declared)
    ensures result.Failure? ==> DocumentFailure(raw, result.error)
  {
    if !raw.Mapping? {
      return Failure(NotAMapping);
    }
    if !IsVersionOne(Get(raw.entries, "version")) {
      return Failure(UnsupportedVersion(Get(raw.entries, "version")));
    }
    if GetOr(raw.entries, "default", Str("deny")) != Str("deny") {
      return Failure(DefaultNotDeny);
    }
    var roles := ParseRoles(Get(raw.entries, "roles"));
    if roles.Failure? {
      return Failure(roles.error);
    }
    var tools := ParseRules(ToolsSection, Get(raw.entries, "tools"), roles.value);
    if tools.Failure? {
      return Failure(tools.error);
    }
    var resources := ParseRules(ResourcesSection, Get(raw.entries, "resources"), roles.value);
    if resources.Failure? {
      return Failure(resources.error);
    }
    return Success(Policy(tools.value, resources.value, roles.value));
  }

  function TableOf(raw: Value, declared: set<string>): seq<Row>
    requires ValidSection(raw, declared)
  {
    if raw.Null? then [] else RulesOf(raw.entries, declared)
  }

  // ---------- what an accepted document holds ----------

  lemma {:induction false} AssignKeepsUnique(t: seq<Row>, key: string, rule: Rule)
    requires UniqueKeys(t)
    ensures UniqueKeys(Assign(t, key, rule))
    ensures forall row :: row in Assign(t, key, rule) ==> row == Row(key, rule) || (row in t && row.key != key)
  {
    if t != [] {
      var rest := t[1..];
      assert forall i :: 0 <= i < |rest| ==> rest[i] == t[i + 1];
      AssignKeepsUnique(rest, key, rule);
      if t[0].key != key {
        var r := Assign(rest, key, rule);
        forall i | 0 <= i < |r| ensures r[i].key != t[0].key {
          assert r[i] in r;
        }
      }
    }
  }

  lemma {:induction false} FindAssigned(t: seq<Row>, key: string, rule: Rule, other: string)
    ensures Find(Assign(t, key, rule), other) == if other == key then Some(rule) else Find(t, other)
  {
    if t != [] && t[0].key != key {
      FindAssigned(t[1..], key, rule, other);
    }
  }

  /** Entry `i` is the last one that renders to its pattern. */
  predicate LastFor(entries: seq<Entry>, i: nat, pattern: string) {
    && i < |entries|
    && Render(entries[i].key) == pattern
    && forall j :: i < j < |entries| ==> Render(entries[j].key) != pattern
  }

  /** Looking a pattern up in the loaded table sees the last entry first. */
  lemma FindInRules(entries: seq<Entry>, declared: set<string>, pattern: string)
    requires entries != []
    requires forall k :: 0 <= k < |entries| ==> ValidRule(entries[k], declared)
    ensures var n := |entries| - 1;
      assert ValidRule(entries[n], declared);
      Find(RulesOf(entries, declared), pattern)
      == if Render(entries[n].key) == pattern then Some(RuleFor(pattern, entries[n].value.entries))
         else Find(RulesOf(entries[..n], declared), pattern)
  {
    var n := |entries| - 1;
    assert ValidRule(entries[n], declared);
    var last := Render(entries[n].key);
    FindAssigned(RulesOf(entries[..n], declared), last, RuleFor(last, entries[n].value.entries), pattern);
  }

  lemma LastForFront(entries: seq<Entry>, i: nat, pattern: string)
    requires LastFor(entries, i, pattern) && i < |entries| - 1
    ensures LastFor(entries[..|entries| - 1], i, pattern)
    ensures Render(entries[|entries| - 1].key) != pattern
    ensures entries[..|entries| - 1][i] == entries[i]
  {
  }

  /** Looking a pattern up in the loaded table gives the rule of the last entry that renders to it. */
  lemma {:induction false} LoadedRuleIsTheLast(entries: seq<Entry>, declared: set<string>, i: nat, pattern: string)
    requires forall k :: 0 <= k < |entries| ==> ValidRule(entries[k], declared)
    requires LastFor(entries, i, pattern)
    ensures assert ValidRule(entries[i], declared);
      Find(RulesOf(entries, declared), pattern) == Some(RuleFor(pattern, entries[i].value.entries))
  {
    assert ValidRule(entries[i], declared);
    FindInRules(entries, declared, pattern);
    if i < |entries| - 1 {
      LastForFront(entries, i, pattern);
      LoadedRuleIsTheLast(entries[..|entries| - 1], declared, i, pattern);
    }
  }

  /** The loaded table has a row for exactly the patterns the section's keys render to. */
  lemma {:induction false} LoadedPatterns(entries: seq<Entry>, declared: set<string>, pattern: string)
    requires forall k :: 0 <= k < |entries| ==> ValidRule(entries[k], declared)
    ensures Find(RulesOf(entries, declared), pattern).Some? <==> pattern in KeyNames(entries)
  {
    if entries != [] {
      var n := |entries| - 1;
      FindInRules(entries, declared, pattern);
      LoadedPatterns(entries[..n], declared, pattern);
      KeyNamesSplit(entries);
    }
  }

  lemma KeyNamesSplit(entries: seq<Entry>)
    requires entries != []
    ensures KeyNames(entries) == KeyNames(entries[..|entries| - 1]) + {Render(entries[|entries| - 1].key)}
  {
    assert entries == entries[..|entries| - 1] + [entries[|entries| - 1]];
  }

  /** The patterns a section names, each where it is named first. */
  function FirstNames(entries: seq<Entry>): seq<string> {
    if entries == [] then []
    else
      var before, pattern := FirstNames(entries[..|entries| - 1]), Render(entries[|entries| - 1].key);
      if pattern in before then before else before + [pattern]
  }

  lemma {:induction false} AssignedKeys(t: seq<Row>, key: string, rule: Rule)
    ensures Keys(Assign(t, key, rule)) == if key in Keys(t) then Keys(t) else Keys(t) + [key]
  {
    if t != [] {
      assert Keys(t) == [t[0].key] + Keys(t[1..]);
      if t[0].key != key {
        AssignedKeys(t[1..], key, rule);
        assert Keys(Assign(t, key, rule)) == [t[0].key] + Keys(Assign(t[1..], key, rule));
      } else {
        assert Keys(Assign(t, key, rule)) == Keys(t);
      }
    }
  }

  /** The patterns of a loaded table stand in the order in which the document names them first. */
  lemma {:induction false} LoadedInOrder(entries: seq<Entry>, declared: set<string>)
    requires forall k :: 0 <= k < |entries| ==> ValidRule(entries[k], declared)
    ensures Keys(RulesOf(entries, declared)) == FirstNames(entries)
  {
    if entries != [] {
      var front, last := entries[..|entries| - 1], entries[|entries| - 1];
      assert ValidRule(last, declared);
      LoadedInOrder(front, declared);
      AssignedKeys(RulesOf(front, declared), Render(last.key), RuleFor(Render(last.key), last.value.entries));
    }
  }

  predicate SoundRow(row: Row, declared: set<string>) {
    && row.rule.pattern == row.key
    && row.rule.classification in CLASSIFICATIONS
    && row.rule.allowRoles <= declared
  }

  /** Every loaded rule is filed under its own pattern, has a known classification, and names
      declared roles only. */
  lemma {:induction false} LoadedRulesAreSound(entries: seq<Entry>, declared: set<string>)
    requires forall i :: 0 <= i < |entries| ==> ValidRule(entries[i], declared)
    ensures UniqueKeys(RulesOf(entries, declared))
    ensures forall row :: row in RulesOf(entries, declared) ==> SoundRow(row, declared)
  {
    if entries != [] {
      var n := |entries| - 1;
      LoadedRulesAreSound(entries[..n], declared);
      var last := Render(entries[n].key);
      AssignKeepsUnique(RulesOf(entries[..n], declared), last, RuleFor(last, entries[n].value.entries));
    }
  }

  predicate SoundPolicy(policy: Policy) {
    && (forall i :: 0 <= i < |policy.tools| ==> SoundRow(policy.tools[i], policy.declaredRoles))
    && (forall i :: 0 <= i < |policy.resources| ==> SoundRow(policy.resources[i], policy.declaredRoles))
  }

  /** `policy` is what loading `doc` gives. */
  ghost predicate LoadedFrom(policy: Policy, doc: Value) {
    && ValidDocument(doc)
    && var declared := DeclaredRoles(Get(doc.entries, "roles"));
       && policy.declaredRoles == declared
       && policy.tools == TableOf(Get(doc.entries, "tools"), declared)
       && policy.resources == TableOf(Get(doc.entries, "resources"), declared)
  }

  lemma AcceptedPolicyIsSound(policy: Policy, doc: Value)
    requires LoadedFrom(policy, doc)
    ensures SoundPolicy(policy)
  {
    var declared := policy.declaredRoles;
    var tools, resources := Get(doc.entries, "tools"), Get(doc.entries, "resources");
    if tools.Mapping? {
      LoadedRulesAreSound(tools.entries, declared);
    }
    if resources.Mapping? {
      LoadedRulesAreSound(resources.entries, declared);
    }
  }

  /** Fail closed: a caller none of whose roles the document declares is allowed nothing and sees
      nothing. */
  lemma UndeclaredRolesGetNothing(policy: Policy, doc: Value, glob: Matcher, target: string, roles: seq<string>)
    requires LoadedFrom(policy, doc)
    requires forall r :: r in roles ==> r !in policy.declaredRoles
    ensures !DecideTool(policy, target, roles).allowed
    ensures !DecideResource(policy, glob, target, roles).allowed
    ensures VisibleTools(policy, roles) == {}
  {
    AcceptedPolicyIsSound(policy, doc);
    ToolAllowedIff(policy, target, roles);
    ResourceAllowedIff(policy, glob, target, roles);
    forall row | row in policy.tools || row in policy.resources ensures !Granted(row.rule, roles) {
      assert SoundRow(row, policy.declaredRoles);
    }
  }
}
