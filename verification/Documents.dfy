/** What a policy document says, field by field, is what the loaded policy decides. */
module Documents {
  import opened Text
  import opened Wire
  import opened Policies
  import opened PolicyLoader

  /** A field of an entry as text, or its default when absent. */
  function FieldText(body: seq<Entry>, name: string, default: string): string {
    match Lookup(body, name)
    case Some(v) => Render(v)
    case None => default
  }

  /** The entry lists the role under `allow_roles`. */
  ghost predicate NamesRole(body: seq<Entry>, role: string) {
    exists items: seq<Value>, k ::
      Lookup(body, "allow_roles") == Some(List(items)) && 0 <= k < |items| && Render(items[k]) == role
  }

  ghost predicate WantsApproval(body: seq<Entry>) {
    exists v :: Lookup(body, "requires_approval") == Some(v) && Truthy(v)
  }

  // ---------- one entry ----------

  lemma RoleNamedIff(body: seq<Entry>, role: string)
    requires AllowRoles(body).List?
    ensures role in RenderAll(AllowRoles(body).items) <==> NamesRole(body, role)
  {
    var items := AllowRoles(body).items;
    if role in RenderAll(items) {
      var v :| v in items && Render(v) == role;
      var k :| 0 <= k < |items| && items[k] == v;
      assert Lookup(body, "allow_roles") == Some(List(items));
    }
    if NamesRole(body, role) {
      var listed: seq<Value>, k :| Lookup(body, "allow_roles") == Some(List(listed)) && 0 <= k < |listed| && Render(listed[k]) == role;
      assert items == listed && listed[k] in items;
    }
  }

  /** The rule of an entry holds the entry's own fields. */
  lemma RuleSaysEntry(pattern: string, body: seq<Entry>)
    requires AllowRoles(body).List?
    ensures var rule := RuleFor(pattern, body);
      && rule.pattern == pattern
      && (forall role :: role in rule.allowRoles <==> NamesRole(body, role))
      && rule.classification == FieldText(body, "classification", "internal")
      && rule.description == FieldText(body, "description", "")
      && (rule.requiresApproval <==> WantsApproval(body))
      && rule.approvalPrompt == FieldText(body, "approval_prompt", "")
  {
    forall role ensures role in RuleFor(pattern, body).allowRoles <==> NamesRole(body, role) {
      RoleNamedIff(body, role);
    }
    if RuleFor(pattern, body).requiresApproval {
      assert Lookup(body, "requires_approval").Some?;
    }
  }

  /** The rule of a loaded section is made of the fields of the last entry for its pattern. */
  ghost predicate HoldsEntry(rule: Rule, pattern: string, body: seq<Entry>) {
    && rule.pattern == pattern
    && (forall role :: role in rule.allowRoles <==> NamesRole(body, role))
    && rule.classification == FieldText(body, "classification", "internal")
    && rule.description == FieldText(body, "description", "")
    && (rule.requiresApproval <==> WantsApproval(body))
    && rule.approvalPrompt == FieldText(body, "approval_prompt", "")
  }

  lemma LoadedRuleHolds(entries: seq<Entry>, declared: set<string>, i: nat, pattern: string)
    requires forall k :: 0 <= k < |entries| ==> ValidRule(entries[k], declared)
    requires LastFor(entries, i, pattern)
    ensures entries[i].value.Mapping?
    ensures var found := Find(RulesOf(entries, declared), pattern);
      found.Some? && HoldsEntry(found.value, pattern, entries[i].value.entries)
  {
    assert ValidRule(entries[i], declared);
    LoadedRuleIsTheLast(entries, declared, i, pattern);
    RuleSaysEntry(pattern, entries[i].value.entries);
  }

  // ---------- decisions ----------

  /** The decision on `target` follows the entry `body`: who is allowed, whether a human is asked, and what
      is reported. */
  ghost predicate DecidedBy(decision: Decision, target: string, roles: seq<string>, body: seq<Entry>) {
    && decision.target == target
    && (decision.allowed <==> exists role :: role in roles && NamesRole(body, role))
    && (decision.requiresApproval <==> WantsApproval(body))
    && decision.approvalPrompt == FieldText(body, "approval_prompt", "")
    && decision.classification == Some(FieldText(body, "classification", "internal"))
    && Ascending(decision.requiredRoles)
    && (forall role :: role in decision.requiredRoles <==> NamesRole(body, role))
  }

  lemma MatchFollows(rule: Rule, pattern: string, body: seq<Entry>, target: string, roles: seq<string>)
    requires HoldsEntry(rule, pattern, body)
    ensures DecidedBy(Match(rule, target, Sorted(Roles(roles))), target, roles, body)
  {
    var decision := Match(rule, target, Sorted(Roles(roles)));
    if decision.allowed {
      var role :| role in Roles(Sorted(Roles(roles))) * rule.allowRoles;
      assert role in roles && NamesRole(body, role);
    }
    if role :| role in roles && NamesRole(body, role) {
      assert role in Roles(Sorted(Roles(roles))) * rule.allowRoles;
    }
  }

  /** A tool is decided on by the last entry of the document's `tools` that renders to its name: the call
      is allowed exactly when the entry lists a role of the caller's, and a human is asked exactly when
      the entry says so. */
  lemma ToolFollowsDocument(policy: Policy, doc: Value, entries: seq<Entry>, i: nat, tool: string, roles: seq<string>)
    requires LoadedFrom(policy, doc) && Lookup(doc.entries, "tools") == Some(Mapping(entries)) && LastFor(entries, i, tool)
    ensures entries[i].value.Mapping? && DecidedBy(DecideTool(policy, tool, roles), tool, roles, entries[i].value.entries)
  {
    LoadedRuleHolds(entries, policy.declaredRoles, i, tool);
    MatchFollows(Find(policy.tools, tool).value, tool, entries[i].value.entries, tool, roles);
  }

  /** A tool no entry renders to is denied. */
  lemma UnlistedToolIsDenied(policy: Policy, doc: Value, glob: Matcher, tool: string, roles: seq<string>)
    requires LoadedFrom(policy, doc)
    requires forall entries: seq<Entry> :: Lookup(doc.entries, "tools") == Some(Mapping(entries)) ==>
               forall i :: 0 <= i < |entries| ==> Render(entries[i].key) != tool
    ensures DefaultDenied(DecideTool(policy, tool, roles), "no policy entry for this tool (default deny)")
  {
    FindExactly(policy.tools, tool);
    ReasonsTell(policy, glob, tool, roles);
    var tools := Get(doc.entries, "tools");
    if tools.Mapping? {
      assert Lookup(doc.entries, "tools") == Some(Mapping(tools.entries));
      LoadedPatterns(tools.entries, policy.declaredRoles, tool);
    }
  }

  /** A resource is decided on by the earliest of the longest patterns that match, and by the last entry of
      the document's `resources` that renders to that pattern. */
  lemma ResourceFollowsDocument(policy: Policy, doc: Value, entries: seq<Entry>, glob: Matcher, uri: string, roles: seq<string>,
                                row: nat, i: nat)
    requires LoadedFrom(policy, doc) && Lookup(doc.entries, "resources") == Some(Mapping(entries))
    requires Selected(policy.resources, glob, uri, row) && LastFor(entries, i, policy.resources[row].key)
    ensures entries[i].value.Mapping?
    ensures DecidedBy(DecideResource(policy, glob, uri, roles), uri, roles, entries[i].value.entries)
  {
    var pattern := policy.resources[row].key;
    LoadedRuleHolds(entries, policy.declaredRoles, i, pattern);
    FindExactly(policy.resources, pattern);
    SelectsEarliestLongest(policy.resources, glob, uri);
    MatchFollows(policy.resources[row].rule, pattern, entries[i].value.entries, uri, roles);
  }

  /** Every row of the resource table has such an entry. */
  lemma {:induction false} SomeEntryIsLast(entries: seq<Entry>, pattern: string) returns (i: nat)
    requires exists k :: 0 <= k < |entries| && Render(entries[k].key) == pattern
    ensures LastFor(entries, i, pattern)
  {
    var n := |entries| - 1;
    if Render(entries[n].key) == pattern {
      i := n;
    } else {
      assert forall k :: 0 <= k < n ==> entries[..n][k] == entries[k];
      i := SomeEntryIsLast(entries[..n], pattern);
    }
  }

  // ---------- which documents are accepted, and why not ----------

  ghost predicate EntryAccepted(entry: Entry, declared: set<string>) {
    && entry.value.Mapping?
    && var body := entry.value.entries;
       && FieldText(body, "classification", "internal") in {"public", "internal", "confidential", "restricted"}
       && (forall v :: Lookup(body, "allow_roles") == Some(v) && Truthy(v) ==> v.List?)
       && (forall role :: NamesRole(body, role) ==> role in declared)
  }

  lemma EntryAcceptedIff(entry: Entry, declared: set<string>)
    ensures ValidRule(entry, declared) <==> EntryAccepted(entry, declared)
  {
    if entry.value.Mapping? {
      var body := entry.value.entries;
      if AllowRoles(body).List? {
        forall role ensures role in RenderAll(AllowRoles(body).items) <==> NamesRole(body, role) {
          RoleNamedIff(body, role);
        }
      } else {
        assert Lookup(body, "allow_roles") == Some(AllowRoles(body)) && Truthy(AllowRoles(body));
      }
      assert FieldText(body, "classification", "internal") == Classification(body);
    }
  }

  ghost predicate SectionAccepted(doc: seq<Entry>, section: string, declared: set<string>) {
    match Lookup(doc, section)
    case None => true
    case Some(v) =>
      || v.Null?
      || (v.Mapping? && forall i :: 0 <= i < |v.entries| ==> EntryAccepted(v.entries[i], declared))
  }

  lemma SectionAcceptedIff(doc: seq<Entry>, section: string, declared: set<string>)
    ensures ValidSection(Get(doc, section), declared) <==> SectionAccepted(doc, section, declared)
  {
    var v := Get(doc, section);
    if v.Mapping? {
      forall i | 0 <= i < |v.entries| ensures ValidRule(v.entries[i], declared) <==> EntryAccepted(v.entries[i], declared) {
        EntryAcceptedIff(v.entries[i], declared);
      }
    }
  }

  /** The roles a document declares: the keys of its `roles` mapping. */
  ghost predicate Declares(doc: seq<Entry>, role: string) {
    exists entries: seq<Entry>, i ::
      Lookup(doc, "roles") == Some(Mapping(entries)) && 0 <= i < |entries| && Render(entries[i].key) == role
  }

  lemma DeclaredIff(doc: seq<Entry>, role: string)
    ensures role in DeclaredRoles(Get(doc, "roles")) <==> Declares(doc, role)
  {
    var roles := Get(doc, "roles");
    if role in DeclaredRoles(roles) {
      assert Lookup(doc, "roles") == Some(Mapping(roles.entries));
      var e :| e in roles.entries && Render(e.key) == role;
      var i :| 0 <= i < |roles.entries| && roles.entries[i] == e;
    }
    if Declares(doc, role) {
      var entries: seq<Entry>, i :| Lookup(doc, "roles") == Some(Mapping(entries)) && 0 <= i < |entries|
                                    && Render(entries[i].key) == role;
      assert entries[i] in roles.entries;
    }
  }

  /** A document is accepted exactly when it is a mapping of version 1 whose default, if any, is to deny,
      whose roles are a mapping or absent, and each of whose rules has a known classification and a list of
      declared roles, or none. */
  lemma AcceptedExactly(doc: Value, declared: set<string>)
    requires doc.Mapping? ==> forall role :: role in declared <==> Declares(doc.entries, role)
    ensures ValidDocument(doc) <==>
      && doc.Mapping?
      && Lookup(doc.entries, "version") in {Some(Int(1)), Some(Bool(true))}
      && Lookup(doc.entries, "default") in {None, Some(Str("deny"))}
      && (forall v :: Lookup(doc.entries, "roles") == Some(v) ==> v.Null? || v.Mapping?)
      && SectionAccepted(doc.entries, "tools", declared) && SectionAccepted(doc.entries, "resources", declared)
  {
    if doc.Mapping? {
      forall role ensures role in DeclaredRoles(Get(doc.entries, "roles")) <==> role in declared {
        DeclaredIff(doc.entries, role);
      }
      assert DeclaredRoles(Get(doc.entries, "roles")) == declared;
      SectionAcceptedIff(doc.entries, "tools", declared);
      SectionAcceptedIff(doc.entries, "resources", declared);
    }
  }

  /** The error of an entry tells what is wrong with it: its unknown classification, or in ascending order
      the roles it names that the document does not declare. */
  lemma RuleErrorTells(section: Section, entry: Entry, declared: set<string>)
    ensures var error, pattern := RuleError(section, entry, declared), Render(entry.key);
      if !entry.value.Mapping? then error == Some(RuleNotMapping(section, pattern))
      else
        var body := entry.value.entries;
        var classification := FieldText(body, "classification", "internal");
        if classification !in {"public", "internal", "confidential", "restricted"} then
          error == Some(UnknownClassification(section, pattern, classification))
        else if exists v :: Lookup(body, "allow_roles") == Some(v) && Truthy(v) && !v.List? then
          error == Some(AllowRolesNotList(section, pattern))
        else if forall role :: NamesRole(body, role) ==> role in declared then error == None
        else
          && error.Some? && error.value.UndeclaredRoles? && error.value.section == section && error.value.pattern == pattern
          && Ascending(error.value.roles)
          && forall role :: role in error.value.roles <==> NamesRole(body, role) && role !in declared
  {
    if entry.value.Mapping? && Classification(entry.value.entries) in CLASSIFICATIONS {
      var body := entry.value.entries;
      if AllowRoles(body).List? {
        var unknown := RenderAll(AllowRoles(body).items) - declared;
        forall role ensures role in unknown <==> NamesRole(body, role) && role !in declared {
          RoleNamedIff(body, role);
        }
      } else {
        assert Lookup(body, "allow_roles") == Some(AllowRoles(body)) && Truthy(AllowRoles(body));
      }
    }
  }
}
