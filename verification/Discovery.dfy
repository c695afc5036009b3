/** Filtering `tools/list` to what the caller may invoke (`_filter_tool_list`). */
module Discovery {
  import opened Lists
  import opened Wire
  import opened Policies

  datatype ToolModel = ToolModel(name: string, description: string)

  /** A listing in the two shapes the middleware may see. */
  datatype Listing =
    | Models(tools: seq<ToolModel>)
    | Serialized(value: Value)

  function Keep<T>(items: seq<T>, wanted: T -> bool): seq<T> {
    if items == [] then []
    else if wanted(items[0]) then [items[0]] + Keep(items[1..], wanted)
    else Keep(items[1..], wanted)
  }

  /** `_tool_name` of a list element. */
  function NameOf(tool: Value): string {
    if tool.Mapping? then Render(GetOr(tool.entries, "name", Str(""))) else ""
  }

  predicate HasToolList(value: Value) {
    value.Mapping? && Get(value.entries, "tools").List?
  }

  function Tools(value: Value): seq<Value>
    requires HasToolList(value)
  {
    Get(value.entries, "tools").items
  }

  function Filtered(policy: Policy, roles: seq<string>, listing: Listing): Listing {
    var visible := VisibleTools(policy, roles);
    match listing
    case Models(tools) =>
      var kept := Keep(tools, (t: ToolModel) => t.name in visible);
      if |kept| == |tools| then listing else Models(kept)
    case Serialized(value) =>
      if HasToolList(value) then
        var kept := Keep(Tools(value), (t: Value) => NameOf(t) in visible);
        if |kept| == |Tools(value)| then listing
        else Serialized(Mapping(Put(value.entries, "tools", List(kept))))
      else listing
  }

  lemma {:induction false} KeepAgrees<T>(items: seq<T>, f: T -> bool, g: T -> bool)
    requires forall i :: 0 <= i < |items| ==> f(items[i]) == g(items[i])
    ensures Keep(items, f) == Keep(items, g)
  {
    if items != [] {
      KeepAgrees(items[1..], f, g);
    }
  }

  lemma {:induction false} KeepAll<T>(items: seq<T>, f: T -> bool)
    ensures |Keep(items, f)| <= |items|
    ensures |Keep(items, f)| == |items| ==> Keep(items, f) == items
    ensures forall t :: t in Keep(items, f) <==> t in items && f(t)
  {
    if items != [] {
      KeepAll(items[1..], f);
      assert items == [items[0]] + items[1..];
    }
  }

  lemma {:induction false} KeepTwice<T>(items: seq<T>, f: T -> bool)
    ensures Keep(Keep(items, f), f) == Keep(items, f)
  {
    if items != [] {
      KeepTwice(items[1..], f);
      if f(items[0]) {
        assert ([items[0]] + Keep(items[1..], f))[1..] == Keep(items[1..], f);
      }
    }
  }

  /** A name is visible to a caller exactly when the caller may invoke that tool. */
  lemma VisibleIffAllowed(policy: Policy, roles: seq<string>, name: string)
    ensures name in VisibleTools(policy, roles) <==> DecideTool(policy, name, roles).allowed
  {
    ToolAllowedIff(policy, name, roles);
  }

  lemma ModelsAgree(policy: Policy, roles: seq<string>, tools: seq<ToolModel>)
    ensures Filtered(policy, roles, Models(tools))
         == Models(Keep(tools, (t: ToolModel) => DecideTool(policy, t.name, roles).allowed))
  {
    var seen := (t: ToolModel) => t.name in VisibleTools(policy, roles);
    var allowed := (t: ToolModel) => DecideTool(policy, t.name, roles).allowed;
    forall i | 0 <= i < |tools| ensures seen(tools[i]) == allowed(tools[i]) {
      VisibleIffAllowed(policy, roles, tools[i].name);
    }
    KeepAgrees(tools, seen, allowed);
    KeepAll(tools, seen);
    KeepAgrees(tools, seen, (t: ToolModel) => t.name in VisibleTools(policy, roles));
    KeepAgrees(tools, allowed, (t: ToolModel) => DecideTool(policy, t.name, roles).allowed);
  }

  lemma SerializedAgree(policy: Policy, roles: seq<string>, value: Value, key: string)
    requires HasToolList(value)
    ensures var result := Filtered(policy, roles, Serialized(value));
      && result.Serialized? && HasToolList(result.value)
      && Tools(result.value) == Keep(Tools(value), (t: Value) => DecideTool(policy, NameOf(t), roles).allowed)
      && (key != "tools" ==> Lookup(result.value.entries, key) == Lookup(value.entries, key))
  {
    var seen := (t: Value) => NameOf(t) in VisibleTools(policy, roles);
    var allowed := (t: Value) => DecideTool(policy, NameOf(t), roles).allowed;
    var tools := Tools(value);
    forall i | 0 <= i < |tools| ensures seen(tools[i]) == allowed(tools[i]) {
      VisibleIffAllowed(policy, roles, NameOf(tools[i]));
    }
    KeepAgrees(tools, seen, allowed);
    KeepAll(tools, seen);
    KeepAgrees(tools, seen, (t: Value) => NameOf(t) in VisibleTools(policy, roles));
    KeepAgrees(tools, allowed, (t: Value) => DecideTool(policy, NameOf(t), roles).allowed);
    LookupPut(value.entries, "tools", List(Keep(tools, seen)), "tools");
    LookupPut(value.entries, "tools", List(Keep(tools, seen)), key);
  }

  /** The filtered listing is, in order, exactly the tools the caller may invoke; the rest of a
      serialized listing is untouched; a result without a tool list is passed on as it is. */
  lemma DiscoveryAgreesWithInvocation(policy: Policy, roles: seq<string>, listing: Listing)
    ensures match listing
      case Models(tools) =>
        Filtered(policy, roles, listing)
        == Models(Keep(tools, (t: ToolModel) => DecideTool(policy, t.name, roles).allowed))
      case Serialized(value) =>
        var result := Filtered(policy, roles, listing);
        if !HasToolList(value) then result == listing
        else
          && result.Serialized? && HasToolList(result.value)
          && Tools(result.value) == Keep(Tools(value), (t: Value) => DecideTool(policy, NameOf(t), roles).allowed)
          && forall key :: key != "tools" ==> Lookup(result.value.entries, key) == Lookup(value.entries, key)
  {
    match listing
    case Models(tools) => ModelsAgree(policy, roles, tools);
    case Serialized(value) =>
      if HasToolList(value) {
        SerializedAgree(policy, roles, value, "tools");
        forall key | key != "tools"
          ensures Lookup(Filtered(policy, roles, listing).value.entries, key) == Lookup(value.entries, key)
        {
          SerializedAgree(policy, roles, value, key);
        }
      }
  }

  lemma {:induction false} KeepNext<T>(items: seq<T>, f: T -> bool, last: T)
    ensures Keep(items + [last], f) == Keep(items, f) + if f(last) then [last] else []
  {
    if items == [] {
      assert [] + [last] == [last] && [last][1..] == [];
    } else {
      assert (items + [last])[1..] == items[1..] + [last];
      KeepNext(items[1..], f, last);
    }
  }

  lemma {:induction false} KeepSifts<T>(items: seq<T>, f: T -> bool)
    ensures Sifted(items, f, Keep(items, f))
  {
    if items != [] {
      var front, last := items[..|items| - 1], items[|items| - 1];
      KeepSifts(front, f);
      KeepNext(front, f, last);
      SiftedNext(front, f, Keep(front, f), last);
      assert items == front + [last];
    }
  }

  /** The caller may call the tool a list element names. */
  predicate MayCall(policy: Policy, roles: seq<string>, tool: Value) {
    var name := if !tool.Mapping? then ""
                else match Lookup(tool.entries, "name")
                     case Some(v) => Render(v)
                     case None => "";
    DecideTool(policy, name, roles).allowed
  }

  /** `listing` offers, in the order of the catalogue, exactly the tools the caller may call, and is the
      catalogue in everything else. */
  ghost predicate Offers(policy: Policy, roles: seq<string>, catalogue: Listing, listing: Listing) {
    match catalogue
    case Models(tools) =>
      listing.Models? && Sifted(tools, (t: ToolModel) => DecideTool(policy, t.name, roles).allowed, listing.tools)
    case Serialized(value) =>
      if value.Mapping? && exists items :: Lookup(value.entries, "tools") == Some(List(items)) then
        && listing.Serialized? && listing.value.Mapping?
        && (forall key :: key != "tools" ==> Lookup(listing.value.entries, key) == Lookup(value.entries, key))
        && (forall items :: Lookup(value.entries, "tools") == Some(List(items)) ==>
              exists kept ::
                && Lookup(listing.value.entries, "tools") == Some(List(kept))
                && Sifted(items, (t: Value) => MayCall(policy, roles, t), kept))
      else listing == catalogue
  }

  /** Filtering offers what may be called. */
  lemma FilteredOffers(policy: Policy, roles: seq<string>, catalogue: Listing)
    ensures Offers(policy, roles, catalogue, Filtered(policy, roles, catalogue))
  {
    DiscoveryAgreesWithInvocation(policy, roles, catalogue);
    match catalogue
    case Models(tools) =>
      var allowed := (t: ToolModel) => DecideTool(policy, t.name, roles).allowed;
      KeepSifts(tools, allowed);
      SameSifted(tools, allowed, (t: ToolModel) => DecideTool(policy, t.name, roles).allowed, Keep(tools, allowed));
      KeepAgrees(tools, allowed, (t: ToolModel) => DecideTool(policy, t.name, roles).allowed);
    case Serialized(value) =>
      if HasToolList(value) {
        SerializedOffers(policy, roles, value);
      } else {
        assert Filtered(policy, roles, catalogue) == catalogue;
      }
  }

  lemma SerializedOffers(policy: Policy, roles: seq<string>, value: Value)
    requires HasToolList(value)
    ensures Offers(policy, roles, Serialized(value), Filtered(policy, roles, Serialized(value)))
  {
    var items, result := Tools(value), Filtered(policy, roles, Serialized(value));
    var allowed := (t: Value) => DecideTool(policy, NameOf(t), roles).allowed;
    var mayCall := (t: Value) => MayCall(policy, roles, t);
    DiscoveryAgreesWithInvocation(policy, roles, Serialized(value));
    KeepSifts(items, allowed);
    SameSifted(items, allowed, mayCall, Keep(items, allowed));
    SameSifted(items, mayCall, (t: Value) => MayCall(policy, roles, t), Keep(items, allowed));
    KeepAgrees(items, allowed, (t: Value) => DecideTool(policy, NameOf(t), roles).allowed);
    assert Lookup(value.entries, "tools") == Some(List(items));
    assert Lookup(result.value.entries, "tools") == Some(List(Keep(items, allowed)));
  }

  /** Filtering a filtered listing changes nothing. */
  lemma FilteringIsIdempotent(policy: Policy, roles: seq<string>, listing: Listing)
    ensures Filtered(policy, roles, Filtered(policy, roles, listing)) == Filtered(policy, roles, listing)
  {
    var visible := VisibleTools(policy, roles);
    match listing
    case Models(tools) =>
      KeepTwice(tools, (t: ToolModel) => t.name in visible);
    case Serialized(value) =>
      if HasToolList(value) {
        var seen := (t: Value) => NameOf(t) in visible;
        KeepTwice(Tools(value), seen);
        LookupPut(value.entries, "tools", List(Keep(Tools(value), seen)), "tools");
      }
  }
}
