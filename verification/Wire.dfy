/** The generic values the server reads: parsed YAML documents and JSON request parameters. */
module Wire {
  import opened Text

  datatype Option<+T> = None | Some(value: T)

  datatype Result<+T, +E> = Success(value: T) | Failure(error: E)

  /** A mapping keeps its entries in order, as a Python dict does. */
  datatype Value =
    | Null
    | Bool(b: bool)
    | Int(n: int)
    | Str(s: string)
    | List(items: seq<Value>)
    | Mapping(entries: seq<Entry>)

  datatype Entry = Entry(key: Value, value: Value)

  function Lookup(entries: seq<Entry>, name: string): Option<Value> {
    if entries == [] then None
    else if entries[0].key == Str(name) then Some(entries[0].value)
    else Lookup(entries[1..], name)
  }

  /** A key is looked up at its first entry. */
  lemma {:induction false} LookupFirst(entries: seq<Entry>, name: string)
    ensures Lookup(entries, name).None? <==> forall i :: 0 <= i < |entries| ==> entries[i].key != Str(name)
    ensures forall i :: 0 <= i < |entries| && entries[i].key == Str(name)
                        && (forall j :: 0 <= j < i ==> entries[j].key != Str(name))
                        ==> Lookup(entries, name) == Some(entries[i].value)
  {
    if entries != [] {
      LookupFirst(entries[1..], name);
      assert forall i :: 1 <= i < |entries| ==> entries[i] == entries[1..][i - 1];
    }
  }

  /** `mapping.get(name, default)`. */
  function GetOr(entries: seq<Entry>, name: string, default: Value): Value {
    match Lookup(entries, name)
    case Some(v) => v
    case None => default
  }

  /** `mapping.get(name)`. */
  function Get(entries: seq<Entry>, name: string): Value {
    GetOr(entries, name, Null)
  }

  /** `{**mapping, name: value}`: an existing key keeps its place. */
  function Put(entries: seq<Entry>, name: string, value: Value): seq<Entry> {
    if entries == [] then [Entry(Str(name), value)]
    else if entries[0].key == Str(name) then [Entry(Str(name), value)] + entries[1..]
    else [entries[0]] + Put(entries[1..], name, value)
  }

  lemma {:induction false} LookupPut(entries: seq<Entry>, name: string, value: Value, other: string)
    ensures Lookup(Put(entries, name, value), other) == if other == name then Some(value) else Lookup(entries, other)
  {
    if entries != [] && entries[0].key != Str(name) {
      LookupPut(entries[1..], name, value, other);
    }
  }

  /** `mapping` without one key. */
  function Without(entries: seq<Entry>, name: string): (r: seq<Entry>)
    ensures Lookup(r, name) == None
    ensures forall other :: other != name ==> Lookup(r, other) == Lookup(entries, other)
  {
    if entries == [] then []
    else if entries[0].key == Str(name) then Without(entries[1..], name)
    else [entries[0]] + Without(entries[1..], name)
  }

  /** Python truth value. */
  predicate Truthy(v: Value) {
    match v
    case Null => false
    case Bool(b) => b
    case Int(n) => n != 0
    case Str(s) => s != ""
    case List(items) => items != []
    case Mapping(entries) => entries != []
  }

  /** The false values are the empty and the zero ones. */
  lemma FalsyIff(v: Value)
    ensures !Truthy(v) <==> v in {Null, Bool(false), Int(0), Str(""), List([]), Mapping([])}
  {
  }

  /** `a or b`. */
  function Or(a: Value, b: Value): Value {
    if Truthy(a) then a else b
  }

  /** `str(value)`. */
  function Render(v: Value): string {
    if v.Str? then v.s else Repr(v)
  }

  function Repr(v: Value): string
    decreases v, 1
  {
    match v
    case Null => "None"
    case Bool(b) => if b then "True" else "False"
    case Int(n) => if n < 0 then "-" + Digits(-n) else Digits(n)
    case Str(s) => "'" + s + "'"
    case List(items) => "[" + ReprItems(items) + "]"
    case Mapping(entries) => "{" + ReprEntries(entries) + "}"
  }

  /** Text renders as itself, the other scalars as Python writes them. */
  lemma RenderScalars(s: string, n: nat)
    ensures Render(Int(n)) == Digits(n)
    ensures Render(Str(s)) == s && Render(Null) == "None"
    ensures Render(Bool(true)) == "True" && Render(Bool(false)) == "False"
    ensures Number(Digits(n)) == n && (n > 0 ==> Render(Int(0 - n)) == "-" + Render(Int(n)))
  {
    NumberOfDigits(n);
  }

  function ReprItems(items: seq<Value>): string
    decreases items, 0
  {
    if items == [] then ""
    else if |items| == 1 then Repr(items[0])
    else Repr(items[0]) + ", " + ReprItems(items[1..])
  }

  function ReprEntries(entries: seq<Entry>): string
    decreases entries, 0
  {
    if entries == [] then ""
    else
      var first := ReprEntry(entries[0]);
      if |entries| == 1 then first else first + ", " + ReprEntries(entries[1..])
  }

  function ReprEntry(entry: Entry): string
    decreases entry, 0
  {
    Repr(entry.key) + ": " + Repr(entry.value)
  }

  /** The rendered keys of a mapping. */
  function KeyNames(entries: seq<Entry>): set<string> {
    set e | e in entries :: Render(e.key)
  }
}
