/** The request-state key ring: parsing `MCP_REQUEST_STATE_KEYS` and choosing the ring a process
    seals and unseals with (governance/request_state.py). */
module KeyRing {
  import opened Text
  import opened Wire
  import opened Base64

  const MINIMUM_KEY_BYTES := 32

  /** `index` counts the comma-separated entries, blank ones included. */
  datatype KeyError =
    | NotBase64(index: nat)
    | TooShort(index: nat, length: nat)

  type Keys = seq<Bytes>

  // ---------- parsing ----------

  /** What is wrong with one entry; a blank entry is never wrong. */
  function EntryError(chunk: string, index: nat): Option<KeyError> {
    var text := Strip(chunk);
    if text == "" then None
    else
      match Decode(text)
      case None => Some(NotBase64(index))
      case Some(key) => if |key| < MINIMUM_KEY_BYTES then Some(TooShort(index, |key|)) else None
  }

  /** The entries that hold a key, decoded in order. */
  function DecodedEntries(chunks: seq<string>): Keys {
    if chunks == [] then []
    else
      var text := Strip(chunks[0]);
      var rest := DecodedEntries(chunks[1..]);
      match Decode(text)
      case Some(key) => if text == "" then rest else [key] + rest
      case None => rest
  }

  predicate AllAcceptable(chunks: seq<string>) {
    forall i :: 0 <= i < |chunks| ==> EntryError(chunks[i], i).None?
  }

  /** Entry `i` is the first one in error. */
  predicate FirstError(chunks: seq<string>, i: nat) {
    && i < |chunks|
    && EntryError(chunks[i], i).Some?
    && forall j :: 0 <= j < i ==> EntryError(chunks[j], j).None?
  }

  /** The meaning of a ring string: the error of its first unusable entry, or its keys in order. */
  ghost function LoadedKeys(raw: string): Result<Keys, KeyError> {
    var chunks := Split(raw, ',');
    if AllAcceptable(chunks) then Success(DecodedEntries(chunks))
    else
      FirstErrorExists(chunks);
      var i: nat :| FirstError(chunks, i);
      Failure(EntryError(chunks[i], i).value)
  }

  lemma FirstErrorExists(chunks: seq<string>)
    ensures AllAcceptable(chunks) || exists i: nat :: FirstError(chunks, i)
  {
    if !AllAcceptable(chunks) {
      var i: nat :| i < |chunks| && EntryError(chunks[i], i).Some?;
      FirstErrorUpTo(chunks, i);
    }
  }

  lemma {:induction false} FirstErrorUpTo(chunks: seq<string>, i: nat)
    requires i < |chunks| && EntryError(chunks[i], i).Some?
    ensures exists k: nat :: FirstError(chunks, k)
  {
    if j: nat :| j < i && EntryError(chunks[j], j).Some? {
      FirstErrorUpTo(chunks, j);
    } else {
      assert FirstError(chunks, i);
    }
  }

  /** The first `index` entries are acceptable and hold `keys`. */
  predicate ReadUpTo(raw: string, index: nat, keys: Keys) {
    var chunks := Split(raw, ',');
    && index <= |chunks|
    && (forall j :: 0 <= j < index ==> EntryError(chunks[j], j).None?)
    && keys == DecodedEntries(chunks[..index])
  }

  /** `load_keys`: one pass over the entries, stopping at the first unusable one. */
  method LoadKeys(raw: string) returns (result: Result<Keys, KeyError>)
    ensures result == LoadedKeys(raw)
  {
    var chunks := Split(raw, ',');
    if Strip(raw) == "" {
      BlankRingIsEmpty(raw);
      return Success([]);
    }
    var keys: Keys := [];
    for index := 0 to |chunks|
      invariant ReadUpTo(raw, index, keys)
    {
      var chunk := Strip(chunks[index]);
      ReadEntry(raw, index, keys);
      if chunk == "" {
        continue;
      }
      var key := Decode(chunk);
      if key.None? {
        return Failure(NotBase64(index));
      }
      if |key.value| < MINIMUM_KEY_BYTES {
        return Failure(TooShort(index, |key.value|));
      }
      keys := keys + [key.value];
    }
    LoadedToTheEnd(raw, keys);
    return Success(keys);
  }

  lemma {:induction false} DecodedAppend(chunks: seq<string>, last: string)
    ensures DecodedEntries(chunks + [last]) == DecodedEntries(chunks) + DecodedEntries([last])
  {
    if chunks == [] {
      assert chunks + [last] == [last];
    } else {
      assert (chunks + [last])[1..] == chunks[1..] + [last];
      DecodedAppend(chunks[1..], last);
    }
  }

  lemma LoadedToTheEnd(raw: string, keys: Keys)
    requires ReadUpTo(raw, |Split(raw, ',')|, keys)
    ensures LoadedKeys(raw) == Success(keys)
  {
    var chunks := Split(raw, ',');
    assert chunks[..|chunks|] == chunks;
  }

  /** What reading entry `index` amounts to when all before it were acceptable. */
  lemma ReadEntry(raw: string, index: nat, keys: Keys)
    requires index < |Split(raw, ',')| && ReadUpTo(raw, index, keys)
    ensures var text := Strip(Split(raw, ',')[index]);
      var key := Decode(text);
      if text == "" then ReadUpTo(raw, index + 1, keys)
      else if key.None? then LoadedKeys(raw) == Failure(NotBase64(index))
      else if |key.value| < MINIMUM_KEY_BYTES then LoadedKeys(raw) == Failure(TooShort(index, |key.value|))
      else ReadUpTo(raw, index + 1, keys + [key.value])
  {
    var chunks := Split(raw, ',');
    DecodedNext(chunks, index);
    if EntryError(chunks[index], index).Some? {
      assert FirstError(chunks, index);
    }
  }

  /** Reading one more entry adds its key, if it holds one. */
  lemma DecodedNext(chunks: seq<string>, index: nat)
    requires index < |chunks|
    ensures var text := Strip(chunks[index]);
      DecodedEntries(chunks[..index + 1])
      == DecodedEntries(chunks[..index]) + if text != "" && Decode(text).Some? then [Decode(text).value] else []
  {
    assert chunks[..index + 1] == chunks[..index] + [chunks[index]];
    DecodedAppend(chunks[..index], chunks[index]);
    assert [chunks[index]][1..] == [];
  }

  lemma BlankRingIsEmpty(raw: string)
    requires Strip(raw) == ""
    ensures AllAcceptable(Split(raw, ',')) && DecodedEntries(Split(raw, ',')) == []
  {
    StripEmptyIff(raw);
    SplitWhole(raw, ',');
  }

  // ---------- what parsing means ----------

  /** Loading fails exactly when some non-blank entry is not strict base64 or is shorter than 32
      bytes, and the error names the first such entry. */
  lemma LoadFailsExactlyAtFirstBadEntry(raw: string, i: nat)
    requires i < |Split(raw, ',')|
    ensures var chunks := Split(raw, ',');
      (LoadedKeys(raw).Failure? && LoadedKeys(raw).error.index == i)
      <==>
      (&& EntryError(chunks[i], i).Some?
       && forall j :: 0 <= j < i ==> EntryError(chunks[j], j).None?)
    ensures LoadedKeys(raw).Failure? ==> LoadedKeys(raw).error.index < |Split(raw, ',')|
    ensures LoadedKeys(raw).Failure? && LoadedKeys(raw).error.index == i ==>
              var key := Decode(Strip(Split(raw, ',')[i]));
              if key.None? then LoadedKeys(raw).error == NotBase64(i)
              else |key.value| < 32 && LoadedKeys(raw).error == TooShort(i, |key.value|)
  {
    var chunks := Split(raw, ',');
    FirstErrorExists(chunks);
    if EntryError(chunks[i], i).Some? && forall j :: 0 <= j < i ==> EntryError(chunks[j], j).None? {
      assert FirstError(chunks, i);
    }
  }

  lemma {:induction false} DecodedKeysAreLong(chunks: seq<string>, offset: nat)
    requires forall i :: 0 <= i < |chunks| ==> EntryError(chunks[i], i + offset).None?
    ensures forall k :: 0 <= k < |DecodedEntries(chunks)| ==> |DecodedEntries(chunks)[k]| >= MINIMUM_KEY_BYTES
  {
    if chunks != [] {
      assert EntryError(chunks[0], 0 + offset).None?;
      forall i | 0 <= i < |chunks[1..]| ensures EntryError(chunks[1..][i], i + (offset + 1)).None? {
        assert EntryError(chunks[i + 1], (i + 1) + offset).None?;
      }
      DecodedKeysAreLong(chunks[1..], offset + 1);
    }
  }

  /** A ring that loads only holds keys of at least 32 bytes. */
  lemma LoadedKeysAreLong(raw: string)
    requires LoadedKeys(raw).Success?
    ensures forall k :: 0 <= k < |LoadedKeys(raw).value| ==> |LoadedKeys(raw).value[k]| >= 32
  {
    FirstErrorExists(Split(raw, ','));
    DecodedKeysAreLong(Split(raw, ','), 0);
  }

  /** What a ring string may look like: it loads as `keys` exactly when it is some comma-free entries
      joined with commas, all acceptable, that decode to `keys`. */
  lemma LoadsIffJoined(raw: string, keys: Keys)
    ensures LoadedKeys(raw) == Success(keys)
       <==> exists chunks: seq<string> ::
              && chunks != [] && (forall i :: 0 <= i < |chunks| ==> ',' !in chunks[i])
              && raw == Join(chunks, ',') && AllAcceptable(chunks) && DecodedEntries(chunks) == keys
  {
    JoinSplit(raw, ',');
    if chunks: seq<string> :| && chunks != [] && (forall i :: 0 <= i < |chunks| ==> ',' !in chunks[i])
                              && raw == Join(chunks, ',') && AllAcceptable(chunks) && DecodedEntries(chunks) == keys
    {
      SplitJoin(chunks, ',');
    }
  }

  // ---------- the round trip ----------

  /** One entry of a ring string as an operator may write it. */
  datatype RingEntry =
    | Gap(space: string)
    | Held(lead: string, key: Bytes, trail: string)
  {
    predicate Valid() {
      match this
      case Gap(space) => Blank(space)
      case Held(lead, key, trail) => Blank(lead) && Blank(trail) && |key| >= MINIMUM_KEY_BYTES
    }

    function Written(): string {
      match this
      case Gap(space) => space
      case Held(lead, key, trail) => lead + Encode(key) + trail
    }
  }

  predicate AllValid(entries: seq<RingEntry>) {
    forall i :: 0 <= i < |entries| ==> entries[i].Valid()
  }

  function Written(entries: seq<RingEntry>): seq<string> {
    seq(|entries|, i requires 0 <= i < |entries| => entries[i].Written())
  }

  function HeldKeys(entries: seq<RingEntry>): Keys {
    if entries == [] then []
    else if entries[0].Gap? then HeldKeys(entries[1..])
    else [entries[0].key] + HeldKeys(entries[1..])
  }

  lemma WrittenKey(lead: string, key: Bytes, trail: string)
    requires Blank(lead) && Blank(trail) && key != []
    ensures ',' !in lead + Encode(key) + trail
    ensures Strip(lead + Encode(key) + trail) == Encode(key) != ""
  {
    var text := Encode(key);
    EncodedCharacters(key);
    forall i | 0 <= i < |text| ensures text[i] != ',' && !IsSpace(text[i]) {
    }
    StripPadded(lead, text, trail);
  }

  lemma WrittenEntry(entry: RingEntry, index: nat)
    requires entry.Valid()
    ensures ',' !in entry.Written()
    ensures EntryError(entry.Written(), index).None?
    ensures DecodedEntries([entry.Written()]) == if entry.Gap? then [] else [entry.key]
  {
    assert [entry.Written()][1..] == [];
    match entry
    case Gap(space) =>
      StripEmptyIff(space);
    case Held(lead, key, trail) =>
      WrittenKey(lead, key, trail);
      RoundTrip(key);
  }

  lemma {:induction false} DecodedWritten(entries: seq<RingEntry>)
    requires AllValid(entries)
    ensures DecodedEntries(Written(entries)) == HeldKeys(entries)
  {
    if entries != [] {
      var texts := Written(entries);
      assert texts[1..] == Written(entries[1..]);
      DecodedWritten(entries[1..]);
      WrittenEntry(entries[0], 0);
      assert DecodedEntries([texts[0]]) + DecodedEntries(texts[1..]) == DecodedEntries(texts) by {
        assert [texts[0]][1..] == [];
      }
    }
  }

  /** Writing a ring and loading it gives the same keys in the same order, whatever whitespace
      surrounds them and however many blank entries stand between them. */
  lemma {:induction false} RingRoundTrip(entries: seq<RingEntry>)
    requires AllValid(entries)
    ensures LoadedKeys(Join(Written(entries), ',')) == Success(HeldKeys(entries))
  {
    var texts := Written(entries);
    forall i | 0 <= i < |entries| ensures ',' !in texts[i] && EntryError(texts[i], i).None? {
      WrittenEntry(entries[i], i);
    }
    if entries == [] {
      assert Split("", ',') == [""];
      StripEmptyIff("");
    } else {
      SplitJoin(texts, ',');
      DecodedWritten(entries);
    }
  }

  function EncodedAll(keys: Keys): seq<string> {
    seq(|keys|, i requires 0 <= i < |keys| => Encode(keys[i]))
  }

  function Plain(keys: Keys): seq<RingEntry> {
    seq(|keys|, i requires 0 <= i < |keys| => Held("", keys[i], ""))
  }

  lemma {:induction false} HeldPlain(keys: Keys)
    ensures HeldKeys(Plain(keys)) == keys
  {
    if keys != [] {
      assert Plain(keys)[1..] == Plain(keys[1..]);
      HeldPlain(keys[1..]);
      assert keys == [keys[0]] + keys[1..];
    }
  }

  /** Joining encoded keys with commas and nothing else loads as those keys. */
  lemma PlainRing(keys: Keys)
    requires forall i :: 0 <= i < |keys| ==> |keys[i]| >= MINIMUM_KEY_BYTES
    ensures LoadedKeys(Join(EncodedAll(keys), ',')) == Success(keys)
  {
    RingRoundTrip(Plain(keys));
    HeldPlain(keys);
    assert Written(Plain(keys)) == EncodedAll(keys) by {
      forall i | 0 <= i < |keys| ensures Written(Plain(keys))[i] == EncodedAll(keys)[i] {
        assert "" + Encode(keys[i]) + "" == Encode(keys[i]);
      }
    }
  }

  /** The strings of the rotation runbook load as the rings it means. */
  lemma {:induction false} RunbookRings(current: Bytes, next: Bytes)
    requires |current| >= MINIMUM_KEY_BYTES && |next| >= MINIMUM_KEY_BYTES
    ensures LoadedKeys(Encode(current)) == Success([current])
    ensures LoadedKeys(Encode(current) + "," + Encode(next)) == Success([current, next])
  {
    PlainRing([current]);
    PlainRing([current, next]);
    var texts := [Encode(current), Encode(next)];
    assert EncodedAll([current, next]) == texts && EncodedAll([current]) == [Encode(current)];
    assert Join(texts, ',') == texts[0] + [','] + texts[1] by {
      assert texts[1..] == [texts[1]];
    }
  }

  // ---------- the ring of a process ----------

  /** A sealing key: from configuration, or made by one process and known to no other. */
  datatype Key =
    | Configured(bytes: Bytes)
    | ProcessLocal(id: nat)

  type Ring = ring: seq<Key> | ring != [] witness [ProcessLocal(0)]

  /** `build`: the configured ring, or a key local to process `process` when none is configured. */
  function Build(keys: Keys, process: nat): (ring: Ring)
    ensures forall key: Bytes :: Configured(key) in ring <==> key in keys
    ensures keys != [] ==> ring[0] == Configured(keys[0])
    ensures forall id :: ProcessLocal(id) in ring <==> keys == [] && id == process
  {
    if keys == [] then [ProcessLocal(process)]
    else
      var ring := seq(|keys|, i requires 0 <= i < |keys| => Configured(keys[i]));
      assert forall i :: 0 <= i < |keys| ==> ring[i] == Configured(keys[i]);
      ring
  }
}
