/** TXT records: service properties as length-prefixed `key=value` entries (section 6 of RFC 6763). */
module TxtProperties {
  import opened Results
  import opened Bytes

  type Octets = seq<byte>

  const EQUALS: byte := 61

  /** A dictionary of properties, in insertion order. */
  type Properties = seq<(Octets, Option<Octets>)>

  /** Keys and values may be given as bytes or as text (here its UTF-8 bytes). */
  datatype Data = Raw(bytes: Octets) | Str(bytes: Octets)

  type Given = seq<(Data, Option<Data>)>

  function Entry(key: Octets, value: Option<Octets>): Octets {
    match value
    case None => key
    case Some(v) => key + [EQUALS] + v
  }

  /** The text for a list of entries: `bytes((len,))` fails for a length above 255. */
  function TextOf(entries: seq<Octets>): Result<Octets> {
    if entries == [] then Success([])
    else
      var front :- TextOf(entries[..|entries| - 1]);
      var last := entries[|entries| - 1];
      if |last| > 255 then Failure(ValueError) else Success(front + [|last|] + last)
  }

  function BytesOf(value: Option<Data>): Option<Octets> {
    match value
    case None => None
    case Some(d) => Some(d.bytes)
  }

  function EntriesOf(given: Given): seq<Octets> {
    seq(|given|, i requires 0 <= i < |given| => Entry(given[i].0.bytes, BytesOf(given[i].1)))
  }

  predicate HasText(given: Given) {
    exists i :: 0 <= i < |given| && (given[i].0.Str? || (given[i].1.Some? && given[i].1.value.Str?))
  }

  /** The given properties as plain bytes. */
  function Plain(given: Given): Properties {
    seq(|given|, i requires 0 <= i < |given| => (given[i].0.bytes, BytesOf(given[i].1)))
  }

  /** The entries of any text; the last one is cut short when the text ends early. */
  function Split(text: Octets): seq<Octets>
    decreases |text|
  {
    if text == [] then []
    else
      var next := (text[0] as int) + 1;
      [Slice(text, 1, next)] + Split(Slice(text, next, |text|))
  }

  /** `partition(b"=")`: the part before the first "=", and what follows it, if anything does. */
  function KeyOf(entry: Octets): Octets {
    if entry == [] || entry[0] == EQUALS then [] else [entry[0]] + KeyOf(entry[1..])
  }

  function ValueOf(entry: Octets): Option<Octets> {
    if |KeyOf(entry)| + 1 < |entry| then Some(entry[|KeyOf(entry)| + 1..]) else None
  }

  predicate HasKey(properties: Properties, key: Octets) {
    exists i :: 0 <= i < |properties| && properties[i].0 == key
  }

  /** The first entry of each key counts. */
  function Unpacked(entries: seq<Octets>): Properties {
    if entries == [] then []
    else
      var front, last := Unpacked(entries[..|entries| - 1]), entries[|entries| - 1];
      if HasKey(front, KeyOf(last)) then front else front + [(KeyOf(last), ValueOf(last))]
  }

  /** An entry is its key, up to the first "=", and a value behind that if there is anything behind it. */
  lemma KeyLength(entry: Octets)
    ensures |KeyOf(entry)| <= |entry| && KeyOf(entry) == entry[..|KeyOf(entry)|]
    ensures 61 !in KeyOf(entry)
    ensures |KeyOf(entry)| < |entry| ==> entry[|KeyOf(entry)|] == 61
    ensures |KeyOf(entry)| + 1 < |entry| ==> ValueOf(entry) == Some(entry[|KeyOf(entry)| + 1..])
    ensures |KeyOf(entry)| + 1 >= |entry| ==> ValueOf(entry) == None
    ensures ValueOf(entry) != Some([])
  {
    if entry != [] && entry[0] != EQUALS {
      KeyLength(entry[1..]);
    }
  }

  class ServiceInfo {
    var text: Octets
    var properties: Option<Properties>

    constructor (text: Octets)
      ensures this.text == text && properties == None
    {
      this.text, properties := text, None;
    }

    /** `_set_properties`; an entry of more than 255 bytes is refused and leaves everything as it was. */
    method SetProperties(given: Given) returns (outcome: Outcome)
      modifies this
      ensures TextOf(EntriesOf(given)).Failure? ==>
                outcome == Fail(ValueError) && text == old(text) && properties == old(properties)
      ensures TextOf(EntriesOf(given)).Success? ==>
                && outcome.Pass? && text == TextOf(EntriesOf(given)).value
                && properties == if HasText(given) then old(properties) else Some(Plain(given))
    {
      hide EntriesOf, HasText, Entry, TextOf, Plain;
      var entries: seq<Octets> := [];
      var containStr := false;
      NothingGiven();
      for i := 0 to |given|
        modifies {}
        invariant entries == EntriesOf(given[..i]) && containStr == HasText(given[..i])
      {
        assert given[..i + 1] == given[..i] + [given[i]];
        HasTextSnoc(given[..i], given[i]);
        EntriesSnoc(given[..i], given[i]);
        var (key, value) := given[i];
        if key.Str? {
          containStr := true;
        }
        var record := key.bytes;
        if value.Some? {
          if value.value.Str? {
            containStr := true;
          }
          record := record + ([EQUALS] + value.value.bytes);
        }
        EntryIs(key.bytes, BytesOf(value), record);
        entries := entries + [record];
      }
      assert given[..|given|] == given;
      var result: Octets := [];
      for i := 0 to |entries|
        modifies {}
        invariant TextOf(entries[..i]) == Success(result)
      {
        TextSnoc(entries, i, result);
        if |entries[i]| > 255 {
          LongEntry(entries, i);
          return Fail(ValueError);
        }
        result := result + [|entries[i]|] + entries[i];
      }
      assert entries[..|entries|] == entries;
      if !containStr {
        properties := Some(Plain(given));
      }
      text := result;
      return Pass;
    }

    /** `_unpack_text_into_properties` */
    method UnpackTextIntoProperties()
      modifies this`properties
      ensures properties == Some(Unpacked(Split(text)))
    {
      hide Split, Unpacked, HasKey, KeyOf, ValueOf;
      var end := |text|;
      FirstEntry(text);
      if end == 0 {
        properties := Some([]);
        return;
      }
      var index := 0;
      var found: Properties := [];
      ghost var entries: seq<Octets> := [];
      while index < end
        modifies {}
        invariant 0 <= index
        invariant found == Unpacked(entries)
        invariant Split(text) == entries + Split(Slice(text, index, end))
        decreases end - index
      {
        var length := text[index];
        index := index + 1;
        var keyValue := Slice(text, index, index + length);
        NextEntry(text, entries, index - 1, length, keyValue);
        UnpackedSnoc(entries, keyValue);
        var key, value := Partition(keyValue);
        if !HasKey(found, key) {
          found := found + [(key, value)];
        }
        entries := entries + [keyValue];
        index := index + length;
      }
      LastEntry(text, entries, index);
      properties := Some(found);
    }
  }

  lemma FirstEntry(text: Octets)
    ensures Split(text) == [] + Split(Slice(text, 0, |text|))
    ensures text == [] ==> Unpacked(Split(text)) == []
    ensures Unpacked([]) == []
  {
    assert Slice(text, 0, |text|) == text;
  }

  lemma LastEntry(text: Octets, entries: seq<Octets>, index: nat)
    requires index >= |text| && Split(text) == entries + Split(Slice(text, index, |text|))
    ensures Split(text) == entries
  {
  }

  lemma UnpackedSnoc(entries: seq<Octets>, entry: Octets)
    ensures Unpacked(entries + [entry])
         == Unpacked(entries) + if HasKey(Unpacked(entries), KeyOf(entry)) then [] else [(KeyOf(entry), ValueOf(entry))]
  {
    assert (entries + [entry])[..|entries|] == entries;
  }

  /** `key_value.partition(b"=")`, with an empty value read as none */
  method Partition(entry: Octets) returns (key: Octets, value: Option<Octets>)
    ensures key == KeyOf(entry) && value == ValueOf(entry)
  {
    KeyLength(entry);
    var i := 0;
    while i < |entry| && entry[i] != EQUALS
      invariant 0 <= i <= |KeyOf(entry)|
    {
      i := i + 1;
    }
    key := entry[..i];
    value := if i + 1 < |entry| then Some(entry[i + 1..]) else None;
  }

  lemma NothingGiven()
    ensures EntriesOf([]) == [] && !HasText([]) && TextOf([]) == Success([])
  {
  }

  lemma EntriesSnoc(given: Given, one: (Data, Option<Data>))
    ensures EntriesOf(given + [one]) == EntriesOf(given) + [Entry(one.0.bytes, BytesOf(one.1))]
  {
  }

  /** One property more: a length byte, the key, and "=" with the value, if there is one. */
  lemma TextMore(given: Given, one: (Data, Option<Data>))
    requires TextOf(EntriesOf(given)).Success?
    ensures var entry := one.0.bytes + (if one.1.None? then [] else [61] + one.1.value.bytes);
            TextOf(EntriesOf(given + [one]))
            == if |entry| > 255 then Failure(ValueError)
               else Success(TextOf(EntriesOf(given)).value + [|entry|] + entry)
  {
    var entry := one.0.bytes + (if one.1.None? then [] else [61] + one.1.value.bytes);
    EntriesSnoc(given, one);
    assert Entry(one.0.bytes, BytesOf(one.1)) == entry;
    assert EntriesOf(given + [one])[..|given|] == EntriesOf(given);
  }

  lemma EntryIs(key: Octets, value: Option<Octets>, record: Octets)
    requires record == match value { case None => key case Some(v) => key + ([EQUALS] + v) }
    ensures record == Entry(key, value)
  {
  }

  lemma TextSnoc(entries: seq<Octets>, i: nat, text: Octets)
    requires i < |entries| && TextOf(entries[..i]) == Success(text)
    ensures |entries[i]| <= 255 ==> TextOf(entries[..i + 1]) == Success(text + [|entries[i]|] + entries[i])
  {
    assert entries[..i + 1][..i] == entries[..i];
  }

  lemma HasTextSnoc(given: Given, one: (Data, Option<Data>))
    ensures HasText(given + [one]) == (HasText(given) || one.0.Str? || (one.1.Some? && one.1.value.Str?))
  {
    var all := given + [one];
    assert forall i :: 0 <= i < |given| ==> all[i] == given[i];
    assert all[|given|] == one;
  }

  lemma {:induction false} LongEntry(entries: seq<Octets>, i: nat)
    requires i < |entries| && |entries[i]| > 255
    ensures TextOf(entries) == Failure(ValueError)
    decreases |entries|
  {
    if i < |entries| - 1 {
      LongEntry(entries[..|entries| - 1], i);
    } else {
      TextFails(entries[..|entries| - 1]);
    }
  }

  lemma {:induction false} TextFails(entries: seq<Octets>)
    ensures TextOf(entries).Failure? ==> TextOf(entries) == Failure(ValueError)
    ensures TextOf(entries).Success? <==> forall e :: e in entries ==> |e| <= 255
  {
    if entries != [] {
      TextFails(entries[..|entries| - 1]);
      assert entries == entries[..|entries| - 1] + [entries[|entries| - 1]];
    }
  }

  lemma NextEntry(text: Octets, entries: seq<Octets>, index: nat, length: nat, entry: Octets)
    requires index < |text| && length == text[index] && entry == Slice(text, index + 1, index + 1 + length)
    requires Split(text) == entries + Split(Slice(text, index, |text|))
    ensures Split(text) == entries + [entry] + Split(Slice(text, index + 1 + length, |text|))
  {
    hide Split;
    var rest := Slice(text, index, |text|);
    assert rest == text[index..];
    SliceOn(text, index, 1, 1 + length);
    SliceOn(text, index, 1 + length, |rest|);
    SplitStep(rest);
    Regroup(entries, [entry], Split(Slice(text, index + 1 + length, |text|)));
  }

  lemma SplitStep(text: Octets)
    requires text != []
    ensures var next := (text[0] as int) + 1;
            Split(text) == [Slice(text, 1, next)] + Split(Slice(text, next, |text|))
  {
  }

  lemma SliceOn(text: Octets, index: nat, a: nat, b: nat)
    requires index < |text|
    ensures Slice(text[index..], a, b) == Slice(text, index + a, index + b)
  {
    var s, t := Slice(text[index..], a, b), Slice(text, index + a, index + b);
    assert |s| == |t| && forall k :: 0 <= k < |s| ==> s[k] == t[k];
  }

  // ---------- round trip, and what any text gives ----------

  lemma SplitFirst(text: Octets, entry: Octets, rest: Octets)
    requires |entry| <= 255 && text == [|entry|] + entry + rest
    ensures Split(text) == [entry] + Split(rest)
  {
    hide Split;
    var n := |entry|;
    SplitStep(text);
    assert text[1..1 + n] == entry && text[1 + n..] == rest;
    assert Slice(text, 1, 1 + n) == entry;
    assert Slice(text, 1 + n, |text|) == rest;
  }

  lemma {:induction false} SplitText(entries: seq<Octets>, more: Octets)
    requires TextOf(entries).Success?
    ensures Split(TextOf(entries).value + more) == entries + Split(more)
  {
    hide Split;
    if entries == [] {
      assert [] + more == more && [] + Split(more) == Split(more);
    } else {
      var front, last := entries[..|entries| - 1], entries[|entries| - 1];
      var tail := [|last|] + last + more;
      assert TextOf(front).value + [|last|] + last + more == TextOf(front).value + tail;
      SplitText(front, tail);
      SplitFirst(tail, last, more);
      Regroup(front, [last], Split(more));
      assert entries == front + [last];
    }
  }

  lemma {:induction false} KeyOfKey(key: Octets, rest: Octets)
    requires EQUALS !in key && (rest == [] || rest[0] == EQUALS)
    ensures KeyOf(key + rest) == key
  {
    if key == [] {
      assert key + rest == rest;
    } else {
      assert (key + rest)[1..] == key[1..] + rest;
      KeyOfKey(key[1..], rest);
    }
  }

  /** Reading back an entry whose key has no "=" and whose value is absent or not empty. */
  lemma EntryReads(key: Octets, value: Option<Octets>)
    requires EQUALS !in key && value != Some([])
    ensures KeyOf(Entry(key, value)) == key && ValueOf(Entry(key, value)) == value
  {
    match value
    case None =>
      KeyOfKey(key, []);
      assert key + [] == key;
    case Some(v) =>
      KeyOfKey(key, [EQUALS] + v);
      assert key + ([EQUALS] + v) == Entry(key, value);
  }

  ghost predicate DistinctKeys(properties: Properties) {
    forall i, j :: 0 <= i < j < |properties| ==> properties[i].0 != properties[j].0
  }

  predicate Readable(properties: Properties) {
    forall i :: 0 <= i < |properties| ==> EQUALS !in properties[i].0 && properties[i].1 != Some([])
  }

  function EntriesFor(properties: Properties): seq<Octets> {
    seq(|properties|, i requires 0 <= i < |properties| => Entry(properties[i].0, properties[i].1))
  }

  lemma UnpackedNone()
    ensures Unpacked(EntriesFor([])) == []
  {
  }

  lemma {:induction false} UnpackEntries(properties: Properties)
    requires DistinctKeys(properties) && Readable(properties)
    ensures Unpacked(EntriesFor(properties)) == properties
  {
    hide KeyOf, ValueOf, Entry, Unpacked;
    if properties == [] {
      UnpackedNone();
    } else {
      var front, last := properties[..|properties| - 1], properties[|properties| - 1];
      UnpackEntries(front);
      EntryReads(last.0, last.1);
      assert EntriesFor(properties) == EntriesFor(front) + [Entry(last.0, last.1)];
      UnpackedSnoc(EntriesFor(front), Entry(last.0, last.1));
      assert properties == front + [last];
    }
  }

  /** Whatever the text: keys come once each, none contains "=", no value is empty, and each key has the value of its
      first entry. */
  lemma {:induction false} UnpackedFirst(entries: seq<Octets>)
    ensures DistinctKeys(Unpacked(entries)) && Readable(Unpacked(entries))
    ensures forall key :: HasKey(Unpacked(entries), key) <==> exists e :: e in entries && KeyOf(e) == key
    ensures forall p :: p in Unpacked(entries) ==> exists k :: 0 <= k < |entries| && IsFirst(entries, k, p)
  {
    if entries != [] {
      var front, last := entries[..|entries| - 1], entries[|entries| - 1];
      UnpackedFirst(front);
      KeyLength(last);
      assert entries == front + [last];
      UnpackedStep(front, last);
    }
  }

  /** Entry `k` is the first with its key, and says what the property says. */
  ghost predicate IsFirst(entries: seq<Octets>, k: nat, p: (Octets, Option<Octets>)) {
    && k < |entries| && KeyOf(entries[k]) == p.0 && ValueOf(entries[k]) == p.1
    && forall j :: 0 <= j < k ==> KeyOf(entries[j]) != p.0
  }

  lemma UnpackedStep(front: seq<Octets>, last: Octets)
    requires DistinctKeys(Unpacked(front)) && Readable(Unpacked(front))
    requires forall key :: HasKey(Unpacked(front), key) <==> exists e :: e in front && KeyOf(e) == key
    requires forall p :: p in Unpacked(front) ==> exists k :: 0 <= k < |front| && IsFirst(front, k, p)
    ensures var entries := front + [last];
            && DistinctKeys(Unpacked(entries)) && Readable(Unpacked(entries))
            && (forall key :: HasKey(Unpacked(entries), key) <==> exists e :: e in entries && KeyOf(e) == key)
            && (forall p :: p in Unpacked(entries) ==> exists k :: 0 <= k < |entries| && IsFirst(entries, k, p))
  {
    var entries, before := front + [last], Unpacked(front);
    UnpackedSnoc(front, last);
    KeyLength(last);
    var after := Unpacked(entries);
    hide KeyOf, ValueOf, Unpacked;
    assert forall e :: e in entries <==> e in front || e == last;
    assert last in entries;
    if !HasKey(before, KeyOf(last)) {
      HasKeySnoc(before, (KeyOf(last), ValueOf(last)));
      assert IsFirst(entries, |front|, (KeyOf(last), ValueOf(last)));
    } else {
      assert after == before;
    }
    forall key
      ensures HasKey(after, key) <==> exists e :: e in entries && KeyOf(e) == key
    {
      if HasKey(before, key) {
        var e :| e in front && KeyOf(e) == key;
        assert e in entries;
      }
      if e :| e in entries && KeyOf(e) == key && e != last {
        assert e in front;
      }
    }
    forall p | p in after
      ensures exists k :: 0 <= k < |entries| && IsFirst(entries, k, p)
    {
      if p in before {
        var k :| 0 <= k < |front| && IsFirst(front, k, p);
        assert IsFirst(entries, k, p);
      }
    }
  }

  lemma HasKeySnoc(before: Properties, p: (Octets, Option<Octets>))
    ensures forall key :: HasKey(before + [p], key) <==> HasKey(before, key) || key == p.0
  {
    var after := before + [p];
    assert after[|before|] == p;
    forall key
      ensures HasKey(after, key) <==> HasKey(before, key) || key == p.0
    {
      if HasKey(before, key) {
        var i :| 0 <= i < |before| && before[i].0 == key;
        assert after[i].0 == key;
      }
    }
  }

  /** The exact round trip: properties whose entries fit 255 bytes are read back from their text if and only if no key
      contains "=" and no value is empty. */
  lemma TxtRoundTrip(properties: Properties)
    requires DistinctKeys(properties) && forall e :: e in EntriesFor(properties) ==> |e| <= 255
    ensures var text := TextOf(EntriesFor(properties));
            text.Success? && (Unpacked(Split(text.value)) == properties <==> Readable(properties))
  {
    var entries := EntriesFor(properties);
    TextFails(entries);
    var text := TextOf(entries).value;
    SplitText(entries, []);
    assert text + [] == text && entries + Split([]) == entries;
    if Readable(properties) {
      UnpackEntries(properties);
    }
    UnpackedFirst(entries);
  }

  /** The entries `SetProperties` writes. */
  lemma GivenEntries(given: Given)
    ensures EntriesOf(given) == EntriesFor(Plain(given))
  {
  }

  /** Setting properties and unpacking the text again gives back what was set, text as its bytes, if and only if no key
      contains "=" and no value is empty. */
  method SetThenUnpack(info: ServiceInfo, given: Given)
    requires DistinctKeys(Plain(given)) && forall e :: e in EntriesOf(given) ==> |e| <= 255
    modifies info
    ensures info.properties == Some(Plain(given)) <==> Readable(Plain(given))
  {
    hide TextOf, EntriesOf, EntriesFor, Plain, Unpacked, Split, Readable, DistinctKeys;
    GivenEntries(given);
    TxtRoundTrip(Plain(given));
    var outcome := info.SetProperties(given);
    assert outcome.Pass?;
    info.UnpackTextIntoProperties();
  }
}
