/** Flask's tagged JSON: values that JSON cannot hold become one-item objects whose key is a tag. */
module TaggedJson {
  import opened Results

  type Key = string

  /** Python values with string-keyed dictionaries. A special value is of a kind that only a tag of its own can
      turn into JSON: bytes, markup, UUIDs, dates. */
  datatype Value =
    | Null
    | Bool(b: bool)
    | Number(n: real)
    | Text(s: string)
    | List(elements: seq<Value>)
    | Tuple(elements: seq<Value>)
    | Dict(items: seq<(Key, Value)>)
    | Special(kind: nat, payload: string)

  /** The tag classes. `PassDict` and `PassList` have no key: they only hand their items on. */
  datatype Tag =
    | TagDict(key: Key)
    | PassDict
    | TagTuple(key: Key)
    | PassList
    | TagLeaf(kind: nat, key: Key)
  {
    function KeyOf(): Key {
      match this
      case PassDict => ""
      case PassList => ""
      case TagDict(k) => k
      case TagTuple(k) => k
      case TagLeaf(_, k) => k
    }
  }

  /** How leaf tags write and read their values; reading may fail, and never gives a dictionary. */
  datatype Codec = Codec(encode: (nat, string) -> string, decode: (nat, Value) -> Option<Value>) {
    ghost predicate Inverts() {
      && (forall kind, p :: decode(kind, Text(encode(kind, p))) == Some(Special(kind, p)))
      && (forall kind, v :: decode(kind, v).Some? ==> !decode(kind, v).value.Dict?)
    }
  }

  type Tags = map<Key, Tag>

  datatype Serializer = Serializer(tags: Tags, order: seq<Tag>, codec: Codec)

  /** `check` */
  predicate Checks(tags: Tags, t: Tag, v: Value) {
    match t
    case TagDict(_) => v.Dict? && |v.items| == 1 && v.items[0].0 in tags
    case PassDict => v.Dict?
    case TagTuple(_) => v.Tuple?
    case PassList => v.List?
    case TagLeaf(kind, _) => v.Special? && v.kind == kind
  }

  /** The first tag in order that checks. */
  function First(tags: Tags, order: seq<Tag>, v: Value): (r: Option<Tag>)
    ensures r.Some? ==> Checks(tags, r.value, v)
  {
    if order == [] then None
    else if Checks(tags, order[0], v) then Some(order[0])
    else First(tags, order[1..], v)
  }

  const SUFFIX: Key := "__"

  /** `tag` */
  function Tagged(s: Serializer, v: Value): Value
    decreases v
  {
    match First(s.tags, s.order, v)
    case None => v
    case Some(TagDict(key)) =>
      Dict([(key, Dict([(v.items[0].0 + SUFFIX, Tagged(s, v.items[0].1))]))])
    case Some(PassDict) =>
      Dict(seq(|v.items|, i requires 0 <= i < |v.items| => (v.items[i].0, Tagged(s, v.items[i].1))))
    case Some(TagTuple(key)) =>
      Dict([(key, List(seq(|v.elements|, i requires 0 <= i < |v.elements| => Tagged(s, v.elements[i]))))])
    case Some(PassList) =>
      List(seq(|v.elements|, i requires 0 <= i < |v.elements| => Tagged(s, v.elements[i])))
    case Some(TagLeaf(kind, key)) =>
      Dict([(key, Text(s.codec.encode(kind, v.payload)))])
  }

  /** `key[:-2]` */
  function DropSuffix(key: Key): Key {
    if |key| >= 2 then key[..|key| - 2] else ""
  }

  /** `to_python`; `None` stands for an exception. */
  function ToPython(codec: Codec, t: Tag, v: Value): Option<Value> {
    match t
    case TagDict(_) =>
      if v.Dict? && v.items != [] then Some(Dict([(DropSuffix(v.items[0].0), v.items[0].1)])) else None
    case TagTuple(_) => (
      match v
      case List(elements) => Some(Tuple(elements))
      case Tuple(elements) => Some(v)
      case Dict(items) => Some(Tuple(seq(|items|, i requires 0 <= i < |items| => Text(items[i].0))))
      case Text(text) => Some(Tuple(seq(|text|, i requires 0 <= i < |text| => Text([text[i]]))))
      case _ => None)
    case TagLeaf(kind, _) => codec.decode(kind, v)
    case _ => None
  }

  /** `untag` */
  function Untag(s: Serializer, items: seq<(Key, Value)>): Option<Value> {
    if |items| != 1 || items[0].0 !in s.tags then Some(Dict(items))
    else ToPython(s.codec, s.tags[items[0].0], items[0].1)
  }

  /** `_untag_scan` */
  function UntagScan(s: Serializer, v: Value): Option<Value>
    decreases v
  {
    match v
    case Dict(items) =>
      var scanned := seq(|items|, i requires 0 <= i < |items| => UntagScan(s, items[i].1));
      if exists i :: 0 <= i < |scanned| && scanned[i].None? then None
      else Untag(s, seq(|items|, i requires 0 <= i < |items| => (items[i].0, scanned[i].value)))
    case List(elements) =>
      var scanned := seq(|elements|, i requires 0 <= i < |elements| => UntagScan(s, elements[i]));
      if exists i :: 0 <= i < |scanned| && scanned[i].None? then None
      else Some(List(seq(|scanned|, i requires 0 <= i < |scanned| => scanned[i].value)))
    case _ => Some(v)
  }

  // ---------- well-made serializers ----------

  datatype Shape = Bare | DictShape | TupleShape | ListShape | LeafShape(kind: nat)

  function ShapeOf(v: Value): Shape {
    match v
    case Dict(_) => DictShape
    case Tuple(_) => TupleShape
    case List(_) => ListShape
    case Special(kind, _) => LeafShape(kind)
    case _ => Bare
  }

  /** The shape of values a tag may speak for. */
  function Concern(t: Tag): Shape {
    match t
    case TagDict(_) => DictShape
    case PassDict => DictShape
    case TagTuple(_) => TupleShape
    case PassList => ListShape
    case TagLeaf(kind, _) => LeafShape(kind)
  }

  /** The tags for one shape, in order. */
  function Kin(order: seq<Tag>, shape: Shape): seq<Tag> {
    if order == [] then []
    else if Concern(order[0]) == shape then [order[0]] + Kin(order[1..], shape)
    else Kin(order[1..], shape)
  }

  lemma {:induction false} FirstKin(tags: Tags, order: seq<Tag>, v: Value)
    ensures First(tags, order, v) == First(tags, Kin(order, ShapeOf(v)), v)
  {
    if order != [] {
      FirstKin(tags, order[1..], v);
      if Concern(order[0]) == ShapeOf(v) {
        assert ([order[0]] + Kin(order[1..], ShapeOf(v)))[1..] == Kin(order[1..], ShapeOf(v));
      }
    }
  }

  /** A registered tag answers to its own key. */
  ghost predicate Answers(tags: Tags, t: Tag) {
    t.KeyOf() in tags && tags[t.KeyOf()] == t
  }

  /** One-item dictionaries are looked at before dictionaries in general, tuples and lists have their tags, and each
      tag that comes first for its values is the one its key leads to. */
  ghost predicate Structured(s: Serializer) {
    var dicts, tuples, lists := Kin(s.order, DictShape), Kin(s.order, TupleShape), Kin(s.order, ListShape);
    && |dicts| >= 2 && dicts[0].TagDict? && Answers(s.tags, dicts[0]) && dicts[1].PassDict?
    && |tuples| >= 1 && Answers(s.tags, tuples[0])
    && |lists| >= 1
    && (forall kind :: Kin(s.order, LeafShape(kind)) != [] ==> Answers(s.tags, Kin(s.order, LeafShape(kind))[0]))
    && (forall k :: k in s.tags ==> !s.tags[k].PassDict? && !s.tags[k].PassList?)
  }

  /** No key with the suffix added is a key again. */
  ghost predicate NoClash(tags: Tags) {
    forall k :: k in tags ==> k + SUFFIX !in tags
  }

  /** Every special value inside is of a kind with a tag. */
  predicate Supported(s: Serializer, v: Value)
    decreases v
  {
    match v
    case Special(kind, _) => Kin(s.order, LeafShape(kind)) != []
    case List(elements) => forall i :: 0 <= i < |elements| ==> Supported(s, elements[i])
    case Tuple(elements) => forall i :: 0 <= i < |elements| ==> Supported(s, elements[i])
    case Dict(items) => forall i :: 0 <= i < |items| ==> Supported(s, items[i].1)
    case _ => true
  }

  lemma {:induction false} KinConcern(order: seq<Tag>, shape: Shape)
    ensures forall t :: t in Kin(order, shape) ==> Concern(t) == shape
  {
    if order != [] {
      KinConcern(order[1..], shape);
    }
  }

  /** Which tag a value gets. */
  lemma TagFor(s: Serializer, v: Value)
    requires Structured(s)
    ensures match v
            case Dict(items) => (
              if |items| == 1 && items[0].0 in s.tags
              then First(s.tags, s.order, v) == Some(Kin(s.order, DictShape)[0])
              else First(s.tags, s.order, v) == Some(PassDict))
            case Tuple(_) => First(s.tags, s.order, v) == Some(Kin(s.order, TupleShape)[0])
            case List(_) => First(s.tags, s.order, v) == Some(PassList)
            case Special(kind, _) =>
              First(s.tags, s.order, v)
              == if Kin(s.order, LeafShape(kind)) == [] then None else Some(Kin(s.order, LeafShape(kind))[0])
            case _ => First(s.tags, s.order, v) == None
  {
    var kin := Kin(s.order, ShapeOf(v));
    FirstKin(s.tags, s.order, v);
    KinConcern(s.order, ShapeOf(v));
    if kin != [] {
      assert kin[0] in kin;
      if |kin| > 1 {
        assert kin[1..][0] == kin[1];
      }
    }
  }

  // ---------- the round trip ----------

  ghost predicate RoundTrips(s: Serializer, v: Value) {
    UntagScan(s, Tagged(s, v)) == Some(v)
  }

  /** Reading a dictionary whose items read back. */
  lemma ScanDict(s: Serializer, json: seq<(Key, Value)>, items: seq<(Key, Value)>)
    requires |json| == |items|
    requires forall i :: 0 <= i < |items| ==> json[i].0 == items[i].0 && UntagScan(s, json[i].1) == Some(items[i].1)
    ensures UntagScan(s, Dict(json)) == Untag(s, items)
  {
    var scanned := seq(|json|, i requires 0 <= i < |json| => UntagScan(s, json[i].1));
    assert seq(|json|, i requires 0 <= i < |json| => (json[i].0, scanned[i].value)) == items;
  }

  lemma ScanOne(s: Serializer, key: Key, json: Value, v: Value)
    requires UntagScan(s, json) == Some(v)
    ensures UntagScan(s, Dict([(key, json)])) == Untag(s, [(key, v)])
  {
    ScanDict(s, [(key, json)], [(key, v)]);
  }

  lemma ScanList(s: Serializer, json: seq<Value>, elements: seq<Value>)
    requires |json| == |elements|
    requires forall i :: 0 <= i < |elements| ==> UntagScan(s, json[i]) == Some(elements[i])
    ensures UntagScan(s, List(json)) == Some(List(elements))
  {
    var scanned := seq(|json|, i requires 0 <= i < |json| => UntagScan(s, json[i]));
    assert seq(|scanned|, i requires 0 <= i < |scanned| => scanned[i].value) == elements;
  }

  lemma DropAdded(key: Key)
    ensures DropSuffix(key + SUFFIX) == key
  {
    assert (key + SUFFIX)[..|key|] == key;
  }

  /** A one-item dictionary whose key is itself a tag. */
  lemma DictRoundTrip(s: Serializer, key: Key, v: Value)
    requires Structured(s) && NoClash(s.tags) && key in s.tags && RoundTrips(s, v)
    ensures RoundTrips(s, Dict([(key, v)]))
  {
    var whole, tag := Dict([(key, v)]), Kin(s.order, DictShape)[0];
    TagFor(s, whole);
    assert Tagged(s, whole) == Dict([(tag.key, Dict([(key + SUFFIX, Tagged(s, v))]))]);
    ScanOne(s, key + SUFFIX, Tagged(s, v), v);
    ScanOne(s, tag.key, Dict([(key + SUFFIX, Tagged(s, v))]), Dict([(key + SUFFIX, v)]));
    DropAdded(key);
  }

  /** Any value made of dictionaries, lists, tuples, scalars and special values with tags of their own comes back. */
  lemma {:induction false} RoundTrip(s: Serializer, v: Value)
    requires Structured(s) && NoClash(s.tags) && s.codec.Inverts() && Supported(s, v)
    ensures RoundTrips(s, v)
    decreases v
  {
    hide Structured, NoClash, Kin, First;
    TagFor(s, v);
    match v {
      case Dict(items) =>
        forall i | 0 <= i < |items|
          ensures RoundTrips(s, items[i].1)
        {
          RoundTrip(s, items[i].1);
        }
        if |items| == 1 && items[0].0 in s.tags {
          assert v == Dict([(items[0].0, items[0].1)]);
          DictRoundTrip(s, items[0].0, items[0].1);
        } else {
          var json := seq(|items|, i requires 0 <= i < |items| => (items[i].0, Tagged(s, items[i].1)));
          ScanDict(s, json, items);
        }
      case Tuple(elements) =>
        RoundTripAll(s, v, elements);
        TupleRoundTrip(s, elements);
      case List(elements) =>
        RoundTripAll(s, v, elements);
        ScanList(s, seq(|elements|, i requires 0 <= i < |elements| => Tagged(s, elements[i])), elements);
      case Special(kind, payload) =>
        LeafRoundTrip(s, kind, payload);
      case _ =>
    }
  }

  lemma {:induction false} RoundTripAll(s: Serializer, v: Value, elements: seq<Value>)
    requires Structured(s) && NoClash(s.tags) && s.codec.Inverts() && Supported(s, v)
    requires v == List(elements) || v == Tuple(elements)
    ensures forall i :: 0 <= i < |elements| ==> RoundTrips(s, elements[i])
    decreases v, 0
  {
    forall i | 0 <= i < |elements|
      ensures RoundTrips(s, elements[i])
    {
      RoundTrip(s, elements[i]);
    }
  }

  lemma TupleRoundTrip(s: Serializer, elements: seq<Value>)
    requires Structured(s) && forall i :: 0 <= i < |elements| ==> RoundTrips(s, elements[i])
    ensures RoundTrips(s, Tuple(elements))
  {
    var tag := Kin(s.order, TupleShape)[0];
    KinConcern(s.order, TupleShape);
    assert tag in Kin(s.order, TupleShape);
    TagFor(s, Tuple(elements));
    var json := seq(|elements|, i requires 0 <= i < |elements| => Tagged(s, elements[i]));
    ScanList(s, json, elements);
    ScanOne(s, tag.key, List(json), List(elements));
  }

  lemma LeafRoundTrip(s: Serializer, kind: nat, payload: string)
    requires Structured(s) && s.codec.Inverts() && Kin(s.order, LeafShape(kind)) != []
    ensures RoundTrips(s, Special(kind, payload))
  {
    var tag := Kin(s.order, LeafShape(kind))[0];
    KinConcern(s.order, LeafShape(kind));
    assert tag in Kin(s.order, LeafShape(kind));
    TagFor(s, Special(kind, payload));
    var text := Text(s.codec.encode(kind, payload));
    ScanOne(s, tag.key, text, text);
  }

  /** Two keys of which one is the other with the suffix break the round trip. */
  lemma ClashBreaks(s: Serializer, key: Key)
    requires Structured(s) && s.codec.Inverts() && key in s.tags && key + SUFFIX in s.tags
    ensures Supported(s, Dict([(key, Null)])) && !RoundTrips(s, Dict([(key, Null)]))
  {
    var whole, tag, long := Dict([(key, Null)]), Kin(s.order, DictShape)[0], key + SUFFIX;
    TagFor(s, whole);
    TagFor(s, Null);
    var inner := Dict([(long, Null)]);
    assert Tagged(s, whole) == Dict([(tag.key, inner)]);
    ScanOne(s, long, Null, Null);
    var read := ToPython(s.codec, s.tags[long], Null);
    assert UntagScan(s, inner) == read && (read.None? || !read.value.Dict?);
    if read.Some? {
      ScanOne(s, tag.key, inner, read.value);
    } else {
      ScanFails(s, tag.key, inner);
    }
  }

  lemma ScanFails(s: Serializer, key: Key, json: Value)
    requires UntagScan(s, json) == None
    ensures UntagScan(s, Dict([(key, json)])) == None
  {
    var items := [(key, json)];
    var scanned := seq(|items|, i requires 0 <= i < |items| => UntagScan(s, items[i].1));
    assert scanned[0].None?;
  }

  /** The exact condition: every supported value comes back if and only if no key with the suffix is a key. */
  lemma RoundTripExact(s: Serializer)
    requires Structured(s) && s.codec.Inverts()
    ensures NoClash(s.tags) <==> forall v :: Supported(s, v) ==> RoundTrips(s, v)
  {
    hide Structured, RoundTrips, Codec.Inverts;
    if NoClash(s.tags) {
      forall v | Supported(s, v)
        ensures RoundTrips(s, v)
      {
        RoundTrip(s, v);
      }
    } else {
      var key :| key in s.tags && key + SUFFIX in s.tags;
      ClashBreaks(s, key);
    }
  }

  // ---------- registering tags ----------

  const BYTES := 0
  const MARKUP := 1
  const UUID := 2
  const DATETIME := 3

  const DEFAULT_TAGS: seq<Tag> := [TagDict(" di"), PassDict, TagTuple(" t"), PassList, TagLeaf(BYTES, " b"),
                                   TagLeaf(MARKUP, " m"), TagLeaf(UUID, " u"), TagLeaf(DATETIME, " d")]

  /** `list.insert`: an index counts from the end when negative, and is cut to the list. */
  function Place(length: nat, index: int): (r: nat)
    ensures r <= length
  {
    var i := if index < 0 then index + length else index;
    if i < 0 then 0 else if i > length then length else i
  }

  function Registered(s: Serializer, t: Tag, index: Option<int>): Serializer {
    var at := if index.None? then |s.order| else Place(|s.order|, index.value);
    s.(tags := if t.KeyOf() == "" then s.tags else s.tags[t.KeyOf() := t],
       order := s.order[..at] + [t] + s.order[at..])
  }

  class TaggedJSONSerializer {
    var tags: Tags
    var order: seq<Tag>
    const codec: Codec

    ghost function View(): Serializer
      reads this
    {
      Serializer(tags, order, codec)
    }

    /** `register`: without `force` a key is not given away twice. */
    method Register(t: Tag, force: bool, index: Option<int>) returns (outcome: Outcome)
      modifies this
      ensures outcome.Fail? <==> t.KeyOf() != "" && !force && t.KeyOf() in old(tags)
      ensures outcome.Fail? ==> outcome.error == KeyError && View() == old(View())
      ensures outcome.Pass? ==> View() == Registered(old(View()), t, index)
      ensures outcome.Pass? ==>
                && tags == (if t.KeyOf() == "" then old(tags) else old(tags)[t.KeyOf() := t])
                && var n := old(|order|);
                   var at := if index.None? || index.value >= n then n
                             else if index.value >= 0 then index.value
                             else if n + index.value >= 0 then n + index.value
                             else 0;
                   order == old(order)[..at] + [t] + old(order)[at..]
    {
      var key := t.KeyOf();
      if key != "" {
        if !force && key in tags {
          return Fail(KeyError);
        }
        tags := tags[key := t];
      }
      if index.None? {
        order := order + [t];
      } else {
        var at := Place(|order|, index.value);
        order := order[..at] + [t] + order[at..];
      }
      return Pass;
    }

    /** The serializer with the default tags: every supported value makes the round trip. */
    constructor (codec: Codec)
      ensures View().codec == codec && IsDefault(View())
      ensures Structured(View()) && NoClash(tags)
    {
      this.codec := codec;
      tags, order := map[], [];
      new;
      for i := 0 to |DEFAULT_TAGS|
        invariant order == DEFAULT_TAGS[..i] && KeyedBy(tags, DEFAULT_TAGS[..i])
      {
        hide KeyedBy, Tag.KeyOf;
        DefaultStep(tags, i);
        var t := DEFAULT_TAGS[i];
        var outcome := Register(t, false, None);
        assert outcome.Pass?;
        assert DEFAULT_TAGS[..i + 1] == DEFAULT_TAGS[..i] + [t];
      }
      assert DEFAULT_TAGS[..|DEFAULT_TAGS|] == DEFAULT_TAGS;
      DefaultsStructured(View());
      forall k
        ensures k in tags <==> k in [" di", " t", " b", " m", " u", " d"]
      {
        DefaultKeys(tags, k);
      }
    }
  }

  /** The tags every serializer starts with, in order, and their keys. */
  ghost predicate IsDefault(s: Serializer) {
    && s.order == [TagDict(" di"), PassDict, TagTuple(" t"), PassList, TagLeaf(0, " b"), TagLeaf(1, " m"),
                   TagLeaf(2, " u"), TagLeaf(3, " d")]
    && forall k :: k in s.tags <==> k in [" di", " t", " b", " m", " u", " d"]
  }

  /** The keys of the default tags; those that only pass their items on have none. */
  lemma DefaultKeyAt(i: nat)
    requires i < 8
    ensures DEFAULT_TAGS[i].KeyOf() == [" di", "", " t", "", " b", " m", " u", " d"][i]
  {
  }

  lemma Listed(k: Key, a: Key, b: Key, c: Key, d: Key, e: Key, f: Key)
    requires a != "" && b != "" && c != "" && d != "" && e != "" && f != ""
    ensures k != "" && k in [a, "", b, "", c, d, e, f] <==> k in [a, b, c, d, e, f]
  {
  }

  lemma DefaultKeys(tags: Tags, k: Key)
    requires KeyedBy(tags, DEFAULT_TAGS)
    ensures k in tags <==> k in [" di", " t", " b", " m", " u", " d"]
  {
    hide Tag.KeyOf;
    forall i | 0 <= i < 8
      ensures DEFAULT_TAGS[i] in DEFAULT_TAGS
      ensures DEFAULT_TAGS[i].KeyOf() == [" di", "", " t", "", " b", " m", " u", " d"][i]
    {
      DefaultKeyAt(i);
    }
    var a: Key, b: Key, c: Key, d: Key, e: Key, f: Key := " di", " t", " b", " m", " u", " d";
    DefaultKeyListed(tags, k, [a, "", b, "", c, d, e, f]);
    Listed(k, a, b, c, d, e, f);
  }

  lemma DefaultKeyListed(tags: Tags, k: Key, keys: seq<Key>)
    requires KeyedBy(tags, DEFAULT_TAGS) && |keys| == 8
    requires forall i :: 0 <= i < 8 ==> DEFAULT_TAGS[i] in DEFAULT_TAGS && DEFAULT_TAGS[i].KeyOf() == keys[i]
    ensures k in tags <==> k != "" && k in keys
  {
    hide Tag.KeyOf;
    if k in tags {
      var i :| 0 <= i < |DEFAULT_TAGS| && DEFAULT_TAGS[i] == tags[k];
      assert keys[i] == k;
    }
  }

  lemma DefaultLeaf(order: seq<Tag>, kind: nat)
    requires order == DEFAULT_TAGS
    ensures kind < 4 ==> Kin(order, LeafShape(kind)) != [] && Kin(order, LeafShape(kind))[0] == order[4 + kind]
    ensures kind >= 4 ==> Kin(order, LeafShape(kind)) == []
  {
    hide Kin;
    var shape := LeafShape(kind);
    assert order[0..] == order && order[8..] == [];
    KinStep(order, shape, 0);
    KinStep(order, shape, 1);
    KinStep(order, shape, 2);
    KinStep(order, shape, 3);
    KinStep(order, shape, 4);
    KinStep(order, shape, 5);
    KinStep(order, shape, 6);
    KinStep(order, shape, 7);
    KinNone(shape);
  }

  lemma KinNone(shape: Shape)
    ensures Kin([], shape) == []
  {
  }

  /** The JSON the default tags make: containers item by item, tuples under " t", bytes, markup, UUIDs and dates under
      their keys, and a dictionary with just one of these keys under " di", with "__" behind the key. */
  lemma DefaultForm(s: Serializer, v: Value)
    requires IsDefault(s) && Structured(s)
    ensures match v
            case Dict(items) => (
              if |items| == 1 && items[0].0 in [" di", " t", " b", " m", " u", " d"]
              then Tagged(s, v) == Dict([(" di", Dict([(items[0].0 + "__", Tagged(s, items[0].1))]))])
              else Tagged(s, v) == Dict(seq(|items|, i requires 0 <= i < |items| =>
                                              (items[i].0, Tagged(s, items[i].1)))))
            case Tuple(elements) =>
              Tagged(s, v) == Dict([(" t", List(seq(|elements|, i requires 0 <= i < |elements| =>
                                                      Tagged(s, elements[i]))))])
            case List(elements) =>
              Tagged(s, v) == List(seq(|elements|, i requires 0 <= i < |elements| => Tagged(s, elements[i])))
            case Special(kind, payload) =>
              Tagged(s, v) == if kind >= 4 then v
                              else Dict([([" b", " m", " u", " d"][kind], Text(s.codec.encode(kind, payload)))])
            case _ => Tagged(s, v) == v
  {
    hide Structured, Kin, First;
    TagFor(s, v);
    DefaultDicts(s.order);
    DefaultTuples(s.order);
    match v
    case Special(kind, payload) => DefaultLeaf(s.order, kind);
    case _ =>
  }

  /** Reading JSON: dictionaries whose one key is no tag, and all others, stay dictionaries. */
  lemma PlainStays(s: Serializer, json: seq<(Key, Value)>, items: seq<(Key, Value)>)
    requires |json| == |items| && (|items| == 1 ==> items[0].0 !in s.tags)
    requires forall i :: 0 <= i < |items| ==> json[i].0 == items[i].0 && UntagScan(s, json[i].1) == Some(items[i].1)
    ensures UntagScan(s, Dict(json)) == Some(Dict(items))
  {
    ScanDict(s, json, items);
  }

  /** The keys are exactly those of these tags. */
  ghost predicate KeyedBy(tags: Tags, some: seq<Tag>) {
    && (forall t :: t in some && t.KeyOf() != "" ==> Answers(tags, t))
    && (forall k :: k in tags ==> k != "" && tags[k] in some && tags[k].KeyOf() == k)
  }

  /** Registering the next default tag meets no key that is taken. */
  lemma DefaultStep(tags: Tags, i: nat)
    requires i < |DEFAULT_TAGS| && KeyedBy(tags, DEFAULT_TAGS[..i])
    ensures var t := DEFAULT_TAGS[i];
            && (t.KeyOf() != "" ==> t.KeyOf() !in tags)
            && KeyedBy(if t.KeyOf() == "" then tags else tags[t.KeyOf() := t], DEFAULT_TAGS[..i + 1])
  {
    DefaultKeysDiffer(i);
    KeyedMore(tags, DEFAULT_TAGS[..i], DEFAULT_TAGS[i]);
    assert DEFAULT_TAGS[..i + 1] == DEFAULT_TAGS[..i] + [DEFAULT_TAGS[i]];
  }

  lemma KeyedMore(tags: Tags, some: seq<Tag>, t: Tag)
    requires KeyedBy(tags, some) && forall x :: x in some && x.KeyOf() != "" ==> x.KeyOf() != t.KeyOf()
    ensures t.KeyOf() !in tags
    ensures KeyedBy(if t.KeyOf() == "" then tags else tags[t.KeyOf() := t], some + [t])
  {
    hide Tag.KeyOf;
    assert forall x :: x in some + [t] <==> x in some || x == t;
  }

  /** The default keys are different, and short. */
  lemma DefaultKeysDiffer(i: nat)
    requires i < |DEFAULT_TAGS|
    ensures forall t :: t in DEFAULT_TAGS[..i] && t.KeyOf() != "" ==> t.KeyOf() != DEFAULT_TAGS[i].KeyOf()
    ensures |DEFAULT_TAGS[i].KeyOf()| <= 3
    ensures DEFAULT_TAGS[i].KeyOf() != "" ==> |DEFAULT_TAGS[i].KeyOf()| >= 2
  {
    var di, t, b, m, u, d: Key := " di", " t", " b", " m", " u", " d";
    assert t[1] == 't' && b[1] == 'b' && m[1] == 'm' && u[1] == 'u' && d[1] == 'd';
  }

  lemma {:induction false} KinIn(order: seq<Tag>, shape: Shape)
    ensures forall t :: t in Kin(order, shape) ==> t in order
  {
    if order != [] {
      KinIn(order[1..], shape);
    }
  }

  lemma {:induction false} KinConcat(a: seq<Tag>, b: seq<Tag>, shape: Shape)
    ensures Kin(a + b, shape) == Kin(a, shape) + Kin(b, shape)
  {
    if a == [] {
      assert a + b == b;
    } else {
      assert (a + b)[1..] == a[1..] + b;
      KinConcat(a[1..], b, shape);
    }
  }

  lemma KinStep(order: seq<Tag>, shape: Shape, k: nat)
    requires k < |order|
    ensures Kin(order[k..], shape)
         == (if Concern(order[k]) == shape then [order[k]] else []) + Kin(order[k + 1..], shape)
  {
    assert order[k..][1..] == order[k + 1..];
  }

  lemma DefaultDicts(order: seq<Tag>)
    requires order == DEFAULT_TAGS
    ensures var kin := Kin(order, DictShape); |kin| >= 2 && kin[0] == order[0] && kin[1] == order[1]
  {
    assert order[0..] == order;
    KinStep(order, DictShape, 0);
    KinStep(order, DictShape, 1);
  }

  lemma DefaultTuples(order: seq<Tag>)
    requires order == DEFAULT_TAGS
    ensures Kin(order, TupleShape) != [] && Kin(order, TupleShape)[0] == order[2]
  {
    assert order[0..] == order;
    KinStep(order, TupleShape, 0);
    KinStep(order, TupleShape, 1);
    KinStep(order, TupleShape, 2);
  }

  lemma DefaultLists(order: seq<Tag>)
    requires order == DEFAULT_TAGS
    ensures Kin(order, ListShape) != []
  {
    assert order[0..] == order;
    KinStep(order, ListShape, 0);
    KinStep(order, ListShape, 1);
    KinStep(order, ListShape, 2);
    KinStep(order, ListShape, 3);
  }

  lemma DefaultKeysShort(tags: Tags)
    requires forall k :: k in tags ==> k != "" && tags[k] in DEFAULT_TAGS && tags[k].KeyOf() == k
    ensures NoClash(tags) && forall k :: k in tags ==> !tags[k].PassDict? && !tags[k].PassList?
  {
    forall k | k in tags
      ensures 2 <= |k| <= 3 && !tags[k].PassDict? && !tags[k].PassList?
    {
      var i :| 0 <= i < |DEFAULT_TAGS| && DEFAULT_TAGS[i] == tags[k];
      DefaultKeysDiffer(i);
    }
  }

  lemma DefaultsStructured(s: Serializer)
    requires s.order == DEFAULT_TAGS
    requires KeyedBy(s.tags, DEFAULT_TAGS)
    ensures Structured(s) && NoClash(s.tags)
  {
    hide Kin, NoClash;
    var order := s.order;
    assert order[0] in order && order[2] in order;
    DefaultDicts(order);
    DefaultTuples(order);
    DefaultLists(order);
    DefaultKeysShort(s.tags);
    forall kind | Kin(order, LeafShape(kind)) != []
      ensures Answers(s.tags, Kin(order, LeafShape(kind))[0])
    {
      LeafAnswers(s, kind);
    }
  }

  lemma LeafAnswers(s: Serializer, kind: nat)
    requires s.order == DEFAULT_TAGS && Kin(s.order, LeafShape(kind)) != []
    requires forall t :: t in DEFAULT_TAGS && t.KeyOf() != "" ==> Answers(s.tags, t)
    ensures Answers(s.tags, Kin(s.order, LeafShape(kind))[0])
  {
    var t := Kin(s.order, LeafShape(kind))[0];
    assert t in Kin(s.order, LeafShape(kind));
    KinIn(s.order, LeafShape(kind));
    KinConcern(s.order, LeafShape(kind));
    var i :| 0 <= i < |DEFAULT_TAGS| && DEFAULT_TAGS[i] == t;
    assert t.KeyOf() != "";
  }

  /** A tag for a new kind of leaf, under a new key, wherever it is put in the order, keeps the serializer well made;
      the round trip survives exactly when the key with the suffix, and the key without it, are not keys. */
  lemma RegisterLeaf(s: Serializer, kind: nat, key: Key, index: Option<int>)
    requires Structured(s) && NoClash(s.tags) && key != "" && key !in s.tags && Kin(s.order, LeafShape(kind)) == []
    ensures var r := Registered(s, TagLeaf(kind, key), index);
            && Structured(r)
            && (NoClash(r.tags) <==> key + SUFFIX !in s.tags && forall k :: k in s.tags ==> k + SUFFIX != key)
  {
    var t := TagLeaf(kind, key);
    var r := Registered(s, t, index);
    var at := if index.None? then |s.order| else Place(|s.order|, index.value);
    assert s.order == s.order[..at] + s.order[at..];
    forall shape
      ensures Kin(r.order, shape) == if shape == LeafShape(kind) then [t] else Kin(s.order, shape)
    {
      KinConcat(s.order[..at], s.order[at..], shape);
      KinConcat(s.order[..at] + [t], s.order[at..], shape);
      KinConcat(s.order[..at], [t], shape);
      assert [t][1..] == [];
    }
    assert key + SUFFIX != key;
    StructuredMore(s, r, kind, t);
    if key + SUFFIX !in s.tags && forall k :: k in s.tags ==> k + SUFFIX != key {
      assert NoClash(r.tags);
    }
  }

  lemma StructuredMore(s: Serializer, r: Serializer, kind: nat, t: Tag)
    requires Structured(s) && t.TagLeaf? && t.key !in s.tags && r.tags == s.tags[t.key := t]
    requires forall shape :: Kin(r.order, shape) == if shape == LeafShape(kind) then [t] else Kin(s.order, shape)
    ensures Structured(r)
  {
    forall kind | Kin(r.order, LeafShape(kind)) != []
      ensures Answers(r.tags, Kin(r.order, LeafShape(kind))[0])
    {
    }
  }
}
