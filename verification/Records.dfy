/** DNS questions and records: identity, expiry arithmetic and the size estimates used for packing. */
module Records {
  import opened Results
  import opened Bytes
  import opened Names
  import NsecBitmap

  /** Times are milliseconds. */
  type Millis = real

  const TYPE_A: uint16 := 1
  const TYPE_CNAME: uint16 := 5
  const TYPE_PTR: uint16 := 12
  const TYPE_HINFO: uint16 := 13
  const TYPE_TXT: uint16 := 16
  const TYPE_AAAA: uint16 := 28
  const TYPE_SRV: uint16 := 33
  const TYPE_NSEC: uint16 := 47

  const CLASS_UNIQUE := 0x8000

  /** A class with the unique bit masked off. */
  type class15 = x: int | 0 <= x < 0x8000

  /** `DNSNsec` sorts the types it is given. */
  type TypeList = s: seq<nat> | NsecBitmap.Sorted(s) witness []

  datatype RData =
    | Address(address: seq<byte>, scope: Option<int>)
    | Pointer(alias: Name)
    | Text(text: seq<byte>)
    | Service(priority: uint16, weight: uint16, port: uint16, server: Name)
    | Hinfo(cpu: seq<byte>, os: seq<byte>)
    | Nsec(nextName: Name, rdtypes: TypeList)

  datatype Question = Question(name: Name, typ: uint16, cls: class15, unique: bool) {
    /** `DNSQuestion.max_size` */
    function MaxSize(): nat {
      |name| + 1 + 2 + 2
    }
  }

  /** `str.lower` on the ASCII letters. */
  function Lower(name: Name): (r: Name)
    ensures |r| == |name|
  {
    seq(|name|, i requires 0 <= i < |name| =>
      if 65 <= name[i] <= 90 then (name[i] as int) + 32 else name[i])
  }

  /** Everything `__eq__` and `__hash__` look at: TTL, creation time and the unique bit are not part of it. */
  datatype Ident = Ident(key: Name, typ: uint16, cls: class15, rdata: RData)

  datatype Record = Record(name: Name, typ: uint16, cls: class15, unique: bool,
                           ttl: nat, created: Millis, rdata: RData)
  {
    function Key(): Name {
      Lower(name)
    }

    function Id(): Ident {
      Ident(Key(), typ, cls,
            match rdata
            case Pointer(alias) => Pointer(Lower(alias))
            case Service(p, w, port, server) => Service(p, w, port, Lower(server))
            case _ => rdata)
    }

    /** `get_expiration_time`: when `percent` of the lifetime is over. */
    function ExpirationTime(percent: nat): Millis {
      created + (percent * ttl * 10) as real
    }

    function Expiry(): Millis {
      created + (1000 * ttl) as real
    }

    predicate IsExpired(now: Millis) {
      Expiry() <= now
    }

    /** Remaining lifetime in seconds, never negative. */
    function RemainingTtl(now: Millis): real {
      if Expiry() - now < 0.0 then 0.0 else (Expiry() - now) / 1000.0
    }

    /** The TTL `_write_ttl` puts in the packet: a zero `now` means the full one. */
    function WireTtl(now: Millis): nat {
      if now == 0.0 then ttl else RemainingTtl(now).Floor
    }

    /** `DNSPointer.max_size_compressed` */
    function MaxSizeCompressed(): int
      requires rdata.Pointer?
    {
      10 + 2 + (|rdata.alias| - |name|) + 2
    }
  }

  // ---------- when two records are the same ----------

  /** The same text up to the case of ASCII letters. */
  ghost predicate SameText(a: Name, b: Name) {
    && |a| == |b|
    && forall i :: 0 <= i < |a| ==>
         a[i] == b[i] || (65 <= a[i] <= 90 && b[i] == a[i] + 32) || (65 <= b[i] <= 90 && a[i] == b[i] + 32)
  }

  /** The same payload: host names of pointers and services up to case, all else exactly. */
  ghost predicate SamePayload(a: RData, b: RData) {
    match (a, b)
    case (Pointer(x), Pointer(y)) => SameText(x, y)
    case (Service(p, w, port, x), Service(p', w', port', y)) => p == p' && w == w' && port == port' && SameText(x, y)
    case _ => a == b
  }

  lemma LowerSame(a: Name, b: Name)
    ensures Lower(a) == Lower(b) <==> SameText(a, b)
  {
    if Lower(a) == Lower(b) {
      forall i | 0 <= i < |a|
        ensures a[i] == b[i] || (65 <= a[i] <= 90 && b[i] == a[i] + 32) || (65 <= b[i] <= 90 && a[i] == b[i] + 32)
      {
        assert Lower(a)[i] == Lower(b)[i];
      }
    }
  }

  /** Two records have the same identity exactly when `__eq__` holds: names up to case, type, class and payload. */
  lemma SameIdentity(a: Record, b: Record)
    ensures a.Id() == b.Id() <==>
              SameText(a.name, b.name) && a.typ == b.typ && a.cls == b.cls && SamePayload(a.rdata, b.rdata)
  {
    LowerSame(a.name, b.name);
    match (a.rdata, b.rdata)
    case (Pointer(x), Pointer(y)) => LowerSame(x, y);
    case (Service(_, _, _, x), Service(_, _, _, y)) => LowerSame(x, y);
    case _ =>
  }
}
