/** What the bytes at an offset mean as a name: the pointer-following decoder without its cache. */
module NameDecoder {
  import opened Results
  import opened Bytes
  import opened Names

  datatype Segment =
    | Bad
    | End(labels: seq<Label>, next: nat)
    | Jump(labels: seq<Label>, link: nat, next: nat)

  datatype Decoded = Decoded(labels: seq<Label>, next: nat)

  function Prepend(part: Label, s: Segment): Segment {
    match s
    case Bad => Bad
    case End(labels, next) => End([part] + labels, next)
    case Jump(labels, link, next) => Jump([part] + labels, link, next)
  }

  /** The labels spelled out at `off`, up to a terminator, a usable pointer or an error. */
  function Scan(p: seq<byte>, off: nat): (s: Segment)
    ensures s.Jump? ==> s.link <= |p|
    decreases |p| - off
  {
    if off >= |p| then Bad
    else if p[off] == 0 then End([], off + 1)
    else if p[off] < 0x40 then
      Prepend(Slice(p, off + 1, off + 1 + p[off]), Scan(p, off + 1 + p[off]))
    else if p[off] < 0xC0 || off + 1 >= |p| then Bad
    else
      var link := ((p[off] as int) % 0x40) * 0x100 + p[off + 1];
      if link > |p| || link == off then Bad else Jump([], link, off + 2)
  }

  function UpTo(n: nat): (r: set<nat>)
    ensures forall i: nat :: i in r <==> i <= n
  {
    if n == 0 then {0} else UpTo(n - 1) + {n}
  }

  function Targets(p: seq<byte>): set<nat> {
    UpTo(|p|)
  }

  /** Follows pointers, refusing any target already in `seen` and any name of more than 128 labels. */
  function Decode(p: seq<byte>, off: nat, seen: set<nat>): Result<Decoded>
    decreases Targets(p) - seen
  {
    match Scan(p, off)
    case Bad => Failure(DecodeError)
    case End(labels, next) => Success(Decoded(labels, next))
    case Jump(labels, link, next) =>
      if link in seen then Failure(DecodeError)
      else
        var linked :- Decode(p, link, seen + {link});
        if |labels + linked.labels| > MAX_DNS_LABELS then Failure(DecodeError)
        else Success(Decoded(labels + linked.labels, next))
  }

  /** The same walk with no loop detection at all: it gives up only when `fuel` pointers were followed. */
  function Walk(p: seq<byte>, off: nat, fuel: nat): Result<Decoded>
    decreases fuel
  {
    match Scan(p, off)
    case Bad => Failure(DecodeError)
    case End(labels, next) => Success(Decoded(labels, next))
    case Jump(labels, link, next) =>
      if fuel == 0 then Failure(DecodeError)
      else
        var linked :- Walk(p, link, fuel - 1);
        if |labels + linked.labels| > MAX_DNS_LABELS then Failure(DecodeError)
        else Success(Decoded(labels + linked.labels, next))
  }

  /** How many pointers a successful decoding follows. */
  ghost function Hops(p: seq<byte>, off: nat, seen: set<nat>): nat
    requires Decode(p, off, seen).Success?
    decreases Targets(p) - seen
  {
    var s := Scan(p, off);
    if s.Jump? then 1 + Hops(p, s.link, seen + {s.link}) else 0
  }

  /** `k` pointers lead from the name at `s` to the name at `t`. */
  ghost predicate LeadsIn(p: seq<byte>, s: nat, t: nat, k: nat)
    decreases k
  {
    if k == 0 then s == t
    else Scan(p, s).Jump? && LeadsIn(p, Scan(p, s).link, t, k - 1)
  }

  ghost predicate Leads(p: seq<byte>, s: nat, t: nat) {
    exists k: nat :: LeadsIn(p, s, t, k)
  }

  lemma {:induction false} LeadsOn(p: seq<byte>, s: nat, t: nat, k: nat)
    requires LeadsIn(p, s, t, k) && Scan(p, t).Jump?
    ensures LeadsIn(p, s, Scan(p, t).link, k + 1)
    decreases k
  {
    hide Scan;
    if k == 0 {
      assert LeadsIn(p, Scan(p, t).link, Scan(p, t).link, 0);
    } else {
      LeadsOn(p, Scan(p, s).link, t, k - 1);
    }
  }

  /** A decoding that succeeds does not depend on what it was told to avoid. */
  lemma {:induction false} ForgetSeen(p: seq<byte>, off: nat, seen: set<nat>, fewer: set<nat>)
    requires Decode(p, off, seen).Success? && fewer <= seen
    ensures Decode(p, off, fewer) == Decode(p, off, seen)
    ensures Hops(p, off, fewer) == Hops(p, off, seen)
    decreases Targets(p) - seen
  {
    var s := Scan(p, off);
    if s.Jump? {
      ForgetSeen(p, s.link, seen + {s.link}, fewer + {s.link});
    }
  }

  lemma {:induction false} LeadsHops(p: seq<byte>, s: nat, t: nat, k: nat)
    requires LeadsIn(p, s, t, k) && Decode(p, s, {}).Success?
    ensures Decode(p, t, {}).Success? && Hops(p, s, {}) == Hops(p, t, {}) + k
    decreases k
  {
    if k > 0 {
      var link := Scan(p, s).link;
      ForgetSeen(p, link, {} + {link}, {});
      LeadsHops(p, link, t, k - 1);
    }
  }

  /** Targets at least as deep as `off` are never met again below it. */
  lemma {:induction false} AvoidDeeper(p: seq<byte>, off: nat, seen: set<nat>, more: set<nat>)
    requires Decode(p, off, seen).Success?
    requires forall m :: m in more && Decode(p, m, {}).Success? ==> Hops(p, m, {}) >= Hops(p, off, seen)
    ensures Decode(p, off, seen + more) == Decode(p, off, seen)
    decreases Targets(p) - seen
  {
    var s := Scan(p, off);
    if s.Jump? {
      var link := s.link;
      ForgetSeen(p, link, seen + {link}, {});
      AvoidDeeper(p, link, seen + {link}, more);
      assert seen + more + {link} == seen + {link} + more;
    }
  }

  /** Why a cached name may be used at once: every pointer seen so far leads to it, so none can recur in it. */
  lemma CacheHit(p: seq<byte>, link: nat, seen: set<nat>)
    requires Decode(p, link, {}).Success?
    requires forall s :: s in seen ==> Leads(p, s, link)
    ensures Decode(p, link, seen) == Decode(p, link, {})
  {
    forall m | m in seen && Decode(p, m, {}).Success?
      ensures Hops(p, m, {}) >= Hops(p, link, {})
    {
      var k: nat :| LeadsIn(p, m, link, k);
      LeadsHops(p, m, link, k);
    }
    AvoidDeeper(p, link, {}, seen);
    assert {} + seen == seen;
  }

  lemma {:induction false} WalkIsDecode(p: seq<byte>, off: nat, fuel: nat)
    requires Walk(p, off, fuel).Success?
    ensures Decode(p, off, {}) == Walk(p, off, fuel)
    decreases fuel
  {
    var s := Scan(p, off);
    if s.Jump? {
      WalkIsDecode(p, s.link, fuel - 1);
      assert LeadsIn(p, s.link, s.link, 0);
      CacheHit(p, s.link, {} + {s.link});
    }
  }

  lemma {:induction false} DecodeIsWalk(p: seq<byte>, off: nat, seen: set<nat>)
    requires Decode(p, off, seen).Success?
    ensures Walk(p, off, Hops(p, off, seen)) == Decode(p, off, seen)
    decreases Targets(p) - seen
  {
    var s := Scan(p, off);
    if s.Jump? {
      DecodeIsWalk(p, s.link, seen + {s.link});
    }
  }

  /** Loop detection is exact: it accepts a name just when following its pointers ends, and changes no answer. */
  lemma LoopDetectionExact(p: seq<byte>, off: nat)
    ensures Decode(p, off, {}).Success? <==> exists fuel: nat :: Walk(p, off, fuel).Success?
    ensures forall fuel: nat :: Walk(p, off, fuel).Success? ==> Walk(p, off, fuel) == Decode(p, off, {})
  {
    if Decode(p, off, {}).Success? {
      DecodeIsWalk(p, off, {});
    }
    forall fuel: nat | Walk(p, off, fuel).Success?
      ensures Walk(p, off, fuel) == Decode(p, off, {})
    {
      WalkIsDecode(p, off, fuel);
    }
  }
}
