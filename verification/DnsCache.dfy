/** The TTL cache of the DNS resolver, with its background clean-up (src/router/resolver.rs). */
module DnsCache {
  import opened Common
  import opened Separator

  /** Lifetimes, in milliseconds. */
  const CACHE_EXPIRATION: nat := 3 * 60 * 1000
  const NEGATIVE_CACHE_EXPIRATION: nat := 60 * 1000

  type Ip = nat

  datatype Answer = Found(ips: seq<Ip>) | Failed(message: string)

  datatype Entry = Entry(ips: seq<Ip>, expiry: nat, err: Option<string>)

  type Cache = map<string, Entry>

  datatype Upstream = DefaultDns | Doh | SpecificDns

  function Lifetime(isError: bool): nat {
    if isError then NEGATIVE_CACHE_EXPIRATION else CACHE_EXPIRATION
  }

  function Key(addr: string, dns: string): string {
    addr + "-" + dns
  }

  function EntryOf(answer: Answer, now: nat): Entry {
    match answer
    case Found(ips) => Entry(ips, now + Lifetime(false), None)
    case Failed(message) => Entry([], now + Lifetime(true), Some(message))
  }

  function AnswerOf(e: Entry): Answer {
    if e.err.Some? then Failed(e.err.value) else Found(e.ips)
  }

  function Route(dns: string): Upstream {
    if dns == "" then DefaultDns
    else if "doh://" <= dns || "https://" <= dns then Doh
    else SpecificDns
  }

  // ----- the cache under interleaved operations -----

  /** The atomic steps of resolve_ip and of the clean-up, each with the time it reads. */
  datatype Op =
    | Lookup(addr: string, dns: string, now: nat)
    | Store(addr: string, dns: string, answer: Answer, now: nat)
    | Cleanup(now: nat)

  /** What a lookup leads to: a cached answer, or a query to an upstream. */
  datatype Outcome = Hit(answer: Answer) | Query(upstream: Upstream, addr: string, dns: string)

  function LookupIn(c: Cache, addr: string, dns: string, now: nat): Outcome {
    var key := Key(addr, dns);
    if key in c && now < c[key].expiry then Hit(AnswerOf(c[key])) else Query(Route(dns), addr, dns)
  }

  function Apply(c: Cache, op: Op): Cache {
    match op
    case Lookup(_, _, _) => c
    case Store(addr, dns, answer, now) => c[Key(addr, dns) := EntryOf(answer, now)]
    case Cleanup(now) => map k <- c | now < c[k].expiry :: c[k]
  }

  /** What the lookups of a run lead to, in order. */
  function Outcomes(c: Cache, ops: seq<Op>): seq<Outcome>
    decreases |ops|
  {
    if ops == [] then []
    else (if ops[0].Lookup? then [LookupIn(c, ops[0].addr, ops[0].dns, ops[0].now)] else []) + Outcomes(Apply(c, ops[0]), ops[1..])
  }

  function CacheAfter(ops: seq<Op>): Cache {
    if ops == [] then map[] else Apply(CacheAfter(ops[..|ops| - 1]), ops[|ops| - 1])
  }

  function WithoutCleanups(ops: seq<Op>): seq<Op> {
    if ops == [] then []
    else (if ops[0].Cleanup? then [] else [ops[0]]) + WithoutCleanups(ops[1..])
  }

  /**
   * What a clock that never runs backwards gives. A lookup reads it while it holds the lock, so its reading is
   * no older than that of any lookup or clean-up before it. A clean-up and a store read it before they take
   * the lock, so theirs may be older than that of a lookup before them.
   */
  predicate Timely(ops: seq<Op>, from: nat) {
    if ops == [] then true
    else
      match ops[0]
      case Lookup(_, _, now) => from <= now && Timely(ops[1..], now)
      case Store(_, _, _, _) => Timely(ops[1..], from)
      case Cleanup(now) => Timely(ops[1..], if from < now then now else from)
  }

  /** The first cache is the second less some entries that have expired. */
  ghost predicate Trimmed(c: Cache, d: Cache, now: nat) {
    && (forall k <- c :: k in d && c[k] == d[k])
    && (forall k <- d :: k in c || d[k].expiry <= now)
  }

  lemma {:induction false} TrimmedOutcomes(c: Cache, d: Cache, ops: seq<Op>, from: nat)
    requires Trimmed(c, d, from) && Timely(ops, from)
    ensures Outcomes(c, ops) == Outcomes(d, WithoutCleanups(ops))
    decreases |ops|
  {
    if ops != [] {
      var op, rest := ops[0], ops[1..];
      if op.Cleanup? {
        TrimmedOutcomes(Apply(c, op), d, rest, if from < op.now then op.now else from);
        assert WithoutCleanups(ops) == WithoutCleanups(rest);
      } else {
        TrimmedOutcomes(Apply(c, op), Apply(d, op), rest, if op.Lookup? then op.now else from);
        assert WithoutCleanups(ops)[0] == op && WithoutCleanups(ops)[1..] == WithoutCleanups(rest);
      }
    }
  }

  /**
   * Clean-ups are invisible: two runs that differ only in where (and how often) the cache is cleaned lead
   * to the same answers and the same upstream queries, however the resolve_ip calls interleave and however
   * late a clean-up or a store takes the lock after it read the clock.
   */
  lemma CleanupInvisible(ops: seq<Op>, others: seq<Op>)
    requires Timely(ops, 0) && Timely(others, 0) && WithoutCleanups(ops) == WithoutCleanups(others)
    ensures Outcomes(map[], ops) == Outcomes(map[], others)
  {
    TrimmedOutcomes(map[], map[], ops, 0);
    TrimmedOutcomes(map[], map[], others, 0);
  }

  /** Operation i stored the answer that the key held at the end, and nothing replaced it since. */
  predicate LastStore(ops: seq<Op>, i: nat, key: string)
    requires i < |ops|
  {
    && ops[i].Store? && Key(ops[i].addr, ops[i].dns) == key
    && forall j :: i < j < |ops| ==> !(ops[j].Store? && Key(ops[j].addr, ops[j].dns) == key)
  }

  lemma {:induction false} EntryFromLastStore(ops: seq<Op>, key: string) returns (i: nat)
    requires key in CacheAfter(ops)
    ensures i < |ops| && LastStore(ops, i, key) && CacheAfter(ops)[key] == EntryOf(ops[i].answer, ops[i].now)
    decreases |ops|
  {
    var n := |ops| - 1;
    var before, last := ops[..n], ops[n];
    if last.Store? && Key(last.addr, last.dns) == key {
      i := n;
    } else {
      i := EntryFromLastStore(before, key);
      assert forall j :: i < j < n ==> ops[j] == before[j];
    }
  }

  /**
   * Every cached answer is the one most recently stored under its key, and its lifetime, three minutes for
   * an answer and one for a failure, has not passed.
   */
  lemma HitIsFresh(ops: seq<Op>, addr: string, dns: string, now: nat) returns (i: nat)
    requires LookupIn(CacheAfter(ops), addr, dns, now).Hit?
    ensures i < |ops| && LastStore(ops, i, Key(addr, dns))
    ensures LookupIn(CacheAfter(ops), addr, dns, now) == Hit(ops[i].answer)
    ensures now < ops[i].now + (if ops[i].answer.Failed? then 60_000 else 180_000)
  {
    i := EntryFromLastStore(ops, Key(addr, dns));
  }

  lemma {:induction false} LastStoreKept(ops: seq<Op>, i: nat, key: string)
    requires i < |ops| && LastStore(ops, i, key) && forall j :: 0 <= j < |ops| ==> !ops[j].Cleanup?
    ensures key in CacheAfter(ops) && CacheAfter(ops)[key] == EntryOf(ops[i].answer, ops[i].now)
    decreases |ops|
  {
    var n := |ops| - 1;
    if i < n {
      var before := ops[..n];
      assert forall j :: 0 <= j < n ==> before[j] == ops[j];
      LastStoreKept(before, i, key);
    }
  }

  /**
   * In a run without clean-ups, to which CleanupInvisible reduces every other, the answer most recently stored
   * under a question's key is returned for exactly its lifetime, and after that the upstream is asked again.
   */
  lemma HitForLifetime(ops: seq<Op>, i: nat, addr: string, dns: string, now: nat)
    requires i < |ops| && LastStore(ops, i, Key(addr, dns)) && forall j :: 0 <= j < |ops| ==> !ops[j].Cleanup?
    ensures LookupIn(CacheAfter(ops), addr, dns, now).Hit? <==>
      now < ops[i].now + (if ops[i].answer.Failed? then 60_000 else 180_000)
    ensures LookupIn(CacheAfter(ops), addr, dns, now).Hit? ==> LookupIn(CacheAfter(ops), addr, dns, now) == Hit(ops[i].answer)
  {
    LastStoreKept(ops, i, Key(addr, dns));
  }

  /** A question nothing was stored for goes to the upstream its dns string names. */
  lemma QueryRouted(ops: seq<Op>, addr: string, dns: string, now: nat)
    requires forall j :: 0 <= j < |ops| ==> !(ops[j].Store? && Key(ops[j].addr, ops[j].dns) == Key(addr, dns))
    ensures LookupIn(CacheAfter(ops), addr, dns, now) ==
      if dns == "" then Query(DefaultDns, addr, dns)
      else if |dns| >= 6 && dns[..6] == "doh://" then Query(Doh, addr, dns)
      else if |dns| >= 8 && dns[..8] == "https://" then Query(Doh, addr, dns)
      else Query(SpecificDns, addr, dns)
  {
    if Key(addr, dns) in CacheAfter(ops) {
      var i := EntryFromLastStore(ops, Key(addr, dns));
      assert false;
    }
    if "doh://" <= dns { assert dns[..6] == "doh://"; }
    if "https://" <= dns { assert dns[..8] == "https://"; }
    if |dns| >= 6 && dns[..6] == "doh://" { assert "doh://" <= dns; }
    if |dns| >= 8 && dns[..8] == "https://" { assert "https://" <= dns; }
  }

  // ----- keys -----

  /** Keys are injective as long as the DNS strings contain no dash. */
  lemma KeyInjective(a: string, d: string, b: string, e: string)
    requires Key(a, d) == Key(b, e) && '-' !in d && '-' !in e
    ensures a == b && d == e
  {
    if |a| < |b| {
      LaterSeparator(a, d, b, e, '-');
      assert false;
    }
    if |b| < |a| {
      LaterSeparator(b, e, a, d, '-');
      assert false;
    }
    SameSplit(a, d, b, e, '-');
  }

  /** The questions that share a key: what the longer dns string has in front of a dash ends the other's address. */
  lemma KeyPartners(a: string, d: string, b: string, e: string)
    ensures Key(a, d) == Key(b, e) && |e| < |d| <==> exists w :: d == w + "-" + e && b == a + "-" + w
  {
    if Key(a, d) == Key(b, e) && |e| < |d| {
      var w := d[..|d| - |e| - 1];
      var key := Key(a, d);
      assert key[|key| - |e|..] == e && key[|key| - |e|..] == d[|d| - |e|..];
      assert key[|b|] == '-' && key[|b|] == d[|d| - |e| - 1];
      assert d == w + "-" + e;
      assert key[..|b|] == b && key[..|b|] == a + "-" + w;
    }
    if w :| d == w + "-" + e && b == a + "-" + w {
      assert a + "-" + (w + "-" + e) == (a + "-" + w) + "-" + e;
    }
  }

  lemma DashSplits(s: string)
    ensures '-' in s <==> exists w, rest :: s == w + "-" + rest
  {
    if '-' in s {
      var i :| 0 <= i < |s| && s[i] == '-';
      assert s == s[..i] + "-" + s[i + 1..];
    }
    if w, rest :| s == w + "-" + rest {
      assert s[|w|] == '-';
    }
  }

  /** A question's cache entry is its own exactly when neither its address nor its dns string has a dash. */
  lemma KeyShared(a: string, d: string)
    ensures (exists b, e :: Key(b, e) == Key(a, d) && (b != a || e != d)) <==> '-' in a || '-' in d
  {
    if '-' in d {
      DashSplits(d);
      var w, e :| d == w + "-" + e;
      KeyPartners(a, d, a + "-" + w, e);
      assert Key(a + "-" + w, e) == Key(a, d) && e != d;
    } else if '-' in a {
      DashSplits(a);
      var b, w :| a == b + "-" + w;
      KeyPartners(b, w + "-" + d, a, d);
      assert Key(b, w + "-" + d) == Key(a, d) && w + "-" + d != d;
    }
    if b, e :| Key(b, e) == Key(a, d) && (b != a || e != d) {
      if |b| == |a| {
        SameSplit(a, d, b, e, '-');
      } else if |a| < |b| {
        LaterSeparator(a, d, b, e, '-');
      } else {
        KeyPartners(b, e, a, d);
        DashSplits(a);
      }
    }
  }

  /**
   * Two different configured dns strings can share a key, for some addresses, exactly when one is the other
   * behind something and a dash.
   */
  lemma ConfiguredCollision(d: string, e: string)
    requires d != e
    ensures (exists a, b :: Key(a, d) == Key(b, e)) <==> exists w :: d == w + "-" + e || e == w + "-" + d
  {
    if a, b :| Key(a, d) == Key(b, e) {
      if |a| == |b| {
        SameSplit(a, d, b, e, '-');
      }
      KeyPartners(a, d, b, e);
      KeyPartners(b, e, a, d);
      if |e| < |d| {
        var w :| d == w + "-" + e && b == a + "-" + w;
      } else {
        var w :| e == w + "-" + d && a == b + "-" + w;
      }
    }
    if w :| d == w + "-" + e || e == w + "-" + d {
      if d == w + "-" + e {
        KeyPartners("", d, "" + "-" + w, e);
        assert Key("", d) == Key("" + "-" + w, e);
      } else {
        KeyPartners("", e, "" + "-" + w, d);
        assert Key("" + "-" + w, d) == Key("", e);
      }
    }
  }

  // ----- the resolver -----

  class Resolver {
    var cache: Cache

    constructor ()
      ensures cache == map[]
    {
      cache := map[];
    }

    method CleanupCache(now: nat)
      modifies this
      ensures cache == Apply(old(cache), Cleanup(now))
      ensures forall k :: k in cache <==> k in old(cache) && now < old(cache)[k].expiry
    {
      cache := map k <- cache | now < cache[k].expiry :: cache[k];
    }

    /** upstream: what the query would answer; checkedAt and storedAt: the two readings of the clock. */
    method ResolveIp(addr: string, dns: string, upstream: Answer, checkedAt: nat, storedAt: nat)
      returns (r: Answer, queried: bool)
      modifies this
      ensures var outcome := LookupIn(old(cache), addr, dns, checkedAt);
        && queried == outcome.Query?
        && r == (if queried then upstream else outcome.answer)
        && cache == if queried then Apply(old(cache), Store(addr, dns, upstream, storedAt)) else old(cache)
      ensures queried ==> forall now :: storedAt <= now < storedAt + Lifetime(upstream.Failed?) ==>
        LookupIn(cache, addr, dns, now) == Hit(upstream)
    {
      var key := Key(addr, dns);
      if key in cache {
        var cached := cache[key];
        if checkedAt < cached.expiry {
          r := if cached.err.Some? then Failed(cached.err.value) else Found(cached.ips);
          return r, false;
        }
      }
      var result := upstream;
      var expiry := storedAt + Lifetime(result.Failed?);
      var res := Entry(
        if result.Found? then result.ips else [],
        expiry,
        if result.Failed? then Some(result.message) else None);
      cache := cache[key := res];
      return result, true;
    }
  }
}
