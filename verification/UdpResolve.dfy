/** The two-way map between domains and resolved addresses of a UDP stream (src/stream/udp.rs). */
module UdpResolve {
  import opened Common
  import opened Separator

  datatype Ip = V4(bits: nat) | V6(bits: nat)
  datatype SocketAddr = SocketAddr(ip: Ip, port: u16)

  datatype Error = NoLocalAddress | LookupFailed | NoAddress
  datatype Result<+T> = Ok(value: T) | Err(error: Error)

  // ----- keys -----

  function Decimal(n: nat): (s: string)
    ensures s != [] && forall i :: 0 <= i < |s| ==> '0' <= s[i] <= '9'
  {
    if n < 10 then ['0' + n as char] else Decimal(n / 10) + ['0' + (n % 10) as char]
  }

  lemma {:induction false} DecimalInjective(m: nat, n: nat)
    requires Decimal(m) == Decimal(n)
    ensures m == n
  {
    var s, t := Decimal(m), Decimal(n);
    assert s[|s| - 1] == t[|t| - 1];
    if m >= 10 && n >= 10 {
      assert s[..|s| - 1] == Decimal(m / 10) && t[..|t| - 1] == Decimal(n / 10);
      DecimalInjective(m / 10, n / 10);
    }
  }

  function Key(dst: string, port: u16): string {
    dst + ":" + Decimal(port)
  }

  /** A key determines its destination and port: the port has no colon in it. */
  lemma KeyInjective(d: string, p: u16, e: string, q: u16)
    requires Key(d, p) == Key(e, q)
    ensures d == e && p == q
  {
    assert ':' !in Decimal(p) && ':' !in Decimal(q);
    if |d| < |e| {
      LaterSeparator(d, Decimal(p), e, Decimal(q), ':');
      assert false;
    }
    if |e| < |d| {
      LaterSeparator(e, Decimal(q), d, Decimal(p), ':');
      assert false;
    }
    SameSplit(d, Decimal(p), e, Decimal(q), ':');
    DecimalInjective(p, q);
  }

  // ----- the maps as a function of the resolutions made -----

  /** One destination written to, and what it resolves to if it is not known yet. */
  datatype Resolution = Resolution(dst: string, port: u16, addr: SocketAddr, domain: bool)

  datatype Maps = Maps(domainToIp: map<string, SocketAddr>, ipToDomain: map<SocketAddr, string>)

  function Record(m: Maps, r: Resolution): Maps {
    if Key(r.dst, r.port) in m.domainToIp then m
    else Maps(m.domainToIp[Key(r.dst, r.port) := r.addr], if r.domain then m.ipToDomain[r.addr := r.dst] else m.ipToDomain)
  }

  function Replay(history: seq<Resolution>): Maps {
    if history == [] then Maps(map[], map[]) else Record(Replay(history[..|history| - 1]), history[|history| - 1])
  }

  /** Resolution i is the first for its destination and port. */
  predicate First(history: seq<Resolution>, i: nat)
    requires i < |history|
  {
    forall j :: 0 <= j < i ==> history[j].dst != history[i].dst || history[j].port != history[i].port
  }

  /** Resolution i is a domain's first, and gave the address sa. */
  predicate Named(history: seq<Resolution>, i: nat, sa: SocketAddr)
    requires i < |history|
  {
    history[i].domain && history[i].addr == sa && First(history, i)
  }

  predicate LatestNamed(history: seq<Resolution>, i: nat, sa: SocketAddr)
    requires i < |history|
  {
    Named(history, i, sa) && forall j :: i < j < |history| ==> !Named(history, j, sa)
  }

  /** Name resolution keeps the port that was asked for. */
  ghost predicate KeepsPorts(history: seq<Resolution>) {
    forall i :: 0 <= i < |history| ==> history[i].addr.port == history[i].port
  }

  /** A key is known exactly when its destination was written to, and keeps the address it got first. */
  lemma {:induction false} ForwardIsFirst(history: seq<Resolution>, dst: string, port: u16)
    ensures Key(dst, port) in Replay(history).domainToIp <==>
      exists i :: 0 <= i < |history| && history[i].dst == dst && history[i].port == port
    ensures forall i :: 0 <= i < |history| && history[i].dst == dst && history[i].port == port && First(history, i) ==>
      Key(dst, port) in Replay(history).domainToIp && Replay(history).domainToIp[Key(dst, port)] == history[i].addr
  {
    if history != [] {
      var before, last := history[..|history| - 1], history[|history| - 1];
      ForwardIsFirst(before, dst, port);
      if Key(last.dst, last.port) == Key(dst, port) {
        KeyInjective(last.dst, last.port, dst, port);
      }
      forall i | 0 <= i < |before| ensures First(history, i) <==> First(before, i) {
      }
      assert forall i :: 0 <= i < |before| ==> history[i] == before[i];
    }
  }

  /** Forward entries never change once set. */
  lemma {:induction false} ForwardStable(history: seq<Resolution>, more: seq<Resolution>, key: string)
    requires key in Replay(history).domainToIp
    ensures key in Replay(history + more).domainToIp
    ensures Replay(history + more).domainToIp[key] == Replay(history).domainToIp[key]
  {
    if more == [] {
      assert history + more == history;
    } else {
      var init := more[..|more| - 1];
      ForwardStable(history, init, key);
      assert (history + more)[..|history + more| - 1] == history + init;
    }
  }

  /** Every reverse entry has its forward entry. */
  lemma {:induction false} ReverseHasForward(history: seq<Resolution>, sa: SocketAddr)
    requires KeepsPorts(history) && sa in Replay(history).ipToDomain
    ensures var m := Replay(history);
      var key := Key(m.ipToDomain[sa], sa.port);
      key in m.domainToIp && m.domainToIp[key] == sa
  {
    var before := history[..|history| - 1];
    if sa in Replay(before).ipToDomain {
      ReverseHasForward(before, sa);
    }
  }

  lemma NamedPrefix(history: seq<Resolution>, n: nat, i: nat, sa: SocketAddr)
    requires i < n <= |history|
    ensures Named(history, i, sa) <==> Named(history[..n], i, sa)
  {
  }

  /** The last resolution is its destination's first exactly when its key is new. */
  lemma LastIsFirst(history: seq<Resolution>)
    requires history != []
    ensures var n := |history| - 1;
      First(history, n) <==> Key(history[n].dst, history[n].port) !in Replay(history[..n]).domainToIp
  {
    var n := |history| - 1;
    ForwardIsFirst(history[..n], history[n].dst, history[n].port);
    assert forall i :: 0 <= i < n ==> history[..n][i] == history[i];
  }

  lemma NamedStep(history: seq<Resolution>, sa: SocketAddr)
    requires history != []
    ensures var n := |history| - 1;
      Replay(history).ipToDomain ==
        if history[n].domain && First(history, n) then Replay(history[..n]).ipToDomain[history[n].addr := history[n].dst]
        else Replay(history[..n]).ipToDomain
  {
    LastIsFirst(history);
  }

  /** An address maps back to a domain exactly when some domain was first resolved to it. */
  lemma {:induction false} ReverseKnown(history: seq<Resolution>, sa: SocketAddr)
    ensures sa in Replay(history).ipToDomain <==> exists i :: 0 <= i < |history| && Named(history, i, sa)
  {
    if history != [] {
      var n := |history| - 1;
      var before := history[..n];
      ReverseKnown(before, sa);
      NamedStep(history, sa);
      if sa in Replay(before).ipToDomain {
        var i :| 0 <= i < |before| && Named(before, i, sa);
        NamedPrefix(history, n, i, sa);
      } else if sa in Replay(history).ipToDomain {
        assert Named(history, n, sa);
      }
      if i :| 0 <= i < |history| && Named(history, i, sa) {
        if i < n { NamedPrefix(history, n, i, sa); }
      }
    }
  }

  /** It is the domain most recently resolved to it for the first time. */
  lemma {:induction false} ReverseIsLatest(history: seq<Resolution>, i: nat, sa: SocketAddr)
    requires i < |history| && LatestNamed(history, i, sa)
    ensures sa in Replay(history).ipToDomain && Replay(history).ipToDomain[sa] == history[i].dst
  {
    var n := |history| - 1;
    NamedStep(history, sa);
    if i < n {
      var before := history[..n];
      NamedPrefix(history, n, i, sa);
      forall j | i < j < n ensures !Named(before, j, sa) {
        NamedPrefix(history, n, j, sa);
      }
      assert !Named(history, n, sa);
      ReverseIsLatest(before, i, sa);
    }
  }

  // ----- the maps under concurrent writes -----

  /**
   * What resolve_dst_addr does in its second lock scope: it files the address it found, whether or not another
   * write to the same destination has filed one since its first.
   */
  function File(m: Maps, r: Resolution): Maps {
    Maps(m.domainToIp[Key(r.dst, r.port) := r.addr], if r.domain then m.ipToDomain[r.addr := r.dst] else m.ipToDomain)
  }

  /** The maps after the given filings, in the order they took the lock. */
  function Filed(history: seq<Resolution>): Maps {
    if history == [] then Maps(map[], map[]) else File(Filed(history[..|history| - 1]), history[|history| - 1])
  }

  /** No destination was filed twice, which is so when writes are made one at a time. */
  ghost predicate Distinct(history: seq<Resolution>) {
    forall i, j :: 0 <= i < j < |history| ==> history[i].dst != history[j].dst || history[i].port != history[j].port
  }

  /** Whoever files a destination again files the address it already has. */
  ghost predicate Agreeing(history: seq<Resolution>) {
    forall i, j :: 0 <= i < j < |history| && history[i].dst == history[j].dst && history[i].port == history[j].port ==>
      history[i].addr == history[j].addr
  }

  /** One write at a time: filing is recording. */
  lemma {:induction false} FiledIsReplay(history: seq<Resolution>)
    requires Distinct(history)
    ensures Filed(history) == Replay(history)
  {
    if history != [] {
      var before, last := history[..|history| - 1], history[|history| - 1];
      FiledIsReplay(before);
      ForwardIsFirst(before, last.dst, last.port);
    }
  }

  predicate LastFiled(history: seq<Resolution>, i: nat, dst: string, port: u16)
    requires i < |history|
  {
    && history[i].dst == dst && history[i].port == port
    && forall j :: i < j < |history| ==> history[j].dst != dst || history[j].port != port
  }

  /** A key is known exactly when its destination was filed. */
  lemma {:induction false} ForwardIsFiled(history: seq<Resolution>, dst: string, port: u16)
    ensures Key(dst, port) in Filed(history).domainToIp <==>
      exists i :: 0 <= i < |history| && history[i].dst == dst && history[i].port == port
  {
    if history != [] {
      var before, last := history[..|history| - 1], history[|history| - 1];
      ForwardIsFiled(before, dst, port);
      if Key(last.dst, last.port) == Key(dst, port) {
        KeyInjective(last.dst, last.port, dst, port);
      }
      assert forall i :: 0 <= i < |before| ==> history[i] == before[i];
    }
  }

  /** It holds the address filed last, however the writes overlapped. */
  lemma {:induction false} ForwardIsLastFiled(history: seq<Resolution>, i: nat, dst: string, port: u16)
    requires i < |history| && LastFiled(history, i, dst, port)
    ensures Key(dst, port) in Filed(history).domainToIp && Filed(history).domainToIp[Key(dst, port)] == history[i].addr
  {
    var n := |history| - 1;
    if i < n {
      var before, last := history[..n], history[n];
      assert forall j :: 0 <= j < n ==> before[j] == history[j];
      ForwardIsLastFiled(before, i, dst, port);
      if Key(last.dst, last.port) == Key(dst, port) {
        KeyInjective(last.dst, last.port, dst, port);
        assert false;
      }
    }
  }

  /** Filing i is a domain's, and gave the address sa. */
  predicate Gave(history: seq<Resolution>, i: nat, sa: SocketAddr)
    requires i < |history|
  {
    history[i].domain && history[i].addr == sa
  }

  predicate LastGave(history: seq<Resolution>, i: nat, sa: SocketAddr)
    requires i < |history|
  {
    Gave(history, i, sa) && forall j :: i < j < |history| ==> !Gave(history, j, sa)
  }

  /** An address has a reverse entry exactly when a domain's filing gave it. */
  lemma {:induction false} ReverseIsFiled(history: seq<Resolution>, sa: SocketAddr)
    ensures sa in Filed(history).ipToDomain <==> exists i :: 0 <= i < |history| && Gave(history, i, sa)
  {
    if history != [] {
      var n := |history| - 1;
      var before := history[..n];
      ReverseIsFiled(before, sa);
      if history[n].domain && history[n].addr == sa { assert Gave(history, n, sa); }
      forall i | 0 <= i < n ensures Gave(history, i, sa) <==> Gave(before, i, sa) {
      }
    }
  }

  /** The entry names the domain filed last for its address, however the writes overlapped. */
  lemma {:induction false} ReverseIsLastFiled(history: seq<Resolution>, i: nat, sa: SocketAddr)
    requires i < |history| && LastGave(history, i, sa)
    ensures sa in Filed(history).ipToDomain && Filed(history).ipToDomain[sa] == history[i].dst
  {
    var n := |history| - 1;
    if i < n {
      var before := history[..n];
      assert !Gave(history, n, sa);
      forall j | i <= j < n ensures Gave(before, j, sa) <==> Gave(history, j, sa) {
      }
      ReverseIsLastFiled(before, i, sa);
    }
  }

  /** What was filed under a key after n filings is still there. */
  ghost predicate Keeps(history: seq<Resolution>, n: nat, key: string)
    requires n <= |history|
  {
    key in Filed(history[..n]).domainToIp ==>
      key in Filed(history).domainToIp && Filed(history).domainToIp[key] == Filed(history[..n]).domainToIp[key]
  }

  /** Forward entries keep the address they first got. */
  ghost predicate NeverRefiled(history: seq<Resolution>) {
    forall n: nat, key :: n <= |history| ==> Keeps(history, n, key)
  }

  lemma LastFiledExists(history: seq<Resolution>, dst: string, port: u16, i: nat) returns (k: nat)
    requires i < |history| && history[i].dst == dst && history[i].port == port
    ensures i <= k < |history| && LastFiled(history, k, dst, port)
    decreases |history| - i
  {
    if j :| i < j < |history| && history[j].dst == dst && history[j].port == port {
      k := LastFiledExists(history, dst, port, j);
    } else {
      k := i;
    }
  }

  lemma {:induction false} KeyWasFiled(history: seq<Resolution>, key: string) returns (i: nat)
    requires key in Filed(history).domainToIp
    ensures i < |history| && key == Key(history[i].dst, history[i].port)
  {
    var n := |history| - 1;
    if key == Key(history[n].dst, history[n].port) {
      i := n;
    } else {
      i := KeyWasFiled(history[..n], key);
    }
  }

  lemma AgreeingKeeps(history: seq<Resolution>, n: nat, key: string)
    requires Agreeing(history) && n <= |history|
    ensures Keeps(history, n, key)
  {
    var before := history[..n];
    if key in Filed(before).domainToIp {
      var i := KeyWasFiled(before, key);
      var dst, port := history[i].dst, history[i].port;
      var j := LastFiledExists(before, dst, port, i);
      var k := LastFiledExists(history, dst, port, i);
      ForwardIsLastFiled(before, j, dst, port);
      ForwardIsLastFiled(history, k, dst, port);
      assert before[j] == history[j] && j <= k;
    }
  }

  lemma KeepingAgrees(history: seq<Resolution>, i: nat, j: nat)
    requires NeverRefiled(history) && i < j < |history|
    requires history[i].dst == history[j].dst && history[i].port == history[j].port
    ensures history[i].addr == history[j].addr
  {
    var key := Key(history[i].dst, history[i].port);
    FiledAt(history, i);
    FiledAt(history, j);
    assert Keeps(history, i + 1, key) && Keeps(history, j + 1, key);
  }

  lemma FiledAt(history: seq<Resolution>, i: nat)
    requires i < |history|
    ensures var key := Key(history[i].dst, history[i].port);
      key in Filed(history[..i + 1]).domainToIp && Filed(history[..i + 1]).domainToIp[key] == history[i].addr
  {
    var upTo := history[..i + 1];
    assert upTo[..|upTo| - 1] == history[..i] && upTo[|upTo| - 1] == history[i];
  }

  /** Under overlapping writes forward entries never change exactly when no two filings of a destination disagree. */
  lemma RacedForward(history: seq<Resolution>)
    ensures NeverRefiled(history) <==> Agreeing(history)
  {
    if Agreeing(history) {
      forall n: nat, key | n <= |history| ensures Keeps(history, n, key) {
        AgreeingKeeps(history, n, key);
      }
    }
    if NeverRefiled(history) {
      forall i, j | 0 <= i < j < |history| && history[i].dst == history[j].dst && history[i].port == history[j].port
        ensures history[i].addr == history[j].addr
      {
        KeepingAgrees(history, i, j);
      }
    }
  }

  lemma LastGaveExists(history: seq<Resolution>, i: nat, sa: SocketAddr) returns (k: nat)
    requires i < |history| && Gave(history, i, sa)
    ensures i <= k < |history| && LastGave(history, k, sa)
    decreases |history| - i
  {
    if j :| i < j < |history| && Gave(history, j, sa) {
      k := LastGaveExists(history, j, sa);
    } else {
      k := i;
    }
  }

  /** As long as the filings of a destination agree, every reverse entry has its forward entry. */
  lemma ReverseHasForwardFiled(history: seq<Resolution>, sa: SocketAddr)
    requires KeepsPorts(history) && Agreeing(history) && sa in Filed(history).ipToDomain
    ensures var m := Filed(history);
      var key := Key(m.ipToDomain[sa], sa.port);
      key in m.domainToIp && m.domainToIp[key] == sa
  {
    ReverseIsFiled(history, sa);
    var any :| 0 <= any < |history| && Gave(history, any, sa);
    var i := LastGaveExists(history, any, sa);
    ReverseIsLastFiled(history, i, sa);
    var k := LastFiledExists(history, history[i].dst, sa.port, i);
    ForwardIsLastFiled(history, k, history[i].dst, sa.port);
  }

  /** Two overlapping first writes to one name whose lookups differ leave a reverse entry without its forward entry. */
  lemma RacedReverse(dst: string, first: SocketAddr, second: SocketAddr)
    requires first != second && first.port == second.port
    ensures var m := Filed([Resolution(dst, first.port, first, true), Resolution(dst, first.port, second, true)]);
      && first in m.ipToDomain && m.ipToDomain[first] == dst
      && Key(dst, first.port) in m.domainToIp && m.domainToIp[Key(dst, first.port)] != first
  {
    var a, b := Resolution(dst, first.port, first, true), Resolution(dst, first.port, second, true);
    assert [a, b][..1] == [a] && [a][..0] == [];
    assert Filed([a]) == File(Filed([]), a);
    assert Filed([a, b]) == File(Filed([a]), b);
  }

  // ----- the stream -----

  predicate IsFirstIn(addrs: seq<SocketAddr>, v4: bool, i: nat)
    requires i < |addrs|
  {
    addrs[i].ip.V4? == v4 && forall j :: 0 <= j < i ==> addrs[j].ip.V4? != v4
  }

  function FirstIn(addrs: seq<SocketAddr>, v4: bool): (r: Option<SocketAddr>)
    ensures r.Some? ==> exists i :: 0 <= i < |addrs| && IsFirstIn(addrs, v4, i) && addrs[i] == r.value
    ensures r.None? <==> forall a <- addrs :: a.ip.V4? != v4
  {
    if addrs == [] then None
    else if addrs[0].ip.V4? == v4 then assert IsFirstIn(addrs, v4, 0); Some(addrs[0])
    else
      var r := FirstIn(addrs[1..], v4);
      assert forall k :: 0 <= k < |addrs| - 1 && IsFirstIn(addrs[1..], v4, k) ==> IsFirstIn(addrs, v4, k + 1) by {
        assert forall j :: 0 < j < |addrs| ==> addrs[j] == addrs[1..][j - 1];
      }
      r
  }

  /** Of the addresses found, the first of the family, if there is one of it, otherwise the first at all. */
  predicate Preferred(addrs: seq<SocketAddr>, v4: bool, a: SocketAddr) {
    if exists i :: 0 <= i < |addrs| && addrs[i].ip.V4? == v4
    then exists i :: 0 <= i < |addrs| && IsFirstIn(addrs, v4, i) && addrs[i] == a
    else addrs != [] && a == addrs[0]
  }

  function Choose(addrs: seq<SocketAddr>, v4: bool): (r: Option<SocketAddr>)
    ensures r.None? <==> addrs == []
    ensures r.Some? ==> r.value in addrs && Preferred(addrs, v4, r.value)
  {
    var same := FirstIn(addrs, v4);
    if same.Some? then same else if addrs == [] then None else Some(addrs[0])
  }

  class UdpRunStream {
    var domainToIp: map<string, SocketAddr>
    var ipToDomain: map<SocketAddr, string>
    ghost var history: seq<Resolution>

    constructor ()
      ensures Valid() && history == []
    {
      domainToIp, ipToDomain := map[], map[];
      history := [];
    }

    ghost predicate Valid()
      reads this
    {
      Maps(domainToIp, ipToDomain) == Filed(history) && KeepsPorts(history)
    }

    /** The second lock scope of resolve_dst_addr. */
    method Insert(r: Resolution)
      requires Valid() && r.addr.port == r.port
      modifies this
      ensures Valid() && history == old(history) + [r]
      ensures domainToIp == old(domainToIp)[Key(r.dst, r.port) := r.addr]
    {
      domainToIp := domainToIp[Key(r.dst, r.port) := r.addr];
      if r.domain {
        ipToDomain := ipToDomain[r.addr := r.dst];
      }
      history := history + [r];
      assert history[..|history| - 1] == old(history);
    }

    /** What other writes of this stream file between the two lock scopes of one of them. */
    method Overlap(others: seq<Resolution>)
      requires Valid() && KeepsPorts(others)
      modifies this
      ensures Valid() && history == old(history) + others
    {
      for i := 0 to |others|
        invariant Valid() && history == old(history) + others[..i]
      {
        Insert(others[i]);
        assert others[..i + 1] == others[..i] + [others[i]];
      }
      assert others[..|others|] == others;
    }

    /**
     * parsed: the destination read as an IP address, if it is one; localV4: the family of the socket, if
     * it can be told; found: what looking the name up gives; others: what overlapping writes file meanwhile.
     */
    method ResolveDstAddr(dst: string, port: u16, parsed: Option<Ip>, localV4: Option<bool>, found: Option<seq<SocketAddr>>,
      others: seq<Resolution>)
      returns (r: Result<SocketAddr>)
      requires Valid() && (found.Some? ==> forall a <- found.value :: a.port == port) && KeepsPorts(others)
      modifies this
      ensures Valid() && old(history) <= history
      ensures r.Ok? ==> Key(dst, port) in domainToIp && domainToIp[Key(dst, port)] == r.value && r.value.port == port
      ensures Key(dst, port) in old(domainToIp) ==> r.Ok? && history == old(history)
      ensures Key(dst, port) !in old(domainToIp) ==>
        history == old(history) + others + if r.Ok? then [Resolution(dst, port, r.value, parsed.None?)] else []
      ensures Key(dst, port) !in old(domainToIp) && parsed.Some? ==> r == Ok(SocketAddr(parsed.value, port))
      ensures Key(dst, port) !in old(domainToIp) && parsed.None? ==>
        (r.Ok? <==> localV4.Some? && found.Some? && found.value != [])
      ensures Key(dst, port) !in old(domainToIp) && parsed.None? && r.Ok? ==>
        localV4.Some? && found.Some? && Preferred(found.value, localV4.value, r.value)
      ensures Distinct(old(history)) && others == [] ==> Distinct(history)
    {
      ForwardIsFiled(history, dst, port);
      var key := Key(dst, port);
      if key in domainToIp {
        ghost var i :| 0 <= i < |history| && history[i].dst == dst && history[i].port == port;
        ghost var k := LastFiledExists(history, dst, port, i);
        ForwardIsLastFiled(history, k, dst, port);
        return Ok(domainToIp[key]);
      }
      Overlap(others);
      var addr;
      if parsed.Some? {
        addr := SocketAddr(parsed.value, port);
      } else {
        if localV4.None? {
          return Err(NoLocalAddress);
        }
        if found.None? {
          return Err(LookupFailed);
        }
        var chosen := Choose(found.value, localV4.value);
        if chosen.None? {
          return Err(NoAddress);
        }
        addr := chosen.value;
      }
      Insert(Resolution(dst, port, addr, parsed.None?));
      return Ok(addr);
    }

    /** The destination a datagram received from sa is reported under; printed: its IP address as text. */
    method ReportedName(sa: SocketAddr, printed: string) returns (name: string)
      requires Valid()
      ensures (forall i :: 0 <= i < |history| ==> !Gave(history, i, sa)) ==> name == printed
      ensures forall i :: 0 <= i < |history| && LastGave(history, i, sa) ==> name == history[i].dst
      ensures Distinct(history) ==>
        && ((forall i :: 0 <= i < |history| ==> !Named(history, i, sa)) ==> name == printed)
        && (forall i :: 0 <= i < |history| && LatestNamed(history, i, sa) ==> name == history[i].dst)
    {
      ReverseIsFiled(history, sa);
      forall i | 0 <= i < |history| && LastGave(history, i, sa)
        ensures sa in ipToDomain && ipToDomain[sa] == history[i].dst
      {
        ReverseIsLastFiled(history, i, sa);
      }
      if Distinct(history) {
        assert forall i :: 0 <= i < |history| ==> (Named(history, i, sa) <==> Gave(history, i, sa));
      }
      name := if sa in ipToDomain then ipToDomain[sa] else printed;
    }
  }
}
