/** The ARP cache as a value, and the bounded map it stands for. */
module ArpSpec {
  import opened Prelude
  import opened NatSpec

  const ARP_TIMEOUT: nat := 300

  type Mac = seq<byte>

  datatype ArpEntry = ArpEntry(active: bool, ip: Ip, mac: Mac, lastUpdate: tick)

  const NO_ARP := ArpEntry(false, Ip(0, 0, 0, 0), [0, 0, 0, 0, 0, 0], 0)

  /** The first live entry of an address, or -1. */
  function FindIp(t: seq<ArpEntry>, ip: Ip): (i: int)
    ensures -1 <= i < |t|
    ensures i >= 0 ==> t[i].active && t[i].ip == ip && forall j :: 0 <= j < i && t[j].active ==> t[j].ip != ip
    ensures i == -1 ==> forall j :: 0 <= j < |t| && t[j].active ==> t[j].ip != ip
  {
    if t == [] then -1
    else
      var last := |t| - 1;
      var i := FindIp(t[..last], ip);
      if i >= 0 then i else if t[last].active && t[last].ip == ip then last else -1
  }

  /** The first unused entry, or -1. */
  function FirstFree(t: seq<ArpEntry>): (i: int)
    ensures -1 <= i < |t|
    ensures i >= 0 ==> !t[i].active && forall j :: 0 <= j < i ==> t[j].active
    ensures i == -1 ==> forall j :: 0 <= j < |t| ==> t[j].active
  {
    if t == [] then -1
    else
      var last := |t| - 1;
      var i := FirstFree(t[..last]);
      if i >= 0 then i else if !t[last].active then last else -1
  }

  /** The search for the entry to replace, over the first `k`: the time and index it has settled on. */
  function OldestUpTo(t: seq<ArpEntry>, k: nat, now: tick): (r: (tick, nat))
    requires 0 < |t| && k <= |t|
    ensures r.1 < |t|
  {
    if k == 0 then (now, 0)
    else
      var (time, i) := OldestUpTo(t, k - 1, now);
      if t[k - 1].lastUpdate < time then (t[k - 1].lastUpdate, k - 1) else (time, i)
  }

  function Oldest(t: seq<ArpEntry>, now: tick): (i: nat)
    requires t != []
    ensures i < |t|
  {
    OldestUpTo(t, |t|, now).1
  }

  /** The entry an addition uses: the address's own, else a free one, else the one to replace. */
  function Place(t: seq<ArpEntry>, ip: Ip, now: tick): (i: nat)
    requires t != []
    ensures i < |t|
  {
    if FindIp(t, ip) >= 0 then FindIp(t, ip)
    else if FirstFree(t) >= 0 then FirstFree(t)
    else Oldest(t, now)
  }

  /** arp_cache_add */
  function Add(t: seq<ArpEntry>, ip: Ip, mac: Mac, now: tick): seq<ArpEntry>
    requires t != []
  {
    t[Place(t, ip, now) := ArpEntry(true, ip, mac, now)]
  }

  /** arp_cache_lookup */
  function Lookup(t: seq<ArpEntry>, ip: Ip): Option<Mac> {
    if FindIp(t, ip) >= 0 then Some(t[FindIp(t, ip)].mac) else None
  }

  predicate Stale(e: ArpEntry, now: tick) {
    e.active && AgeSeconds(now, e.lastUpdate) >= ARP_TIMEOUT
  }

  function Aged(e: ArpEntry, now: tick): ArpEntry {
    if Stale(e, now) then e.(active := false) else e
  }

  /** arp_cache_cleanup */
  function Clean(t: seq<ArpEntry>, now: tick): (u: seq<ArpEntry>)
    ensures |u| == |t| && forall i :: 0 <= i < |t| ==> u[i] == Aged(t[i], now)
  {
    seq(|t|, i requires 0 <= i < |t| => Aged(t[i], now))
  }

  function StaleBelow(t: seq<ArpEntry>, k: nat, now: tick): set<nat>
    requires k <= |t|
  {
    set i: nat | i < k && Stale(t[i], now)
  }

  lemma StaleStep(t: seq<ArpEntry>, k: nat, now: tick)
    requires 0 < k <= |t|
    ensures |StaleBelow(t, k, now)| == |StaleBelow(t, k - 1, now)| + if Stale(t[k - 1], now) then 1 else 0
  {
    hide Stale;
    assert StaleBelow(t, k, now)
           == if Stale(t[k - 1], now) then StaleBelow(t, k - 1, now) + {k - 1} else StaleBelow(t, k - 1, now);
  }

  lemma NoneStaleBelow(t: seq<ArpEntry>, now: tick)
    ensures StaleBelow(t, 0, now) == {}
  {}

  // ---------------------------------------------------------------- the map

  /** At most one live entry per address. */
  ghost predicate UniqueIps(t: seq<ArpEntry>) {
    forall i, j :: 0 <= i < j < |t| && t[i].active && t[j].active ==> t[i].ip != t[j].ip
  }

  /** What the cache binds: the address of each live entry, to the hardware address a look-up returns. */
  ghost function Bindings(t: seq<ArpEntry>): map<Ip, Mac> {
    map i | 0 <= i < |t| && t[i].active :: t[i].ip := t[FindIp(t, t[i].ip)].mac
  }

  lemma LookupIsBinding(t: seq<ArpEntry>, ip: Ip)
    ensures Lookup(t, ip) == if ip in Bindings(t) then Some(Bindings(t)[ip]) else None
  {
    if FindIp(t, ip) >= 0 {
      assert t[FindIp(t, ip)].ip in Bindings(t);
    }
  }

  lemma FindIpIs(t: seq<ArpEntry>, ip: Ip, i: nat)
    requires UniqueIps(t) && i < |t| && t[i].active && t[i].ip == ip
    ensures FindIp(t, ip) == i
  {}

  lemma AddKeepsUnique(t: seq<ArpEntry>, ip: Ip, mac: Mac, now: tick)
    requires t != [] && UniqueIps(t)
    ensures UniqueIps(Add(t, ip, mac, now))
  {
    hide Oldest;
  }

  lemma CleanKeepsUnique(t: seq<ArpEntry>, now: tick)
    requires UniqueIps(t)
    ensures UniqueIps(Clean(t, now))
  {}

  /** No room for a new address. */
  predicate Evicts(t: seq<ArpEntry>, ip: Ip) {
    FindIp(t, ip) < 0 && FirstFree(t) < 0
  }

  /** A look-up after an addition returns the added address. */
  lemma AddThenLookup(t: seq<ArpEntry>, ip: Ip, mac: Mac, now: tick)
    requires t != [] && UniqueIps(t)
    ensures Lookup(Add(t, ip, mac, now), ip) == Some(mac)
  {
    hide Oldest;
    AddKeepsUnique(t, ip, mac, now);
    FindIpIs(Add(t, ip, mac, now), ip, Place(t, ip, now));
  }

  lemma AddOther(t: seq<ArpEntry>, ip: Ip, mac: Mac, now: tick, x: Ip)
    requires t != [] && UniqueIps(t) && x != ip
    ensures Lookup(Add(t, ip, mac, now), x) == if Evicts(t, ip) && t[Oldest(t, now)].ip == x then None else Lookup(t, x)
  {
    hide Oldest;
    AddKeepsUnique(t, ip, mac, now);
    var u := Add(t, ip, mac, now);
    var p := Place(t, ip, now);
    var i := FindIp(t, x);
    if i >= 0 && i != p {
      FindIpIs(u, x, i);
    }
  }

  /** The address an addition drops, if any. */
  function Lost(t: seq<ArpEntry>, ip: Ip, now: tick): set<Ip>
    requires t != []
  {
    if Evicts(t, ip) then {t[Oldest(t, now)].ip} else {}
  }

  lemma MapPut<K, V>(m: map<K, V>, m': map<K, V>, lost: set<K>, k: K, v: V)
    requires k in m' && m'[k] == v
    requires forall x :: x in m' && x != k ==> x in m && x !in lost && m'[x] == m[x]
    requires forall x :: x in m && x != k && x !in lost ==> x in m'
    ensures m' == (m - lost)[k := v]
  {}

  /** An addition binds its address; every other binding stays, except one if the cache is full. */
  lemma AddBinds(t: seq<ArpEntry>, ip: Ip, mac: Mac, now: tick)
    requires t != [] && UniqueIps(t)
    ensures Bindings(Add(t, ip, mac, now)) == (Bindings(t) - Lost(t, ip, now))[ip := mac]
  {
    hide Add, Bindings, Lookup, UniqueIps, Lost;
    var u := Add(t, ip, mac, now);
    AddThenLookup(t, ip, mac, now);
    LookupIsBinding(u, ip);
    forall x | x != ip ensures x in Bindings(u) ==> x in Bindings(t) && x !in Lost(t, ip, now) && Bindings(u)[x] == Bindings(t)[x]
                       ensures x in Bindings(t) && x !in Lost(t, ip, now) ==> x in Bindings(u)
    {
      OtherBinding(t, ip, mac, now, x);
    }
    MapPut(Bindings(t), Bindings(u), Lost(t, ip, now), ip, mac);
  }

  lemma LostIs(t: seq<ArpEntry>, ip: Ip, now: tick, x: Ip)
    requires t != []
    ensures x in Lost(t, ip, now) <==> Evicts(t, ip) && t[Oldest(t, now)].ip == x
  {
    hide Oldest;
  }

  lemma OtherBinding(t: seq<ArpEntry>, ip: Ip, mac: Mac, now: tick, x: Ip)
    requires t != [] && UniqueIps(t) && x != ip
    ensures var u := Add(t, ip, mac, now);
            && (x in Bindings(u) ==> x in Bindings(t) && x !in Lost(t, ip, now) && Bindings(u)[x] == Bindings(t)[x])
            && (x in Bindings(t) && x !in Lost(t, ip, now) ==> x in Bindings(u))
  {
    hide *;
    AddOther(t, ip, mac, now, x);
    LookupIsBinding(Add(t, ip, mac, now), x);
    LookupIsBinding(t, x);
    LostIs(t, ip, now, x);
  }

  /** What it drops was bound, and is not the address just added. */
  lemma LostWasBound(t: seq<ArpEntry>, ip: Ip, now: tick)
    requires t != [] && UniqueIps(t)
    ensures |Lost(t, ip, now)| <= 1 && ip !in Lost(t, ip, now) && Lost(t, ip, now) <= Bindings(t).Keys
  {
    hide Oldest;
    LookupIsBinding(t, t[Oldest(t, now)].ip);
  }

  ghost predicate IsOldest(t: seq<ArpEntry>, i: nat) {
    i < |t| && forall j :: 0 <= j < |t| ==> t[i].lastUpdate <= t[j].lastUpdate
  }

  lemma {:induction false} OldestUpToIs(t: seq<ArpEntry>, k: nat, now: tick)
    requires t != [] && k <= |t|
    ensures var (time, i) := OldestUpTo(t, k, now);
            && time <= now && (forall j :: 0 <= j < k ==> time <= t[j].lastUpdate)
            && (if time < now then i < k && t[i].lastUpdate == time else i == 0 && time == now)
  {
    if k > 0 {
      OldestUpToIs(t, k - 1, now);
    }
  }

  /** The ticks since the entry's update, on the 32-bit clock. */
  function Age(e: ArpEntry, now: tick): nat {
    (now - e.lastUpdate) % 0x1_0000_0000
  }

  ghost predicate IsEldest(t: seq<ArpEntry>, i: nat, now: tick) {
    i < |t| && forall j :: 0 <= j < |t| ==> Age(t[j], now) <= Age(t[i], now)
  }

  lemma AgeIs(e: ArpEntry, now: tick)
    ensures Age(e, now) == now - e.lastUpdate + if e.lastUpdate <= now then 0 else 0x1_0000_0000
  {}

  /**
   * The entry replaced has the greatest age exactly when no update is stamped later than now - the clock has
   * not wrapped since any of them - or when none is stamped earlier and entry 0 has the greatest age.
   */
  lemma EvictsEldestIff(t: seq<ArpEntry>, now: tick)
    requires t != []
    ensures IsEldest(t, Oldest(t, now), now) <==>
              (forall i :: 0 <= i < |t| ==> t[i].lastUpdate <= now)
              || ((forall i :: 0 <= i < |t| ==> t[i].lastUpdate >= now) && IsEldest(t, 0, now))
  {
    hide Age, OldestUpTo;
    OldestUpToIs(t, |t|, now);
    forall i | 0 <= i < |t|
      ensures Age(t[i], now) == now - t[i].lastUpdate + if t[i].lastUpdate <= now then 0 else 0x1_0000_0000
    {
      AgeIs(t[i], now);
    }
  }

  /** On a clock that has not wrapped it has the least update stamp, and the greatest age. */
  lemma EvictsOldest(t: seq<ArpEntry>, now: tick)
    requires t != [] && forall i :: 0 <= i < |t| ==> t[i].lastUpdate <= now
    ensures IsOldest(t, Oldest(t, now)) && IsEldest(t, Oldest(t, now), now)
  {
    OldestUpToIs(t, |t|, now);
    EvictsEldestIff(t, now);
  }

  /** After the clock has wrapped a full cache may drop an entry two ticks old and keep one of 65541 ticks. */
  lemma WrappedClockEvictsOther()
    ensures var e := ArpEntry(true, Ip(10, 0, 0, 1), [], 0xFFFF_0000);
            var f := ArpEntry(true, Ip(10, 0, 0, 2), [], 3);
            && Evicts([e, f], Ip(10, 0, 0, 3)) && Oldest([e, f], 5) == 1
            && Age(e, 5) == 65541 && Age(f, 5) == 2
  {
    var e := ArpEntry(true, Ip(10, 0, 0, 1), [], 0xFFFF_0000);
    var f := ArpEntry(true, Ip(10, 0, 0, 2), [], 3);
    OldestUpToIs([e, f], 2, 5);
    assert [e, f][0] == e && [e, f][1] == f;
  }

  /** A clean-up forgets exactly the addresses whose entry is 300 seconds old or more. */
  lemma CleanForgets(t: seq<ArpEntry>, now: tick, ip: Ip)
    requires UniqueIps(t)
    ensures Lookup(Clean(t, now), ip) ==
              if FindIp(t, ip) >= 0 && !Stale(t[FindIp(t, ip)], now) then Lookup(t, ip) else None
  {
    hide Stale, FindIp;
    CleanKeepsUnique(t, now);
    var i := FindIp(t, ip);
    if i >= 0 && !Stale(t[i], now) {
      FindIpIs(Clean(t, now), ip, i);
    }
  }

  // ---------------------------------------------------------------- runs

  datatype ArpStep = ArpAdd(ip: Ip, mac: Mac, now: tick) | ArpClean(now: tick)

  function ArpApply(t: seq<ArpEntry>, s: ArpStep): (u: seq<ArpEntry>)
    requires t != []
    ensures |u| == |t|
  {
    match s
    case ArpAdd(ip, mac, now) => Add(t, ip, mac, now)
    case ArpClean(now) => Clean(t, now)
  }

  function ArpRun(t: seq<ArpEntry>, steps: seq<ArpStep>): (u: seq<ArpEntry>)
    requires t != []
    ensures |u| == |t|
    decreases |steps|
  {
    if steps == [] then t else ArpRun(ArpApply(t, steps[0]), steps[1..])
  }

  /** The plain map: additions bind, nothing else is ever lost. */
  function PlainMap(m: map<Ip, Mac>, steps: seq<ArpStep>): map<Ip, Mac>
    decreases |steps|
  {
    if steps == [] then m
    else PlainMap(if steps[0].ArpAdd? then m[steps[0].ip := steps[0].mac] else m, steps[1..])
  }

  lemma {:induction false} RunKeepsUnique(t: seq<ArpEntry>, steps: seq<ArpStep>)
    requires t != [] && UniqueIps(t)
    ensures UniqueIps(ArpRun(t, steps))
    decreases |steps|
  {
    if steps != [] {
      if steps[0].ArpAdd? {
        AddKeepsUnique(t, steps[0].ip, steps[0].mac, steps[0].now);
      } else {
        CleanKeepsUnique(t, steps[0].now);
      }
      RunKeepsUnique(ArpApply(t, steps[0]), steps[1..]);
    }
  }

  /**
   * In every run: what a look-up returns was the last addition for its address. The cache may have
   * forgotten a binding the plain map still has, but never answers differently.
   */
  lemma {:induction false} AnswersAreCurrent(t: seq<ArpEntry>, m: map<Ip, Mac>, steps: seq<ArpStep>, ip: Ip)
    requires t != [] && UniqueIps(t)
    requires forall x :: Lookup(t, x).Some? ==> x in m && m[x] == Lookup(t, x).value
    ensures var answer := Lookup(ArpRun(t, steps), ip);
            answer.Some? ==> ip in PlainMap(m, steps) && PlainMap(m, steps)[ip] == answer.value
    decreases |steps|
  {
    if steps != [] {
      var u := ArpApply(t, steps[0]);
      var m' := if steps[0].ArpAdd? then m[steps[0].ip := steps[0].mac] else m;
      RunKeepsUnique(t, [steps[0]]);
      assert [steps[0]][1..] == [] && ArpRun(u, []) == u;
      forall x | Lookup(u, x).Some? ensures x in m' && m'[x] == Lookup(u, x).value {
        StepAnswers(t, steps[0], x);
      }
      AnswersAreCurrent(u, m', steps[1..], ip);
    }
  }

  lemma StepAnswers(t: seq<ArpEntry>, s: ArpStep, x: Ip)
    requires t != [] && UniqueIps(t)
    ensures var answer := Lookup(ArpApply(t, s), x);
            if s.ArpAdd? && s.ip == x then answer == Some(s.mac) else answer == Lookup(t, x) || answer == None
  {
    hide Stale, Oldest, Clean;
    match s
    case ArpAdd(ip, mac, now) =>
      if ip == x {
        AddThenLookup(t, ip, mac, now);
      } else {
        AddOther(t, ip, mac, now, x);
      }
    case ArpClean(now) => CleanForgets(t, now, x);
  }

  // ---------------------------------------------------------------- time

  /** When the live entry of an address was last written. */
  function Stamp(t: seq<ArpEntry>, ip: Ip): Option<tick> {
    if FindIp(t, ip) >= 0 then Some(t[FindIp(t, ip)].lastUpdate) else None
  }

  lemma StepStamp(t: seq<ArpEntry>, s: ArpStep, x: Ip)
    requires t != [] && UniqueIps(t)
    ensures var stamp := Stamp(ArpApply(t, s), x);
            if s.ArpAdd? && s.ip == x then stamp == Some(s.now) else stamp == Stamp(t, x) || stamp == None
  {
    hide Stale, Oldest;
    var u := ArpApply(t, s);
    RunKeepsUnique(t, [s]);
    assert [s][1..] == [] && ArpRun(u, []) == u;
    var i := FindIp(u, x);
    if s.ArpAdd? && s.ip == x {
      FindIpIs(u, x, Place(t, x, s.now));
    } else if i >= 0 {
      FindIpIs(t, x, i);
    }
  }

  /** The time of the last addition for an address, or `before` if the run has none. */
  function LastAdded(steps: seq<ArpStep>, ip: Ip, before: Option<tick>): Option<tick> {
    if steps == [] then before
    else LastAdded(steps[1..], ip, if steps[0].ArpAdd? && steps[0].ip == ip then Some(steps[0].now) else before)
  }

  lemma {:induction false} RunStamp(t: seq<ArpEntry>, steps: seq<ArpStep>, ip: Ip, before: Option<tick>)
    requires t != [] && UniqueIps(t) && (Stamp(t, ip).Some? ==> Stamp(t, ip) == before)
    ensures var stamp := Stamp(ArpRun(t, steps), ip); stamp.Some? ==> stamp == LastAdded(steps, ip, before)
    decreases |steps|
  {
    if steps != [] {
      var s := steps[0];
      StepStamp(t, s, ip);
      RunKeepsUnique(t, [s]);
      assert [s][1..] == [] && ArpRun(ArpApply(t, s), []) == ArpApply(t, s);
      RunStamp(ArpApply(t, s), steps[1..], ip, if s.ArpAdd? && s.ip == ip then Some(s.now) else before);
    }
  }

  function Live(t: seq<ArpEntry>): set<nat> {
    set i: nat | i < |t| && t[i].active
  }

  /** The stale entries are as many as a clean-up frees. */
  lemma StaleAreFreed(t: seq<ArpEntry>, now: tick)
    ensures |StaleBelow(t, |t|, now)| == |Live(t)| - |Live(Clean(t, now))|
  {
    var stale := StaleBelow(t, |t|, now);
    assert Live(t) == Live(Clean(t, now)) + stale && Live(Clean(t, now)) !! stale;
  }

  lemma StaleInNumbers(e: ArpEntry, now: tick)
    requires e.active
    ensures Stale(e, now) <==> e.lastUpdate / 1000 > now / 1000 || now / 1000 - e.lastUpdate / 1000 >= 300
  {
    assert 0 <= now / 1000 < 4294968 && 0 <= e.lastUpdate / 1000 < 4294968;
  }

  /**
   * In every run from an empty cache: a clean-up keeps an address exactly while fewer than 300 whole seconds have
   * passed since its last addition, and forgets it also when the clock has wrapped to an earlier second. No look-up
   * and no other addition makes an entry younger.
   */
  lemma CleanForgetsAfter300(size: nat, steps: seq<ArpStep>, ip: Ip, now: tick)
    requires size > 0
    ensures var t := ArpRun(seq(size, i => NO_ARP), steps);
            var added := LastAdded(steps, ip, None);
            Lookup(Clean(t, now), ip) ==
              if Lookup(t, ip).Some? && added.Some?
                 && added.value / 1000 <= now / 1000 && now / 1000 - added.value / 1000 < 300
              then Lookup(t, ip) else None
  {
    var empty := seq(size, i => NO_ARP);
    var t := ArpRun(empty, steps);
    RunKeepsUnique(empty, steps);
    RunStamp(empty, steps, ip, None);
    hide Stale, ArpRun, LastAdded;
    CleanForgets(t, now, ip);
    var i := FindIp(t, ip);
    if i >= 0 {
      StaleInNumbers(t[i], now);
    }
  }
}
