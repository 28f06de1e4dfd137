/** The ARP cache as the source keeps it: one array, searched and updated in place. */
module ArpDriver {
  import opened Prelude
  import opened NatSpec
  import Spec = ArpSpec
  import opened ArpSpec

  class ArpCache {
    const table: array<ArpEntry>

    ghost predicate Valid()
      reads table
    {
      table.Length > 0 && UniqueIps(table[..])
    }

    /** The ARP half of nat_init. */
    constructor (size: nat)
      requires size > 0
      ensures Valid() && Bindings(table[..]) == map[]
    {
      table := new ArpEntry[size](i => NO_ARP);
    }

    method FindIp(ip: Ip) returns (i: int)
      ensures i == Spec.FindIp(table[..], ip)
    {
      i := 0;
      while i < table.Length
        invariant 0 <= i <= table.Length
        invariant forall j :: 0 <= j < i && table[j].active ==> table[j].ip != ip
      {
        if table[i].active && table[i].ip == ip {
          return;
        }
        i := i + 1;
      }
      i := -1;
    }

    method FirstFree() returns (i: int)
      ensures i == Spec.FirstFree(table[..])
    {
      i := 0;
      while i < table.Length
        invariant 0 <= i <= table.Length
        invariant forall j :: 0 <= j < i ==> table[j].active
      {
        if !table[i].active {
          return;
        }
        i := i + 1;
      }
      i := -1;
    }

    method Oldest(now: tick) returns (oldest: nat)
      requires table.Length > 0
      ensures oldest == Spec.Oldest(table[..], now)
    {
      var time := now;
      oldest := 0;
      for i := 0 to table.Length
        invariant (time, oldest) == OldestUpTo(table[..], i, now)
      {
        if table[i].lastUpdate < time {
          time := table[i].lastUpdate;
          oldest := i;
        }
      }
    }

    /** arp_cache_add */
    method Add(ip: Ip, mac: Mac, now: tick)
      requires Valid()
      modifies table
      ensures Valid() && table[..] == Spec.Add(old(table[..]), ip, mac, now)
    {
      hide Spec.Oldest;
      AddKeepsUnique(table[..], ip, mac, now);
      var i := FindIp(ip);
      if i < 0 {
        i := FirstFree();
      }
      if i < 0 {
        i := Oldest(now);
      }
      table[i] := ArpEntry(true, ip, mac, now);
    }

    /** arp_cache_lookup */
    method Lookup(ip: Ip) returns (found: bool, mac: Mac)
      ensures found == Spec.Lookup(table[..], ip).Some?
      ensures found ==> Spec.Lookup(table[..], ip) == Some(mac)
    {
      var i := FindIp(ip);
      if i < 0 {
        return false, [];
      }
      return true, table[i].mac;
    }

    /** arp_cache_cleanup */
    method Cleanup(now: tick) returns (removed: nat)
      requires Valid()
      modifies table
      ensures Valid() && table[..] == Clean(old(table[..]), now)
      ensures removed == |Live(old(table[..]))| - |Live(table[..])|
    {
      hide AgeSeconds, StaleBelow, UniqueIps, Live;
      ghost var t := table[..];
      CleanKeepsUnique(t, now);
      NoneStaleBelow(t, now);
      removed := 0;
      for i := 0 to table.Length
        invariant forall j :: 0 <= j < i ==> table[j] == Aged(t[j], now)
        invariant forall j :: i <= j < table.Length ==> table[j] == t[j]
        invariant removed == |StaleBelow(t, i, now)|
      {
        StaleStep(t, i + 1, now);
        if table[i].active {
          if AgeSeconds(now, table[i].lastUpdate) >= ARP_TIMEOUT {
            table[i] := table[i].(active := false);
            removed := removed + 1;
          }
        }
      }
      assert table[..] == Clean(t, now);
      StaleAreFreed(t, now);
    }
  }
}
