/** The translation table as the source keeps it: three arrays and a counter, updated in place. */
module NatDriver {
  import opened Prelude
  import Spec = NatSpec
  import opened NatSpec

  class NatTable {
    const table: array<Entry>
    const hash: array<int>
    const outHash: array<int>
    var nextPort: port

    ghost predicate Separate() {
      hash != outHash && table as object != hash && table as object != outHash
    }

    ghost function Abs(): Nat
      reads this, table, hash, outHash
    {
      Nat(table[..], hash[..], outHash[..], nextPort)
    }

    ghost predicate Valid()
      reads this, table, hash, outHash
    {
      Separate() && Shaped(Abs())
    }

    /** nat_init */
    constructor (size: nat)
      requires size <= 127
      ensures Valid() && Abs() == Empty(size)
    {
      table := new Entry[size](i => NO_ENTRY);
      hash := new int[HASH_SIZE](i => -1);
      outHash := new int[HASH_SIZE](i => -1);
      nextPort := PORT_START;
    }

    // ---------------------------------------------------------------- look-ups

    /** The linear search that both look-ups and the allocation share in shape. */
    method ScanTable(q: Query) returns (i: int)
      ensures i == Scan(table[..], q)
    {
      i := 0;
      while i < table.Length
        invariant 0 <= i <= table.Length
        invariant forall j :: 0 <= j < i ==> !Hits(table[j], q)
      {
        if Hits(table[i], q) {
          ScanIs(table[..], q, i);
          return;
        }
        i := i + 1;
      }
      i := -1;
      ScanIs(table[..], q, -1);
    }

    /** nat_find_entry */
    method FindEntry(flow: Flow) returns (i: int)
      requires Valid()
      ensures i == Spec.FindEntry(Abs(), flow)
    {
      hide OutBucket;
      i := outHash[OutBucket(flow.protocol, flow.lanPort)];
      if i >= 0 {
        if Hits(table[i], ByFlow(flow)) {
          return;
        }
      }
      i := ScanTable(ByFlow(flow));
    }

    /** nat_find_reverse_entry */
    method FindReverse(q: Query) returns (i: int)
      requires Valid() && q.ByReply?
      ensures i == Spec.FindReverse(Abs(), q)
    {
      i := hash[Bucket(q.wanPort)];
      if i < 0 {
        return -1;
      }
      if Hits(table[i], q) {
        return;
      }
      i := ScanTable(q);
    }

    // ---------------------------------------------------------------- updates

    /** nat_alloc_port */
    method AllocPort() returns (p: port)
      requires Valid()
      modifies this`nextPort
      ensures Valid() && (p, nextPort) == Spec.AllocPort(old(Abs()))
      ensures Abs() == old(Abs()).(nextPort := nextPort)
    {
      p := nextPort;
      var next := nextPort + 1;
      if next > PORT_END {
        nextPort := PORT_START;
      } else {
        nextPort := next;
      }
    }

    /** nat_translate_outbound */
    method TranslateOutbound(flow: Flow, now: tick) returns (status: int, wanPort: port)
      requires Valid()
      modifies this, table, hash, outHash
      ensures Valid() && Abs() == Outbound(old(Abs()), flow, now).0
      ensures status == if Outbound(old(Abs()), flow, now).1.Some? then 0 else -1
      ensures status == 0 ==> Outbound(old(Abs()), flow, now).1 == Some(wanPort)
    {
      hide Bucket, OutBucket;
      ghost var n := Abs();
      var i := FindEntry(flow);
      if i >= 0 {
        table[i] := table[i].(lastActivity := now);
        assert Abs() == Touch(n, i, now);
        return 0, table[i].wanPort;
      }
      var j := ScanTable(Free);
      if j < 0 {
        return -1, 0;
      }
      wanPort := AllocPort();
      table[j] := Entry(true, flow, wanPort, now, TimeoutOf(flow.protocol));
      hash[Bucket(wanPort)] := j;
      outHash[OutBucket(flow.protocol, flow.lanPort)] := j;
      assert Abs() == Insert(n, j, flow, now);
      status := 0;
    }

    /** nat_translate_inbound */
    method TranslateInbound(q: Query, now: tick) returns (status: int, lanIp: Ip, lanPort: port)
      requires Valid() && q.ByReply?
      modifies table
      ensures Valid() && Abs() == Inbound(old(Abs()), q, now).0
      ensures status == if Inbound(old(Abs()), q, now).1.Some? then 0 else -1
      ensures status == 0 ==> Inbound(old(Abs()), q, now).1 == Some((lanIp, lanPort))
    {
      hide Bucket, OutBucket;
      ghost var n := Abs();
      var i := FindReverse(q);
      if i < 0 {
        return -1, Ip(0, 0, 0, 0), 0;
      }
      table[i] := table[i].(lastActivity := now);
      assert Abs() == Touch(n, i, now);
      return 0, table[i].flow.lanIp, table[i].flow.lanPort;
    }

    /** nat_cleanup_expired */
    method CleanupExpired(now: tick) returns (removed: nat)
      requires Valid()
      modifies table, hash, outHash
      ensures Valid() && (Abs(), removed) == Cleanup(old(Abs()), now)
    {
      hide Bucket, OutBucket, AgeSeconds, RemoveAt;
      ghost var n := Abs();
      removed := 0;
      for i := 0 to table.Length
        invariant Valid() && (Abs(), removed) == CleanUpTo(n, i, now)
      {
        if table[i].active {
          if AgeSeconds(now, table[i].lastActivity) >= table[i].timeout {
            Remove(i);
            removed := removed + 1;
          }
        }
      }
    }

    // nat_hash_remove and nat_outbound_hash_remove, then the entry itself.
    method Remove(i: nat)
      requires Valid() && i < table.Length
      modifies table, hash, outHash
      ensures Valid() && Abs() == RemoveAt(old(Abs()), i)
    {
      hide Bucket, OutBucket;
      ghost var n := Abs();
      hash[Bucket(table[i].wanPort)] := -1;
      outHash[OutBucket(table[i].flow.protocol, table[i].flow.lanPort)] := -1;
      table[i] := table[i].(active := false);
      assert Abs() == RemoveAt(n, i);
    }
  }
}
