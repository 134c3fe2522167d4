/**
 * The earlier Consul agent of the connection service
 * (services/connection-service/discovery/discovery.go): the registration it sends
 * for itself, and the handler that tracks which Redis nodes are up.
 *
 * The Consul client, the TTL heartbeat and the plan's run are outside the model.
 * The handler's log lines are kept as a log of `MemberEvent`s; the `nodes` map it
 * closes over, a `map[string]struct{}`, is a set of node ids.
 */
module LegacyDiscovery {
  import opened Wrappers
  import opened Utf8
  import SliceUtil
  import ClusterDiscovery

  // ---------------------------------------------------------------------------
  // Go's `time.Duration.String`

  const Nanosecond: int := 1
  const Microsecond: int := 1000
  const Millisecond: int := 1_000_000
  const Second: int := 1_000_000_000

  /** `fmtInt`: the decimal digits of `v`. */
  function FmtInt(v: nat): string
  {
    SliceUtil.DecimalString(v)
  }

  /** The `prec` low digits of `v`, most significant first, zeros included. */
  function AllDigits(v: nat, prec: nat): (s: string)
    ensures |s| == prec
  {
    if prec == 0 then "" else AllDigits(v / 10, prec - 1) + [SliceUtil.Digit(v % 10)]
  }

  /** The `prec` low digits of `v`, most significant first, with trailing zeros dropped. */
  function FracDigits(v: nat, prec: nat): (s: string)
    ensures |s| <= prec
  {
    if prec == 0 then ""
    else if v % 10 != 0 then AllDigits(v / 10, prec - 1) + [SliceUtil.Digit(v % 10)]
    else FracDigits(v / 10, prec - 1)
  }

  /** `10^p`. */
  function Pow10(p: nat): (r: nat)
    ensures r >= 1
  {
    if p == 0 then 1 else 10 * Pow10(p - 1)
  }

  /** `fmtFrac(v, prec)`: the fraction, with its point, or nothing when it is zero. */
  function FmtFrac(v: nat, prec: nat): string
  {
    var digits := FracDigits(v, prec);
    if digits == [] then "" else "." + digits
  }

  /** A non-negative duration below one second, with its unit suffix. */
  function SubSecond(u: nat): string
    requires u < Second
  {
    if u == 0 then "0s"
    else if u < Microsecond then FmtInt(u) + "ns"
    else if u < Millisecond then FmtInt(u / Pow10(3)) + FmtFrac(u, 3) + "µs"
    else FmtInt(u / Pow10(6)) + FmtFrac(u, 6) + "ms"
  }

  /** A non-negative duration of one second or more, as hours, minutes and seconds. */
  function AboveSecond(u: nat): string
    requires u >= Second
  {
    var secs: nat := u / Second;
    var s := FmtInt(secs % 60) + FmtFrac(u, 9) + "s";
    var mins := secs / 60;
    if mins == 0 then s
    else
      var m := FmtInt(mins % 60) + "m" + s;
      var hours := mins / 60;
      if hours == 0 then m else FmtInt(hours) + "h" + m
  }

  /** `Duration.String()` for a duration of `d` nanoseconds. */
  function DurationString(d: int): string
  {
    var u := if d < 0 then -d else d;
    var body := if u < Second then SubSecond(u) else AboveSecond(u);
    if d < 0 then "-" + body else body
  }

  lemma DigitOf(d: nat)
    requires d < 10
    ensures SliceUtil.DecimalString(d) == [SliceUtil.Digit(d)]
  {
  }

  /** Whole seconds under a minute print as the count and `s`. */
  lemma DurationWholeSeconds(n: nat)
    requires 0 < n < 60
    ensures DurationString(n * Second) == SliceUtil.DecimalString(n) + "s"
  {
    var u := n * Second;
    assert Pow10(9) == Second;
    FracDigitsShift(n, 9, 0);
    assert FracDigits(u, 9) == "";
    assert u / Pow10(9) == n;
    assert n % 60 == n && n / 60 == 0;
  }

  /** Zeros below the `zeros` lowest digits are dropped from the fraction. */
  lemma {:induction false} FracDigitsShift(k: nat, zeros: nat, rest: nat)
    ensures FracDigits(k * Pow10(zeros), zeros + rest) == FracDigits(k, rest)
  {
    if zeros > 0 {
      var m := k * Pow10(zeros - 1);
      assert k * Pow10(zeros) == m * 10;
      assert (m * 10) % 10 == 0 && (m * 10) / 10 == m;
      FracDigitsShift(k, zeros - 1, rest);
    }
  }

  /** A negative duration prints as its magnitude behind a minus sign. */
  lemma DurationNegative(d: int)
    requires d > 0
    ensures DurationString(-d) == "-" + DurationString(d)
  {
  }

  /** The zero duration, and a duration with a fraction. */
  lemma DurationExamples()
    ensures DurationString(0) == "0s"
    ensures DurationString(1500 * Millisecond) == "1.5s"
  {
    assert Pow10(8) == 100_000_000 && Pow10(9) == Second;
    FracDigitsShift(15, 8, 1);
    assert FracDigits(15, 1) == "5";
  }

  /** Ninety seconds carry into a minute. */
  lemma DurationCarries()
    ensures DurationString(90 * Second) == "1m30s"
  {
    assert Pow10(9) == Second;
    FracDigitsShift(90, 9, 0);
    assert FmtFrac(90 * Second, 9) == "";
    assert SliceUtil.DecimalString(30) == "30";
  }

  /** A whole hour still prints its zero minutes and seconds. */
  lemma DurationWholeHour()
    ensures DurationString(3600 * Second) == "1h0m0s"
  {
    assert Pow10(9) == Second;
    FracDigitsShift(3600, 9, 0);
    assert FmtFrac(3600 * Second, 9) == "";
  }

  // ---------------------------------------------------------------------------
  // `uuid.UUID.String`

  /** A lower-case hexadecimal digit. */
  function HexDigit(d: nat): (c: char)
    requires d < 16
    ensures ('0' <= c <= '9') || ('a' <= c <= 'f')
  {
    if d < 10 then (('0' as int) + d) as char else (('a' as int) + d - 10) as char
  }

  /** The two hexadecimal digits of a byte. */
  function HexByte(b: byte): string
  {
    [HexDigit(b as int / 16), HexDigit(b as int % 16)]
  }

  function Hex(bytes: seq<byte>): (s: string)
    ensures |s| == 2 * |bytes|
  {
    if bytes == [] then "" else HexByte(bytes[0]) + Hex(bytes[1..])
  }

  /** `UUID.String()`: the 16 bytes in hexadecimal, grouped 8-4-4-4-12 by dashes. */
  function UuidString(id: seq<byte>): (s: string)
    requires |id| == 16
    ensures |s| == 36 && s[8] == '-' && s[13] == '-' && s[18] == '-' && s[23] == '-'
  {
    Hex(id[..4]) + "-" + Hex(id[4..6]) + "-" + Hex(id[6..8]) + "-" + Hex(id[8..10]) + "-" + Hex(id[10..])
  }

  /** Two bytes with the same two hexadecimal digits are the same byte. */
  lemma HexByteInjective(a: byte, b: byte)
    requires HexByte(a) == HexByte(b)
    ensures a == b
  {
    assert HexDigit(a as int / 16) == HexDigit(b as int / 16);
    assert HexDigit(a as int % 16) == HexDigit(b as int % 16);
    assert a as int == 16 * (a as int / 16) + a as int % 16;
  }

  /** Byte strings of one length with the same hexadecimal text are equal. */
  lemma {:induction false} HexInjective(xs: seq<byte>, ys: seq<byte>)
    requires |xs| == |ys| && Hex(xs) == Hex(ys)
    ensures xs == ys
  {
    if xs != [] {
      assert Hex(xs)[..2] == HexByte(xs[0]) && Hex(ys)[..2] == HexByte(ys[0]);
      HexByteInjective(xs[0], ys[0]);
      assert Hex(xs)[2..] == Hex(xs[1..]) && Hex(ys)[2..] == Hex(ys[1..]);
      HexInjective(xs[1..], ys[1..]);
      assert xs == [xs[0]] + xs[1..] && ys == [ys[0]] + ys[1..];
    }
  }

  /** What stands either side of a dash appended after `p`. */
  lemma AroundDash(p: string, t: string)
    ensures (p + "-" + t)[..|p|] == p && (p + "-" + t)[|p| + 1..] == t
  {
  }

  lemma SliceOfPrefix(s: string, i: nat, j: nat)
    requires i <= j <= |s|
    ensures s[..j][..i] == s[..i] && s[..j][i..] == s[i..j]
  {
  }

  /** The five dash-separated groups of `Id.String()` are the hexadecimal texts of the id's five slices. */
  lemma UuidGroups(id: seq<byte>)
    requires |id| == 16
    ensures var s := UuidString(id);
      && s[..8] == Hex(id[..4]) && s[9..13] == Hex(id[4..6]) && s[14..18] == Hex(id[6..8])
      && s[19..23] == Hex(id[8..10]) && s[24..] == Hex(id[10..])
  {
    var p2 := Hex(id[..4]) + "-" + Hex(id[4..6]);
    var p3 := p2 + "-" + Hex(id[6..8]);
    var p4 := p3 + "-" + Hex(id[8..10]);
    var s := UuidString(id);
    assert s == p4 + "-" + Hex(id[10..]);
    AroundDash(p4, Hex(id[10..]));
    AroundDash(p3, Hex(id[8..10]));
    AroundDash(p2, Hex(id[6..8]));
    AroundDash(Hex(id[..4]), Hex(id[4..6]));
    SliceOfPrefix(s, 19, 23);
    SliceOfPrefix(s, 18, 23);
    SliceOfPrefix(p4, 14, 18);
    SliceOfPrefix(p4, 13, 18);
    SliceOfPrefix(p3, 9, 13);
    SliceOfPrefix(p3, 8, 13);
    SliceOfPrefix(s, 14, 18);
    SliceOfPrefix(s, 13, 18);
    SliceOfPrefix(s, 9, 13);
    SliceOfPrefix(s, 8, 13);
  }

  lemma SlicesJoin(a: seq<byte>)
    requires |a| == 16
    ensures a == a[..4] + a[4..6] + a[6..8] + a[8..10] + a[10..]
  {
  }

  /**
   * Distinct agent ids give distinct `Id.String()` texts, so two agents never
   * register under one Consul service id.
   */
  lemma UuidStringInjective(a: seq<byte>, b: seq<byte>)
    requires |a| == 16 && |b| == 16 && UuidString(a) == UuidString(b)
    ensures a == b
  {
    UuidGroups(a);
    UuidGroups(b);
    HexInjective(a[..4], b[..4]);
    HexInjective(a[4..6], b[4..6]);
    HexInjective(a[6..8], b[6..8]);
    HexInjective(a[8..10], b[8..10]);
    HexInjective(a[10..], b[10..]);
    SlicesJoin(a);
    SlicesJoin(b);
  }

  // ---------------------------------------------------------------------------
  // The registration

  /** `capi.AgentServiceCheck`, with the fields this agent sets. */
  datatype AgentServiceCheck = AgentServiceCheck(checkId: string, tlsSkipVerify: bool, ttl: string)

  /** `capi.AgentServiceRegistration`, with the fields this agent sets. */
  datatype AgentServiceRegistration =
    AgentServiceRegistration(id: string, name: string, tags: seq<string>, port: int, check: AgentServiceCheck)

  /** The identity fields of the agent. */
  datatype AgentIdentity = AgentIdentity(
    id: seq<byte>, serviceName: string, tags: seq<string>, port: int, ttl: int, checkId: string)

  /** `serviceRegistration()`: the agent's own fields, with a TTL check that skips TLS verification. */
  function ServiceRegistration(c: AgentIdentity): (r: AgentServiceRegistration)
    requires |c.id| == 16
    ensures r.id == UuidString(c.id) && r.name == c.serviceName && r.tags == c.tags && r.port == c.port
    ensures r.check == AgentServiceCheck(c.checkId, true, DurationString(c.ttl))
  {
    AgentServiceRegistration(UuidString(c.id), c.serviceName, c.tags, c.port,
      AgentServiceCheck(c.checkId, true, DurationString(c.ttl)))
  }

  // ---------------------------------------------------------------------------
  // The node set handler

  /** A line the handler logs. */
  datatype MemberEvent =
    | Joined(nodeId: string, address: string, port: int)
    | Removed(nodeId: string)

  /** The ids a list of entries names. */
  ghost function EntryIds(entries: seq<ClusterDiscovery.ServiceEntry>): set<string>
  {
    set i | 0 <= i < |entries| :: entries[i].node
  }

  /** The "joined" lines for `entries`: one for each entry whose id is neither in `known` nor earlier in the list. */
  function JoinedLog(known: set<string>, entries: seq<ClusterDiscovery.ServiceEntry>): seq<MemberEvent>
    decreases |entries|
  {
    if entries == [] then []
    else
      var e := entries[0];
      (if e.node in known then [] else [Joined(e.node, e.address, e.servicePort)])
        + JoinedLog(known + {e.node}, entries[1..])
  }

  /** The ids of the "joined" lines. */
  ghost function JoinedIds(log: seq<MemberEvent>): set<string>
  {
    set i | 0 <= i < |log| :: log[i].nodeId
  }

  lemma EntryIdsCons(entries: seq<ClusterDiscovery.ServiceEntry>)
    requires entries != []
    ensures EntryIds(entries) == {entries[0].node} + EntryIds(entries[1..])
  {
    var rest := entries[1..];
    forall x | x in EntryIds(entries) ensures x in {entries[0].node} + EntryIds(rest) {
      var i :| 0 <= i < |entries| && entries[i].node == x;
      if i > 0 { assert rest[i - 1] == entries[i]; }
    }
    forall x | x in EntryIds(rest) ensures x in EntryIds(entries) {
      var i :| 0 <= i < |rest| && rest[i].node == x;
      assert entries[i + 1] == rest[i];
    }
  }

  lemma JoinedIdsAppend(a: seq<MemberEvent>, b: seq<MemberEvent>)
    ensures JoinedIds(a + b) == JoinedIds(a) + JoinedIds(b)
  {
    var log := a + b;
    forall x | x in JoinedIds(log) ensures x in JoinedIds(a) + JoinedIds(b) {
      var i :| 0 <= i < |log| && log[i].nodeId == x;
      if i >= |a| { assert b[i - |a|] == log[i]; } else { assert a[i] == log[i]; }
    }
    forall x | x in JoinedIds(b) ensures x in JoinedIds(log) {
      var i :| 0 <= i < |b| && b[i].nodeId == x;
      assert log[i + |a|] == b[i];
    }
    forall x | x in JoinedIds(a) ensures x in JoinedIds(log) {
      var i :| 0 <= i < |a| && a[i].nodeId == x;
      assert log[i] == a[i];
    }
  }

  /** The ids reported joined are exactly the listed ids not already known. */
  lemma {:induction false} JoinedNewIds(known: set<string>, entries: seq<ClusterDiscovery.ServiceEntry>)
    ensures JoinedIds(JoinedLog(known, entries)) == EntryIds(entries) - known
    decreases |entries|
  {
    if entries != [] {
      var e, rest := entries[0], entries[1..];
      JoinedNewIds(known + {e.node}, rest);
      var head: seq<MemberEvent> := if e.node in known then [] else [Joined(e.node, e.address, e.servicePort)];
      var tail := JoinedLog(known + {e.node}, rest);
      assert JoinedLog(known, entries) == head + tail;
      EntryIdsCons(entries);
      JoinedIdsAppend(head, tail);
      assert JoinedIds(head) == (if e.node in known then {} else {e.node}) by {
        if e.node !in known { assert head[0].nodeId == e.node; }
      }
    } else {
      assert EntryIds(entries) == {};
    }
  }

  /** No id is reported joined twice. */
  lemma {:induction false} JoinedOnce(known: set<string>, entries: seq<ClusterDiscovery.ServiceEntry>)
    ensures var log := JoinedLog(known, entries);
      forall i, j :: 0 <= i < j < |log| ==> log[i].nodeId != log[j].nodeId
    decreases |entries|
  {
    if entries != [] {
      var e, rest := entries[0], entries[1..];
      JoinedOnce(known + {e.node}, rest);
      JoinedNewIds(known + {e.node}, rest);
      var head: seq<MemberEvent> := if e.node in known then [] else [Joined(e.node, e.address, e.servicePort)];
      var tail := JoinedLog(known + {e.node}, rest);
      var log := JoinedLog(known, entries);
      assert log == head + tail;
      assert e.node !in JoinedIds(tail);
      forall i, j | 0 <= i < j < |log| ensures log[i].nodeId != log[j].nodeId {
        assert log[j] == tail[j - |head|];
        if i < |head| {
          assert log[j].nodeId in JoinedIds(tail);
        } else {
          assert log[i] == tail[i - |head|];
        }
      }
    }
  }

  /** The log `JoinedLog` builds holds only "joined" lines. */
  lemma {:induction false} JoinedOnlyJoins(known: set<string>, entries: seq<ClusterDiscovery.ServiceEntry>)
    ensures forall ev :: ev in JoinedLog(known, entries) ==> ev.Joined?
    decreases |entries|
  {
    if entries != [] {
      var e := entries[0];
      JoinedOnlyJoins(known + {e.node}, entries[1..]);
      var head: seq<MemberEvent> := if e.node in known then [] else [Joined(e.node, e.address, e.servicePort)];
      var tail := JoinedLog(known + {e.node}, entries[1..]);
      var log := JoinedLog(known, entries);
      assert log == head + tail;
      forall ev | ev in log ensures ev.Joined? {
        assert ev in head || ev in tail;
      }
    }
  }

  /** The ids of one entry more. */
  lemma EntryIdsSnoc(msg: seq<ClusterDiscovery.ServiceEntry>, i: nat)
    requires i < |msg|
    ensures EntryIds(msg[..i + 1]) == EntryIds(msg[..i]) + {msg[i].node}
  {
    assert forall k :: 0 <= k < i ==> msg[..i + 1][k] == msg[..i][k];
    assert msg[..i + 1][i] == msg[i];
  }

  /** `JoinedLog` from position `i` on, unfolded once. */
  lemma JoinedLogAt(known: set<string>, msg: seq<ClusterDiscovery.ServiceEntry>, i: nat)
    requires i < |msg|
    ensures JoinedLog(known, msg[i..]) ==
      (if msg[i].node in known then [] else [Joined(msg[i].node, msg[i].address, msg[i].servicePort)])
        + JoinedLog(known + {msg[i].node}, msg[i + 1..])
  {
    assert msg[i..][0] == msg[i] && msg[i..][1..] == msg[i + 1..];
  }

  /** No element of `s` occurs twice. */
  predicate Distinct(s: seq<string>)
  {
    forall i, j :: 0 <= i < j < |s| ==> s[i] != s[j]
  }

  lemma DistinctSnoc(s: seq<string>, x: string)
    requires Distinct(s) && x !in s
    ensures Distinct(s + [x])
  {
  }

  lemma RemovedLinesSnoc(ids: seq<string>, x: string)
    ensures RemovedLines(ids + [x]) == RemovedLines(ids) + [Removed(x)]
  {
    assert (ids + [x])[..|ids|] == ids;
  }

  /** The handler's closure state: the ids it knows, and what it has logged. */
  class NodeTracker {
    var nodes: set<string>
    var log: seq<MemberEvent>

    /** `nodes := make(map[string]struct{})`: nothing known, nothing logged. */
    constructor ()
      ensures nodes == {} && log == []
    {
      nodes := {};
      log := [];
    }

    /**
     * The first loop of `HybridHandler`: each entry's id is collected and, if it is
     * not yet known, logged as joined and made known.
     */
    method CollectEntries(msg: seq<ClusterDiscovery.ServiceEntry>) returns (newNodes: set<string>)
      modifies this
      ensures newNodes == EntryIds(msg) && nodes == old(nodes) + newNodes
      ensures log == old(log) + JoinedLog(old(nodes), msg)
    {
      newNodes := {};
      var known, logged := nodes, log;
      for i := 0 to |msg|
        invariant newNodes == EntryIds(msg[..i]) && known == old(nodes) + newNodes
        invariant logged + JoinedLog(known, msg[i..]) == old(log) + JoinedLog(old(nodes), msg)
      {
        var entry := msg[i];
        EntryIdsSnoc(msg, i);
        JoinedLogAt(known, msg, i);
        ghost var rest := JoinedLog(known + {entry.node}, msg[i + 1..]);
        newNodes := newNodes + {entry.node};
        if entry.node !in known {
          assert logged + [Joined(entry.node, entry.address, entry.servicePort)] + rest
              == logged + ([Joined(entry.node, entry.address, entry.servicePort)] + rest);
          logged := logged + [Joined(entry.node, entry.address, entry.servicePort)];
        }
        known := known + {entry.node};
      }
      assert msg[..|msg|] == msg;
      nodes, log := known, logged;
    }

    /** The second loop: every known id absent from `newNodes` is logged as removed, in the order the map is ranged. */
    method ReportRemoved(newNodes: set<string>) returns (removedOrder: seq<string>)
      modifies this
      ensures nodes == old(nodes)
      ensures forall x :: x in removedOrder <==> x in old(nodes) && x !in newNodes
      ensures Distinct(removedOrder)
      ensures log == old(log) + RemovedLines(removedOrder)
    {
      removedOrder := [];
      var known, logged := nodes, log;
      var remaining := known;
      while remaining != {}
        modifies {}
        invariant remaining <= known
        invariant forall x :: x in removedOrder <==> x in known && x !in remaining && x !in newNodes
        invariant Distinct(removedOrder)
        invariant logged == old(log) + RemovedLines(removedOrder)
        decreases |remaining|
      {
        var key :| key in remaining;
        if key !in newNodes {
          DistinctSnoc(removedOrder, key);
          RemovedLinesSnoc(removedOrder, key);
          removedOrder := removedOrder + [key];
          logged := logged + [Removed(key)];
        }
        remaining := remaining - {key};
      }
      log := logged;
    }

    /**
     * `HybridHandler(index, result)`: on a list of entries, joined and removed members
     * are logged and the known ids become exactly those of the list; any other result
     * changes nothing.
     */
    method HandleResult(result: ClusterDiscovery.WatchResult) returns (removedOrder: seq<string>)
      modifies this
      ensures result.OtherResult? ==> nodes == old(nodes) && log == old(log) && removedOrder == []
      ensures result.ServiceEntries? ==>
        && nodes == EntryIds(result.entries)
        && (forall x :: x in removedOrder <==> x in old(nodes) && x !in nodes)
        && (forall i, j :: 0 <= i < j < |removedOrder| ==> removedOrder[i] != removedOrder[j])
        && log == old(log) + JoinedLog(old(nodes), result.entries) + RemovedLines(removedOrder)
    {
      match result {
        case OtherResult =>
          return [];
        case ServiceEntries(msg) =>
          var newNodes := CollectEntries(msg);
          removedOrder := ReportRemoved(newNodes);
          nodes := newNodes;
      }
    }
  }

  /** One "removed" line per id, in order. */
  function RemovedLines(ids: seq<string>): (r: seq<MemberEvent>)
    ensures |r| == |ids| && forall i :: 0 <= i < |ids| ==> r[i] == Removed(ids[i])
  {
    if ids == [] then [] else RemovedLines(ids[..|ids| - 1]) + [Removed(ids[|ids| - 1])]
  }
}
