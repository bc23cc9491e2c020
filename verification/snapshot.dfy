/**
 * The snapshot one failover event works from (generate_failover_data):
 * pools, services, the failover configuration, and the interfaces split
 * into critical failover groups and a list of non-critical interfaces.
 */
module FailoverSnapshot {
  import opened FailoverTypes

  /** The answers of the queries generate_failover_data makes. */
  datatype Queries = Queries(
    pools: seq<Volume>,                // pool.query selecting name, guid, status
    services: seq<ServiceRow>,         // datastore.query services_services
    config: FailoverConfig,            // failover.config
    interfaces: seq<Interface>,        // interface.query
    internalInterfaces: seq<string>)   // failover.internal_interfaces

  /** The failover data (fobj) handed to the transitions. */
  datatype Snapshot = Snapshot(
    services: seq<ServiceRow>,
    disabled: bool,
    master: bool,
    timeout: int,
    groups: map<Option<int>, seq<string>>,
    volumes: seq<Volume>,
    nonCritInterfaces: seq<string>,
    internalInterfaces: seq<string>)

  /** Ids of the interfaces whose failover_critical is not True, in query order. */
  function NonCriticalIds(ifs: seq<Interface>): seq<string> {
    if ifs == [] then []
    else
      var i := ifs[|ifs| - 1];
      NonCriticalIds(ifs[..|ifs| - 1]) + (if !i.critical then [i.id] else [])
  }

  /** Ids of the critical interfaces of failover group g, in query order. */
  function MembersOf(ifs: seq<Interface>, g: Option<int>): seq<string> {
    if ifs == [] then []
    else
      var i := ifs[|ifs| - 1];
      MembersOf(ifs[..|ifs| - 1], g) + (if i.critical && i.group == g then [i.id] else [])
  }

  /** The failover groups that have at least one critical interface. */
  function GroupKeys(ifs: seq<Interface>): set<Option<int>> {
    if ifs == [] then {}
    else
      var i := ifs[|ifs| - 1];
      GroupKeys(ifs[..|ifs| - 1]) + (if i.critical then {i.group} else {})
  }

  /** The groups map as a whole: each group with a critical member, mapped to its members. */
  function GroupsMap(ifs: seq<Interface>): map<Option<int>, seq<string>> {
    map g | g in GroupKeys(ifs) :: MembersOf(ifs, g)
  }

  function FailoverData(q: Queries): Snapshot {
    Snapshot(
      q.services, q.config.disabled, q.config.master, q.config.timeout,
      GroupsMap(q.interfaces), q.pools, NonCriticalIds(q.interfaces), q.internalInterfaces)
  }

  /**
   * generate_failover_data: the non-critical list by a filter, then the
   * groups map (a defaultdict in the source) filled in one pass over the
   * interfaces.
   */
  method GenerateFailoverData(q: Queries) returns (data: Snapshot)
    ensures data == FailoverData(q)
  {
    var ifs := q.interfaces;
    var nonCrit := NonCriticalIds(ifs);
    var groups: map<Option<int>, seq<string>> := map[];
    var k := 0;
    while k < |ifs|
      invariant 0 <= k <= |ifs|
      invariant groups.Keys == GroupKeys(ifs[..k])
      invariant forall g :: g in groups ==> groups[g] == MembersOf(ifs[..k], g)
    {
      var i := ifs[k];
      OneMoreInterface(ifs, k);
      if i.critical {
        var members := if i.group in groups then groups[i.group] else [];
        assert members == MembersOf(ifs[..k], i.group) by {
          if i.group !in groups { KeysHaveMembers(ifs[..k], i.group); }
        }
        groups := groups[i.group := members + [i.id]];
      }
      k := k + 1;
    }
    assert ifs[..k] == ifs;
    assert groups == GroupsMap(ifs);
    data := Snapshot(
      q.services, q.config.disabled, q.config.master, q.config.timeout,
      groups, q.pools, nonCrit, q.internalInterfaces);
  }

  /** Taking one more interface adds it to its own group's members only. */
  lemma OneMoreInterface(ifs: seq<Interface>, k: nat)
    requires k < |ifs|
    ensures GroupKeys(ifs[..k + 1]) == GroupKeys(ifs[..k]) + (if ifs[k].critical then {ifs[k].group} else {})
    ensures forall g ::
      MembersOf(ifs[..k + 1], g) == MembersOf(ifs[..k], g) + (if ifs[k].critical && ifs[k].group == g then [ifs[k].id] else [])
  {
    assert ifs[..k + 1][..k] == ifs[..k];
  }

  /** A group is a key exactly when it has a critical member. */
  lemma {:induction false} KeysHaveMembers(ifs: seq<Interface>, g: Option<int>)
    ensures g in GroupKeys(ifs) <==> MembersOf(ifs, g) != []
  {
    if ifs != [] {
      KeysHaveMembers(ifs[..|ifs| - 1], g);
    }
  }

  /** Filtering distributes over concatenation: members keep the query order. */
  lemma {:induction false} PartitionKeepsOrder(a: seq<Interface>, b: seq<Interface>, g: Option<int>)
    ensures MembersOf(a + b, g) == MembersOf(a, g) + MembersOf(b, g)
    ensures NonCriticalIds(a + b) == NonCriticalIds(a) + NonCriticalIds(b)
    decreases |b|
  {
    if b == [] {
      assert a + b == a;
    } else {
      var b' := b[..|b| - 1];
      assert (a + b)[..|a + b| - 1] == a + b';
      PartitionKeepsOrder(a, b', g);
    }
  }

  /** Every queried interface is listed: a critical one in its group, any other as non-critical. */
  lemma {:induction false} InterfaceIsListed(ifs: seq<Interface>, k: nat)
    requires k < |ifs|
    ensures ifs[k].critical ==> ifs[k].id in MembersOf(ifs, ifs[k].group)
    ensures !ifs[k].critical ==> ifs[k].id in NonCriticalIds(ifs)
  {
    var p := ifs[..|ifs| - 1];
    if k < |ifs| - 1 {
      InterfaceIsListed(p, k);
      assert p[k] == ifs[k];
    }
  }

  /** Every listed id comes from an interface of the right kind. */
  lemma {:induction false} ListedIdsHaveOrigin(ifs: seq<Interface>, id: string, g: Option<int>)
    ensures id in NonCriticalIds(ifs) ==>
      exists k :: 0 <= k < |ifs| && ifs[k].id == id && !ifs[k].critical
    ensures id in MembersOf(ifs, g) ==>
      exists k :: 0 <= k < |ifs| && ifs[k].id == id && ifs[k].critical && ifs[k].group == g
  {
    if ifs != [] {
      var p := ifs[..|ifs| - 1];
      ListedIdsHaveOrigin(p, id, g);
      if id in NonCriticalIds(p) {
        var k :| 0 <= k < |p| && p[k].id == id && !p[k].critical;
        assert ifs[k] == p[k];
      }
      if id in MembersOf(p, g) {
        var k :| 0 <= k < |p| && p[k].id == id && p[k].critical && p[k].group == g;
        assert ifs[k] == p[k];
      }
    }
  }

  predicate UniqueIds(ifs: seq<Interface>) {
    forall j, k :: 0 <= j < k < |ifs| ==> ifs[j].id != ifs[k].id
  }

  /**
   * The snapshot partitions the interfaces: each one lands in the
   * non-critical list or in the list of its own group, and (ids being unique)
   * in no other list.
   */
  lemma SnapshotPartitionsInterfaces(q: Queries, k: nat)
    requires k < |q.interfaces|
    ensures var data := FailoverData(q); var i := q.interfaces[k];
      if i.critical
      then i.group in data.groups && i.id in data.groups[i.group]
      else i.id in data.nonCritInterfaces
    ensures var data := FailoverData(q); var i := q.interfaces[k];
      UniqueIds(q.interfaces) ==>
        (i.id !in data.nonCritInterfaces || !i.critical)
        && (forall g :: g in data.groups && i.id in data.groups[g] ==> i.critical && g == i.group)
  {
    var ifs := q.interfaces;
    var i := ifs[k];
    InterfaceIsListed(ifs, k);
    if i.critical {
      KeysHaveMembers(ifs, i.group);
    }
    if UniqueIds(ifs) {
      ListedIdsHaveOrigin(ifs, i.id, i.group);
      forall g | g in GroupsMap(ifs) && i.id in GroupsMap(ifs)[g]
        ensures i.critical && g == i.group
      {
        ListedIdsHaveOrigin(ifs, i.id, g);
      }
    }
  }
}
