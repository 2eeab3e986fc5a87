// The on-premise node allocator: a fixed list of machine IPs, each recorded
// with a state ("terminated" or "running") and a tag dictionary. The
// coordinator server shares one such table between clusters; the local node
// provider keeps one per cluster, with the head and worker kinds pre-tagged.
module Coordinator {
  import opened Wrappers

  type Tags = map<string, string>

  // Tag keys and values of the autoscaler.
  const TagNodeKind := "ray-node-type"
  const TagClusterName := "ray-cluster-name"
  const TagNodeName := "ray-node-name"
  const TagUserNodeType := "ray-user-node-type"
  const TagNodeStatus := "ray-node-status"
  const NodeKindHead := "head"
  const NodeKindWorker := "worker"
  const StatusUpToDate := "up-to-date"
  const LocalClusterNodeType := "local.cluster.node"

  datatype NodeStatus = Terminated | Running

  /** One entry of the state file: {"tags": ..., "state": ..., optionally "external_ip": ...}. */
  datatype NodeInfo = NodeInfo(tags: Tags, status: NodeStatus, externalIp: Option<string>)

  predicate Distinct(s: seq<string>)
  {
    forall i, j :: 0 <= i < j < |s| ==> s[i] != s[j]
  }

  /** Every filter pair is among the tags. */
  predicate TagsInclude(tags: Tags, filter: Tags)
  {
    forall k :: k in filter ==> k in tags && tags[k] == filter[k]
  }

  /** A node listed by non_terminated_nodes(filter). */
  predicate Listed(info: NodeInfo, filter: Tags)
  {
    info.status != Terminated && TagsInclude(info.tags, filter)
  }

  function KindOf(tags: Tags): Option<string>
  {
    if TagNodeKind in tags then Some(tags[TagNodeKind]) else None
  }

  /**
   * A node create_node may take: it is terminated and, unless the table is
   * shared by the coordinator (anyKind), its kind tag is the requested kind.
   */
  predicate Free(info: NodeInfo, tags: Tags, anyKind: bool)
  {
    info.status == Terminated && (anyKind || KindOf(info.tags) == KindOf(tags))
  }

  /** The IPs of order whose node is listed under filter, in table order. */
  function Select(order: seq<string>, nodes: map<string, NodeInfo>, filter: Tags): (r: seq<string>)
    ensures forall ip :: ip in r <==> ip in order && ip in nodes && Listed(nodes[ip], filter)
    ensures |r| <= |order|
  {
    if order == [] then []
    else
      var last := order[|order| - 1];
      Select(order[..|order| - 1], nodes, filter) + (if last in nodes && Listed(nodes[last], filter) then [last] else [])
  }

  /** The entries of order that are still wanted, in their stored order. */
  function KeepWanted(order: seq<string>, wanted: seq<string>): (r: seq<string>)
    ensures forall ip :: ip in r <==> ip in order && ip in wanted
  {
    if order == [] then []
    else
      var last := order[|order| - 1];
      KeepWanted(order[..|order| - 1], wanted) + (if last in wanted then [last] else [])
  }

  /** acc followed by the wanted IPs it lacks, in wanted order, each once. */
  function AppendMissing(acc: seq<string>, wanted: seq<string>): (r: seq<string>)
    ensures forall ip :: ip in r <==> ip in acc || ip in wanted
    ensures acc <= r
    decreases |wanted|
  {
    if wanted == [] then acc
    else AppendMissing(if wanted[0] in acc then acc else acc + [wanted[0]], wanted[1..])
  }

  /** Key order of the table after reconciling it with the configured IP list. */
  function ReconciledOrder(order: seq<string>, wanted: seq<string>): seq<string>
  {
    AppendMissing(KeepWanted(order, wanted), wanted)
  }

  /** Entries after reconciliation: stored entries of wanted IPs kept, the other wanted IPs fresh. */
  function ReconciledNodes(nodes: map<string, NodeInfo>, wanted: seq<string>, defaults: map<string, NodeInfo>): (r: map<string, NodeInfo>)
    requires forall ip :: ip in wanted ==> ip in defaults
    ensures forall ip :: ip in r <==> ip in wanted
  {
    map ip | ip in wanted :: if ip in nodes then nodes[ip] else defaults[ip]
  }

  /** The default entry of every coordinator IP: no tags, terminated. */
  function CoordinatorDefaults(ips: seq<string>): (d: map<string, NodeInfo>)
    ensures forall ip :: ip in d <==> ip in ips
    ensures forall ip :: ip in d ==> d[ip] == NodeInfo(map[], Terminated, None)
  {
    map ip | ip in ips :: NodeInfo(map[], Terminated, None)
  }

  /**
   * The default entries of the local provider: workers tagged as workers,
   * the head tagged as head and carrying the external head IP if given.
   */
  function LocalDefaults(headIp: string, workerIps: seq<string>, externalHeadIp: Option<string>): (d: map<string, NodeInfo>)
    ensures forall ip :: ip in d <==> ip == headIp || ip in workerIps
    ensures d[headIp] == NodeInfo(map[TagNodeKind := NodeKindHead], Terminated, externalHeadIp)
    ensures forall ip :: ip in workerIps && ip != headIp ==> d[ip] == NodeInfo(map[TagNodeKind := NodeKindWorker], Terminated, None)
  {
    (map ip | ip in workerIps :: NodeInfo(map[TagNodeKind := NodeKindWorker], Terminated, None))
      [headIp := NodeInfo(map[TagNodeKind := NodeKindHead], Terminated, externalHeadIp)]
  }

  /**
   * create_node(tags, count): walk the table in order and hand each free
   * node the given tags and the running state, until count nodes are taken.
   */
  function Allocate(order: seq<string>, nodes: map<string, NodeInfo>, tags: Tags, count: nat, anyKind: bool): map<string, NodeInfo>
    decreases |order|
  {
    if order == [] || count == 0 then nodes
    else
      var ip := order[0];
      if ip in nodes && Free(nodes[ip], tags, anyKind) then
        Allocate(order[1..], nodes[ip := nodes[ip].(tags := tags, status := Running)], tags, count - 1, anyKind)
      else Allocate(order[1..], nodes, tags, count, anyKind)
  }

  /** One step of create_node at index i: that node is taken when it is free and nodes are still wanted. */
  lemma AllocateStep(order: seq<string>, i: nat, nodes: map<string, NodeInfo>, tags: Tags, count: nat, anyKind: bool)
    requires i < |order| && count > 0
    ensures var ip := order[i];
      Allocate(order[i..], nodes, tags, count, anyKind)
      == if ip in nodes && Free(nodes[ip], tags, anyKind)
         then Allocate(order[i + 1..], nodes[ip := nodes[ip].(tags := tags, status := Running)], tags, count - 1, anyKind)
         else Allocate(order[i + 1..], nodes, tags, count, anyKind)
  {
    assert order[i..][1..] == order[i + 1..];
  }

  /** Index of the first node of order that create_node may take. */
  function FirstFree(order: seq<string>, nodes: map<string, NodeInfo>, tags: Tags, anyKind: bool): (r: Option<nat>)
    ensures r.Some? ==> r.value < |order| && order[r.value] in nodes && Free(nodes[order[r.value]], tags, anyKind)
    ensures r.Some? ==> forall j :: 0 <= j < r.value ==> !(order[j] in nodes && Free(nodes[order[j]], tags, anyKind))
    ensures r.None? ==> forall j :: 0 <= j < |order| ==> !(order[j] in nodes && Free(nodes[order[j]], tags, anyKind))
  {
    if order == [] then None
    else if order[0] in nodes && Free(nodes[order[0]], tags, anyKind) then Some(0)
    else match FirstFree(order[1..], nodes, tags, anyKind)
      case None => None
      case Some(i) => Some(i + 1)
  }

  /** The walk of create_node over the table: each free node is taken until count nodes are. */
  method TakeFree(order: seq<string>, nodes: map<string, NodeInfo>, tags: Tags, count: nat, anyKind: bool)
    returns (m: map<string, NodeInfo>)
    ensures m == Allocate(order, nodes, tags, count, anyKind) && m.Keys == nodes.Keys
  {
    m := nodes;
    var remaining := count;
    var i := 0;
    while i < |order| && remaining > 0
      invariant 0 <= i <= |order|
      invariant m.Keys == nodes.Keys
      invariant Allocate(order[i..], m, tags, remaining, anyKind) == Allocate(order, nodes, tags, count, anyKind)
    {
      var ip := order[i];
      AllocateStep(order, i, m, tags, remaining, anyKind);
      if ip in m && Free(m[ip], tags, anyKind) {
        m := m[ip := m[ip].(tags := tags, status := Running)];
        remaining := remaining - 1;
      }
      i := i + 1;
    }
    assert i == |order| ==> order[i..] == [];
  }

  /** The four tags a local head node is recorded with. */
  function HeadTags(clusterName: string): Tags
  {
    map[TagNodeKind := NodeKindHead, TagUserNodeType := LocalClusterNodeType,
        TagNodeName := "ray-" + clusterName + "-head", TagNodeStatus := StatusUpToDate]
  }

  /** First pass of reconciliation: drop the stored entries that are no longer wanted. */
  method KeepStored(order: seq<string>, nodes: map<string, NodeInfo>, wanted: seq<string>)
    returns (kept: seq<string>, keptNodes: map<string, NodeInfo>)
    requires Distinct(order)
    requires forall ip :: ip in nodes <==> ip in order
    ensures kept == KeepWanted(order, wanted) && Distinct(kept)
    ensures forall ip :: ip in keptNodes <==> ip in kept
    ensures forall ip :: ip in keptNodes ==> ip in nodes && keptNodes[ip] == nodes[ip]
  {
    kept := [];
    keptNodes := map[];
    var i := 0;
    while i < |order|
      invariant 0 <= i <= |order|
      invariant kept == KeepWanted(order[..i], wanted)
      invariant Distinct(kept)
      invariant forall ip :: ip in keptNodes <==> ip in kept
      invariant forall ip :: ip in keptNodes ==> ip in nodes && keptNodes[ip] == nodes[ip]
    {
      assert order[..i + 1][..i] == order[..i];
      var ip := order[i];
      if ip in wanted {
        assert ip !in order[..i];
        kept := kept + [ip];
        keptNodes := keptNodes[ip := nodes[ip]];
      }
      i := i + 1;
    }
    assert order[..i] == order;
  }

  /** What the second pass keeps after handling a prefix `done` of the wanted IPs. */
  ghost predicate Added(acc: seq<string>, newNodes: map<string, NodeInfo>, nodes: map<string, NodeInfo>,
                        kept: seq<string>, done: seq<string>, defaults: map<string, NodeInfo>)
  {
    && Distinct(acc)
    && (forall ip :: ip in newNodes <==> ip in kept || ip in done)
    && (forall ip :: ip in acc <==> ip in newNodes)
    && (forall ip :: ip in newNodes && ip in nodes ==> newNodes[ip] == nodes[ip])
    && (forall ip :: ip in newNodes && ip !in nodes ==> ip in defaults && newNodes[ip] == defaults[ip])
  }

  /** One step of the second pass: a wanted IP without an entry is appended with its default entry. */
  method AddOne(acc: seq<string>, newNodes: map<string, NodeInfo>, nodes: map<string, NodeInfo>, kept: seq<string>,
                done: seq<string>, ip: string, defaults: map<string, NodeInfo>)
    returns (acc': seq<string>, newNodes': map<string, NodeInfo>)
    requires Added(acc, newNodes, nodes, kept, done, defaults)
    requires ip in defaults && (ip in nodes ==> ip in kept)
    ensures Added(acc', newNodes', nodes, kept, done + [ip], defaults)
    ensures acc' == if ip in acc then acc else acc + [ip]
  {
    if ip !in newNodes {
      DistinctAppend(acc, ip);
      acc', newNodes' := acc + [ip], newNodes[ip := defaults[ip]];
    } else {
      acc', newNodes' := acc, newNodes;
    }
  }

  /**
   * Second pass of reconciliation: append every wanted IP that has no entry, with
   * its default entry. Every wanted IP with a stored entry is already kept.
   */
  method AddMissing(nodes: map<string, NodeInfo>, kept: seq<string>, keptNodes: map<string, NodeInfo>,
                    wanted: seq<string>, defaults: map<string, NodeInfo>)
    returns (acc: seq<string>, newNodes: map<string, NodeInfo>)
    requires forall ip :: ip in wanted ==> ip in defaults
    requires Distinct(kept) && forall ip :: ip in kept ==> ip in wanted
    requires forall ip :: ip in wanted && ip in nodes ==> ip in kept
    requires forall ip :: ip in keptNodes <==> ip in kept
    requires forall ip :: ip in keptNodes ==> ip in nodes && keptNodes[ip] == nodes[ip]
    ensures acc == AppendMissing(kept, wanted) && Distinct(acc)
    ensures newNodes == ReconciledNodes(nodes, wanted, defaults)
  {
    acc := kept;
    newNodes := keptNodes;
    var j := 0;
    while j < |wanted|
      invariant 0 <= j <= |wanted|
      invariant AppendMissing(acc, wanted[j..]) == AppendMissing(kept, wanted)
      invariant Added(acc, newNodes, nodes, kept, wanted[..j], defaults)
    {
      assert wanted[j..][1..] == wanted[j + 1..];
      assert wanted[..j + 1] == wanted[..j] + [wanted[j]];
      acc, newNodes := AddOne(acc, newNodes, nodes, kept, wanted[..j], wanted[j], defaults);
      j := j + 1;
    }
    assert wanted[j..] == [] && wanted[..j] == wanted;
    ReconciledNodesAgree(newNodes, nodes, wanted, defaults);
  }

  /** After reconciliation the table holds exactly the configured IPs. */
  lemma ReconciledOrderMembers(order: seq<string>, wanted: seq<string>)
    ensures forall ip :: ip in ReconciledOrder(order, wanted) <==> ip in wanted
  {
  }

  /** A map with the wanted keys, holding stored entries where they exist and defaults elsewhere, is the reconciled map. */
  lemma ReconciledNodesAgree(m: map<string, NodeInfo>, nodes: map<string, NodeInfo>, wanted: seq<string>, defaults: map<string, NodeInfo>)
    requires forall ip :: ip in wanted ==> ip in defaults
    requires forall ip :: ip in m <==> ip in wanted
    requires forall ip :: ip in m && ip in nodes ==> m[ip] == nodes[ip]
    requires forall ip :: ip in m && ip !in nodes ==> m[ip] == defaults[ip]
    ensures m == ReconciledNodes(nodes, wanted, defaults)
  {
    var r := ReconciledNodes(nodes, wanted, defaults);
    assert forall ip :: ip in r ==> m[ip] == r[ip];
  }

  lemma DistinctAppend(s: seq<string>, x: string)
    requires Distinct(s) && x !in s
    ensures Distinct(s + [x])
  {
  }

  /** Keeping the wanted entries of a list that holds only wanted IPs keeps it all. */
  lemma {:induction false} KeepWantedAll(order: seq<string>, wanted: seq<string>)
    requires forall ip :: ip in order ==> ip in wanted
    ensures KeepWanted(order, wanted) == order
  {
    if order != [] {
      var init := order[..|order| - 1];
      var last := order[|order| - 1];
      assert order == init + [last];
      assert forall ip :: ip in init ==> ip in order;
      KeepWantedAll(init, wanted);
      assert last in wanted;
    }
  }

  /** Appending the missing wanted IPs to a list that already has them all changes nothing. */
  lemma {:induction false} AppendMissingNone(acc: seq<string>, wanted: seq<string>)
    requires forall ip :: ip in wanted ==> ip in acc
    ensures AppendMissing(acc, wanted) == acc
    decreases |wanted|
  {
    if wanted != [] {
      assert wanted[0] in acc;
      assert forall ip :: ip in wanted[1..] ==> ip in wanted;
      AppendMissingNone(acc, wanted[1..]);
    }
  }

  /** With no IP in common and no repetition, the missing IPs are appended as given. */
  lemma {:induction false} AppendMissingDisjoint(acc: seq<string>, wanted: seq<string>)
    requires Distinct(acc + wanted)
    ensures AppendMissing(acc, wanted) == acc + wanted
    decreases |wanted|
  {
    if wanted != [] {
      var both := acc + wanted;
      assert wanted[0] !in acc by {
        assert both[|acc|] == wanted[0];
        assert forall k :: 0 <= k < |acc| ==> both[k] == acc[k];
      }
      assert (acc + [wanted[0]]) + wanted[1..] == both;
      AppendMissingDisjoint(acc + [wanted[0]], wanted[1..]);
    }
  }

  /** Reconciling twice with the same IP list is the same as reconciling once. */
  lemma ReconcileIdempotent(order: seq<string>, nodes: map<string, NodeInfo>, wanted: seq<string>, defaults: map<string, NodeInfo>)
    requires forall ip :: ip in wanted ==> ip in defaults
    ensures ReconciledOrder(ReconciledOrder(order, wanted), wanted) == ReconciledOrder(order, wanted)
    ensures ReconciledNodes(ReconciledNodes(nodes, wanted, defaults), wanted, defaults) == ReconciledNodes(nodes, wanted, defaults)
  {
    var once := ReconciledOrder(order, wanted);
    ReconciledOrderMembers(order, wanted);
    KeepWantedAll(once, wanted);
    AppendMissingNone(once, wanted);
  }

  /** A table built with no state file lists the configured IPs in configured order. */
  lemma FreshTableOrder(wanted: seq<string>)
    requires Distinct(wanted)
    ensures ReconciledOrder([], wanted) == wanted
  {
    assert [] + wanted == wanted;
    AppendMissingDisjoint([], wanted);
  }

  /** create_node(tags, 1) takes exactly the first free node in table order, or nothing when none is free. */
  lemma {:induction false} AllocateOne(order: seq<string>, nodes: map<string, NodeInfo>, tags: Tags, anyKind: bool)
    ensures FirstFree(order, nodes, tags, anyKind).None? ==> Allocate(order, nodes, tags, 1, anyKind) == nodes
    ensures FirstFree(order, nodes, tags, anyKind).Some? ==>
      var ip := order[FirstFree(order, nodes, tags, anyKind).value];
      Allocate(order, nodes, tags, 1, anyKind) == nodes[ip := nodes[ip].(tags := tags, status := Running)]
  {
    if order != [] {
      var ip := order[0];
      if ip in nodes && Free(nodes[ip], tags, anyKind) {
        assert FirstFree(order, nodes, tags, anyKind) == Some(0);
      } else {
        AllocateOne(order[1..], nodes, tags, anyKind);
        assert Allocate(order, nodes, tags, 1, anyKind) == Allocate(order[1..], nodes, tags, 1, anyKind);
        match FirstFree(order[1..], nodes, tags, anyKind)
        case None =>
        case Some(k) =>
          assert FirstFree(order, nodes, tags, anyKind) == Some(k + 1);
          assert order[k + 1] == order[1..][k];
      }
    }
  }

  /** create_node never touches a node it may not take, and never adds or removes IPs. */
  lemma {:induction false} AllocateKeepsTaken(order: seq<string>, nodes: map<string, NodeInfo>, tags: Tags, count: nat, anyKind: bool, ip: string)
    requires ip in nodes && !Free(nodes[ip], tags, anyKind)
    ensures Allocate(order, nodes, tags, count, anyKind).Keys == nodes.Keys
    ensures Allocate(order, nodes, tags, count, anyKind)[ip] == nodes[ip]
    decreases |order|
  {
    if order != [] && count > 0 {
      var x := order[0];
      if x in nodes && Free(nodes[x], tags, anyKind) {
        AllocateKeepsTaken(order[1..], nodes[x := nodes[x].(tags := tags, status := Running)], tags, count - 1, anyKind, ip);
      } else {
        AllocateKeepsTaken(order[1..], nodes, tags, count, anyKind, ip);
      }
    }
  }

  /** A node created for a cluster is listed for that cluster, with the requested tags. */
  lemma CreatedNodeListed(order: seq<string>, nodes: map<string, NodeInfo>, clusterName: string, tags: Tags)
    requires FirstFree(order, nodes, tags[TagClusterName := clusterName], true).Some?
    ensures var ip := order[FirstFree(order, nodes, tags[TagClusterName := clusterName], true).value];
      var after := Allocate(order, nodes, tags[TagClusterName := clusterName], 1, true);
      ip in after && Listed(after[ip], map[TagClusterName := clusterName]) && Listed(after[ip], tags - {TagClusterName})
  {
    AllocateOne(order, nodes, tags[TagClusterName := clusterName], true);
  }

  /**
   * On a local table where the head is the only terminated head-kind node,
   * create_node with the head tags records the head: running, with those tags.
   */
  lemma HeadRecorded(order: seq<string>, nodes: map<string, NodeInfo>, headIp: string, clusterName: string)
    requires headIp in order && headIp in nodes && Free(nodes[headIp], HeadTags(clusterName), false)
    requires forall ip :: ip in nodes && Free(nodes[ip], HeadTags(clusterName), false) ==> ip == headIp
    ensures var after := Allocate(order, nodes, HeadTags(clusterName), 1, false);
      headIp in after && after[headIp].tags == HeadTags(clusterName) && Listed(after[headIp], map[])
  {
    AllocateOne(order, nodes, HeadTags(clusterName), false);
  }

  /**
   * A local node provider started on an empty table meets HeadRecorded's
   * conditions: the head is stored, free, and the only free head-kind node,
   * so create_node with the head tags records the head.
   */
  lemma LocalStartRecordsHead(headIp: string, workerIps: seq<string>, externalHeadIp: Option<string>, clusterName: string)
    ensures var wanted := workerIps + [headIp];
      var order := ReconciledOrder([], wanted);
      var nodes := ReconciledNodes(map[], wanted, LocalDefaults(headIp, workerIps, externalHeadIp));
      && headIp in order && headIp in nodes && Free(nodes[headIp], HeadTags(clusterName), false)
      && (forall ip :: ip in nodes && Free(nodes[ip], HeadTags(clusterName), false) ==> ip == headIp)
      && var after := Allocate(order, nodes, HeadTags(clusterName), 1, false);
         headIp in after && after[headIp].tags == HeadTags(clusterName) && Listed(after[headIp], map[])
  {
    var wanted := workerIps + [headIp];
    var defaults := LocalDefaults(headIp, workerIps, externalHeadIp);
    var order := ReconciledOrder([], wanted);
    var nodes := ReconciledNodes(map[], wanted, defaults);
    assert headIp in wanted && wanted[|wanted| - 1] == headIp;
    assert nodes[headIp] == defaults[headIp];
    assert KindOf(HeadTags(clusterName)) == Some(NodeKindHead);
    HeadRecorded(order, nodes, headIp, clusterName);
  }

  /** The table kept by the coordinator server or by a local node provider. */
  class NodeTable {
    /** Key order of the state dictionary. */
    var order: seq<string>
    var nodes: map<string, NodeInfo>

    ghost predicate Valid()
      reads this
    {
      Distinct(order) && (forall ip :: ip in nodes <==> ip in order)
    }

    /** A table with no state file yet. */
    constructor ()
      ensures Valid() && order == [] && nodes == map[]
    {
      order := [];
      nodes := map[];
    }

    /**
     * Rewrites the table for the configured IPs: stored entries of IPs no
     * longer configured are dropped, surviving entries are unchanged and
     * keep their order, and configured IPs without an entry are appended
     * with their default entry.
     */
    method Reconcile(wanted: seq<string>, defaults: map<string, NodeInfo>)
      requires Valid()
      requires forall ip :: ip in wanted ==> ip in defaults
      modifies this
      ensures Valid()
      ensures order == ReconciledOrder(old(order), wanted)
      ensures nodes == ReconciledNodes(old(nodes), wanted, defaults)
    {
      var kept, keptNodes := KeepStored(order, nodes, wanted);
      var acc, newNodes := AddMissing(nodes, kept, keptNodes, wanted, defaults);
      ReconciledOrderMembers(old(order), wanted);
      order := acc;
      nodes := newNodes;
    }

    /** The coordinator server's table: every configured IP terminated with no tags. */
    method StartCoordinator(ips: seq<string>)
      requires Valid()
      modifies this
      ensures Valid()
      ensures order == ReconciledOrder(old(order), ips)
      ensures nodes == ReconciledNodes(old(nodes), ips, CoordinatorDefaults(ips))
    {
      Reconcile(ips, CoordinatorDefaults(ips));
    }

    /** A local provider's table: the head and worker IPs, pre-tagged with their kind. */
    method StartLocal(headIp: string, workerIps: seq<string>, externalHeadIp: Option<string>)
      requires Valid()
      modifies this
      ensures Valid()
      ensures order == ReconciledOrder(old(order), workerIps + [headIp])
      ensures nodes == ReconciledNodes(old(nodes), workerIps + [headIp], LocalDefaults(headIp, workerIps, externalHeadIp))
    {
      Reconcile(workerIps + [headIp], LocalDefaults(headIp, workerIps, externalHeadIp));
    }

    /** non_terminated_nodes(filter): the listed IPs, in table order. */
    method NonTerminatedNodes(filter: Tags) returns (ips: seq<string>)
      requires Valid()
      ensures ips == Select(order, nodes, filter)
      ensures forall ip :: ip in ips <==> ip in nodes && Listed(nodes[ip], filter)
    {
      ips := [];
      var i := 0;
      while i < |order|
        invariant 0 <= i <= |order|
        invariant ips == Select(order[..i], nodes, filter)
      {
        assert order[..i + 1][..i] == order[..i];
        var ip := order[i];
        if ip in nodes && Listed(nodes[ip], filter) {
          ips := ips + [ip];
        }
        i := i + 1;
      }
      assert order[..i] == order;
    }

    /** What a cluster's coordinator client lists: only that cluster's nodes, in stored order. */
    method NonTerminatedNodesOfCluster(clusterName: string, filter: Tags) returns (ips: seq<string>)
      requires Valid()
      ensures ips == Select(order, nodes, filter[TagClusterName := clusterName])
      ensures forall ip :: ip in ips ==> ip in nodes && Listed(nodes[ip], filter - {TagClusterName})
      ensures forall ip :: ip in ips ==> TagClusterName in nodes[ip].tags && nodes[ip].tags[TagClusterName] == clusterName
      ensures forall ip :: ip in nodes && Listed(nodes[ip], filter[TagClusterName := clusterName]) ==> ip in ips
    {
      ips := NonTerminatedNodes(filter[TagClusterName := clusterName]);
    }

    /** node_tags(ip); None for an unknown IP. */
    function NodeTags(ip: string): (r: Option<Tags>)
      reads this
      ensures r.Some? <==> ip in nodes
      ensures r.Some? ==> r.value == nodes[ip].tags
    {
      if ip in nodes then Some(nodes[ip].tags) else None
    }

    /** is_running(ip); None for an unknown IP. */
    function IsRunning(ip: string): (r: Option<bool>)
      reads this
      ensures r.Some? <==> ip in nodes
      ensures r.Some? ==> (r.value <==> nodes[ip].status == Running)
    {
      if ip in nodes then Some(nodes[ip].status == Running) else None
    }

    /** is_terminated(ip) is the negation of is_running(ip). */
    function IsTerminated(ip: string): (r: Option<bool>)
      reads this
      ensures r.Some? <==> ip in nodes
      ensures r.Some? ==> (r.value <==> nodes[ip].status == Terminated)
    {
      match IsRunning(ip)
      case None => None
      case Some(running) => Some(!running)
    }

    /** external_ip(ip): the recorded external IP, if any. */
    function ExternalIp(ip: string): (r: Option<string>)
      reads this
      ensures ip !in nodes ==> r.None?
      ensures ip in nodes ==> r == nodes[ip].externalIp
    {
      if ip in nodes then nodes[ip].externalIp else None
    }

    /**
     * create_node(tags, count): the first count free nodes, in table order,
     * become running with the given tags. The table order never changes.
     */
    method CreateNode(tags: Tags, count: nat, anyKind: bool)
      requires Valid()
      modifies this
      ensures Valid() && order == old(order)
      ensures nodes == Allocate(old(order), old(nodes), tags, count, anyKind)
    {
      nodes := TakeFree(order, nodes, tags, count, anyKind);
    }

    /** A cluster's coordinator client creates nodes tagged with its cluster name. */
    method CreateNodeForCluster(clusterName: string, tags: Tags, count: nat)
      requires Valid()
      modifies this
      ensures Valid() && order == old(order)
      ensures nodes == Allocate(old(order), old(nodes), tags[TagClusterName := clusterName], count, true)
    {
      CreateNode(tags[TagClusterName := clusterName], count, true);
    }

    /** terminate_node(ip): the node becomes terminated and keeps its tags; false for an unknown IP. */
    method TerminateNode(ip: string) returns (ok: bool)
      requires Valid()
      modifies this
      ensures Valid() && order == old(order)
      ensures ok <==> ip in old(nodes)
      ensures ok ==> nodes == old(nodes)[ip := old(nodes)[ip].(status := Terminated)]
      ensures !ok ==> nodes == old(nodes)
    {
      ok := ip in nodes;
      if ok {
        nodes := nodes[ip := nodes[ip].(status := Terminated)];
      }
    }

    /**
     * record_local_head_state_if_needed: when the head is not yet listed,
     * create one head-kind node with the four head tags. ok is whether the
     * head is listed afterwards.
     */
    method RecordLocalHeadState(headIp: string, clusterName: string) returns (ok: bool)
      requires Valid()
      modifies this
      ensures Valid() && order == old(order)
      ensures old(headIp in nodes && Listed(nodes[headIp], map[])) ==> nodes == old(nodes) && ok
      ensures !old(headIp in nodes && Listed(nodes[headIp], map[])) ==>
        nodes == Allocate(old(order), old(nodes), HeadTags(clusterName), 1, false)
      ensures ok <==> headIp in nodes && Listed(nodes[headIp], map[])
    {
      var listed := NonTerminatedNodes(map[]);
      if headIp !in listed {
        CreateNode(HeadTags(clusterName), 1, false);
      }
      ok := headIp in nodes && Listed(nodes[headIp], map[]);
    }
  }
}
