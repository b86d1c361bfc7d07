/** Job specifications: the nodes and edges a client submits. */
module Dag {
  import opened Prelude

  datatype JoinType = Inner | Left | Right | Full

  datatype OperatorType =
    | Read(uri: string, format: string)
    | Map(script: string)
    | Filtering(pred: string)
    | Reduce(reducer: string)
    | ReduceByKey(key: string, op: string)
    | FlatMap(func: string)
    | Join(key: string, joinType: JoinType)
    | ShuffleByKey(key: string, totalPartitions: nat)
    | Aggregate(aggregation: string)
    | Identity

  datatype DagNode = DagNode(id: string, operator: OperatorType)

  datatype DagEdge = DagEdge(src: string, dst: string)

  datatype DagSpecification = DagSpecification(nodes: seq<DagNode>, edges: seq<DagEdge>, partitions: nat)

  /** The ids of a node list, in order. */
  function Ids(nodes: seq<DagNode>): (r: seq<string>)
    ensures |r| == |nodes| && forall i :: 0 <= i < |r| ==> r[i] == nodes[i].id
  {
    seq(|nodes|, i requires 0 <= i < |nodes| => nodes[i].id)
  }

  ghost predicate Declared(nodes: seq<DagNode>, id: string) {
    id in Ids(nodes)
  }

  /** Node ids are pairwise distinct. */
  ghost predicate DistinctIds(nodes: seq<DagNode>) {
    NoDup(Ids(nodes))
  }

  /** Every edge connects declared nodes. */
  ghost predicate DeclaredEdges(spec: DagSpecification) {
    forall e :: e in spec.edges ==> Declared(spec.nodes, e.src) && Declared(spec.nodes, e.dst)
  }
}
