/**
 * The capacity report driver: sort the caller's pod list by name, in place,
 * then hand every pod, in that order, to a fresh report builder.
 */
module Reporting {
  import opened Strings
  import opened Sorting

  datatype PodCondition = PodCondition(Type: string, Status: string, Reason: string)
  datatype ContainerStatus = ContainerStatus(Name: string, State: string, Reason: string)

  /** The parts of a pod the report is made from. */
  datatype Pod = Pod(Name: string, Conditions: seq<PodCondition>, Containers: seq<ContainerStatus>)

  /** What a report builder produces. The builder's aggregation is not part of
      this model, so the report is represented by its owner and the pods the
      builder was given, in the order it was given them. */
  datatype ClusterCapacityReport = ClusterCapacityReport(OwnerName: string, PodsAdded: seq<Pod>)

  /** The report builder (builder.NewReport, AddPod, Build), as a recorder of
      the AddPod calls it receives. */
  class ReportBuilder {
    const ownerName: string
    var added: seq<Pod>

    /** builder.NewReport */
    constructor (ownerName: string)
      ensures this.ownerName == ownerName && added == []
    {
      this.ownerName := ownerName;
      added := [];
    }

    method AddPod(pod: Pod)
      modifies this
      ensures added == old(added) + [pod]
    {
      added := added + [pod];
    }

    function Build(): (r: ClusterCapacityReport)
      reads this
    {
      ClusterCapacityReport(ownerName, added)
    }
  }

  function PodName(p: Pod): (r: string)
  {
    p.Name
  }

  /** buildReport: afterwards the caller's list is a name-sorted permutation of
      what it was, and the builder received each pod once, in that order. */
  method BuildReport(ownerName: string, podsList: array<Pod>) returns (report: ClusterCapacityReport)
    modifies podsList
    ensures SortedBy(podsList[..], PodName)
    ensures multiset(podsList[..]) == old(multiset(podsList[..]))
    ensures report == ClusterCapacityReport(ownerName, podsList[..])
  {
    SortByKey(podsList, PodName);
    ghost var sorted := podsList[..];
    assert multiset(sorted) == old(multiset(podsList[..]));
    var reportBuilder := new ReportBuilder(ownerName);
    for i := 0 to podsList.Length
      modifies reportBuilder
      invariant reportBuilder.ownerName == ownerName
      invariant reportBuilder.added == podsList[..i]
    {
      reportBuilder.AddPod(podsList[i]);
    }
    assert podsList[..] == sorted;
    report := reportBuilder.Build();
  }

  /** Two pod lists holding the same pods, with distinct names, give the same
      report whatever order they come in: BuildReport's contract pins its
      report down to the one name-sorted arrangement of the pods. */
  lemma ReportOrderIndependent(ownerName: string, a: seq<Pod>, b: seq<Pod>,
                               sortedA: seq<Pod>, sortedB: seq<Pod>)
    requires multiset(a) == multiset(b)
    requires DistinctKeys(a, PodName)
    requires SortedBy(sortedA, PodName) && multiset(sortedA) == multiset(a)
    requires SortedBy(sortedB, PodName) && multiset(sortedB) == multiset(b)
    ensures ClusterCapacityReport(ownerName, sortedA) == ClusterCapacityReport(ownerName, sortedB)
  {
    DistinctKeysPermutation(a, sortedA, PodName);
    SortedPermutationUnique(sortedA, sortedB, PodName);
  }
}
