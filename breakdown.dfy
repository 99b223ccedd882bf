/**
 * The pod-condition node of a capacity report under construction: a pod
 * count, the (type, status, reason) triple of the pod condition it counts,
 * and a map from container name to the per-container builder.
 */
module Breakdown {
  import opened Strings
  import opened Sorting

  /** Go's uint32. */
  type uint32 = x: int | 0 <= x < 0x1_0000_0000

  /** One AddState call a container builder received. */
  datatype ContainerState = ContainerState(
    containerCount: uint32,
    podExampleName: string,
    containerConditionType: string,
    containerConditionReason: string)

  /** The report value of one container (ClusterCapacityReportContainerBreakdown). */
  datatype ContainerBreakdown = ContainerBreakdown(Name: string, States: seq<ContainerState>)

  /** The report value of one pod-condition node (ClusterCapacityReportBreakdown). */
  datatype CapacityReportBreakdown = CapacityReportBreakdown(
    Type: string,
    Status: string,
    Count: uint32,
    Reason: string,
    Containers: seq<ContainerBreakdown>)

  /** The per-container builder (ContainerStateBreakdown). Its own code is not
      part of this model: it keeps the name it was made for and the states it
      was given, and builds a report value from exactly those. */
  class ContainerStateBreakdown {
    const containerName: string
    var states: seq<ContainerState>

    /** NewContainerBreakdown */
    constructor (containerName: string)
      ensures this.containerName == containerName && states == []
    {
      this.containerName := containerName;
      states := [];
    }

    method AddState(containerCount: uint32, podExampleName: string,
                    containerConditionType: string, containerConditionReason: string)
      modifies this
      ensures states == old(states) + [ContainerState(containerCount, podExampleName,
                                                       containerConditionType, containerConditionReason)]
    {
      states := states + [ContainerState(containerCount, podExampleName,
                                         containerConditionType, containerConditionReason)];
    }

    function Build(): (r: ContainerBreakdown)
      reads this
    {
      ContainerBreakdown(containerName, states)
    }
  }

  /** containerStateBreakdownBuilders: a map from container name to builder,
      shared by reference like a Go map. */
  class ContainerStateBreakdownBuilders {
    var entries: map<string, ContainerStateBreakdown>

    /** Every builder is filed under its own container name, so builders under
        different names are different objects. */
    ghost predicate Valid()
      reads this
    {
      forall name :: name in entries ==> entries[name].containerName == name
    }

    constructor ()
      ensures Valid() && entries == map[]
    {
      entries := map[];
    }

    /** The builder for containerName, made and filed first when there is none. */
    method Get(containerName: string) returns (b: ContainerStateBreakdown)
      requires Valid()
      modifies this
      ensures Valid()
      ensures b.containerName == containerName
      ensures containerName in old(entries) ==> b == old(entries)[containerName] && entries == old(entries)
      ensures containerName !in old(entries) ==>
                fresh(b) && b.states == [] && entries == old(entries)[containerName := b]
    {
      if containerName in entries {
        b := entries[containerName];
      } else {
        b := new ContainerStateBreakdown(containerName);
        entries := entries[containerName := b];
      }
    }
  }

  /** Plain concatenation of the three condition fields: the key a breakdown
      node is filed under. */
  function ConditionKey(podConditionType: string, podConditionStatus: string, podConditionReason: string): (k: string)
    ensures |k| == |podConditionType| + |podConditionStatus| + |podConditionReason|
    ensures k[..|podConditionType|] == podConditionType
    ensures k[|podConditionType|..|podConditionType| + |podConditionStatus|] == podConditionStatus
    ensures k[|podConditionType| + |podConditionStatus|..] == podConditionReason
  {
    podConditionType + podConditionStatus + podConditionReason
  }

  /** The key does not tell the triples apart: different triples share one. */
  lemma KeyCollides()
    ensures ConditionKey("ab", "c", "") == ConditionKey("a", "bc", "")
    ensures ("ab", "c", "") != ("a", "bc", "")
  {
  }

  class PodConditionBreakdown {
    var podCount: uint32
    const podConditionType: string
    const podConditionStatus: string
    const name: string
    const podConditionReason: string
    const builders: ContainerStateBreakdownBuilders

    ghost predicate Valid()
      reads this, builders
    {
      builders.Valid()
    }

    /** NewPodConditionBreakdown */
    constructor (initialPodCount: uint32, podConditionType: string,
                 podConditionStatus: string, podConditionReason: string)
      ensures Valid() && fresh(builders)
      ensures podCount == initialPodCount
      ensures this.podConditionType == podConditionType
      ensures this.podConditionStatus == podConditionStatus
      ensures this.podConditionReason == podConditionReason
      ensures name == ""
      ensures builders.entries == map[]
    {
      podCount := initialPodCount;
      this.podConditionType := podConditionType;
      this.podConditionStatus := podConditionStatus;
      this.podConditionReason := podConditionReason;
      name := "";
      builders := new ContainerStateBreakdownBuilders();
    }

    /** Files the given builder under its container name, replacing any builder
        filed there before. */
    method AddContainerStateBreakdownBuilder(containerStateBreakdown: ContainerStateBreakdown)
      returns (p: PodConditionBreakdown)
      requires Valid()
      modifies builders
      ensures Valid() && p == this
      ensures builders.entries ==
                old(builders.entries)[containerStateBreakdown.containerName := containerStateBreakdown]
    {
      builders.entries := builders.entries[containerStateBreakdown.containerName := containerStateBreakdown];
      p := this;
    }

    /** Records one container state on the builder for containerName, made
        first when there is none; no other container's builder changes. */
    method AddContainerState(containerName: string, containerCount: uint32, podExampleName: string,
                             containerConditionType: string, containerConditionReason: string)
      returns (p: PodConditionBreakdown)
      requires Valid()
      modifies builders, builders.entries.Values
      ensures Valid() && p == this
      ensures containerName in builders.entries
      ensures builders.entries.Keys == old(builders.entries.Keys) + {containerName}
      ensures containerName in old(builders.entries) ==>
                builders.entries[containerName] == old(builders.entries[containerName])
      ensures containerName !in old(builders.entries) ==> fresh(builders.entries[containerName])
      ensures builders.entries[containerName].states ==
                (if containerName in old(builders.entries) then old(builders.entries[containerName].states) else [])
                + [ContainerState(containerCount, podExampleName, containerConditionType, containerConditionReason)]
      ensures forall n :: n in old(builders.entries) && n != containerName ==>
                builders.entries[n] == old(builders.entries[n]) && builders.entries[n].states == old(builders.entries[n].states)
    {
      var b := builders.Get(containerName);
      b.AddState(containerCount, podExampleName, containerConditionType, containerConditionReason);
      p := this;
    }

    /** Adds one pod to the count, wrapping around as uint32 does. */
    method IncrementCount() returns (p: PodConditionBreakdown)
      requires Valid()
      modifies this
      ensures Valid()
      ensures p == this
      ensures podCount == (old(podCount) + 1) % 0x1_0000_0000
    {
      podCount := (podCount + 1) % 0x1_0000_0000;
      p := this;
    }

    /** The report value: the condition fields and count as they are, and one
        container breakdown per filed builder, in map iteration order. The
        sort that follows in the source compares an element with itself, so
        it leaves that order unspecified too (see LessAsWritten). */
    method Build() returns (r: CapacityReportBreakdown)
      requires Valid()
      ensures r.Type == podConditionType && r.Status == podConditionStatus
      ensures r.Reason == podConditionReason && r.Count == podCount
      ensures Describes(r.Containers, BuiltContainers())
    {
      var ordered: seq<ContainerBreakdown> := [];
      var remaining := builders.entries.Keys;
      while remaining != {}
        invariant remaining <= builders.entries.Keys
        invariant |ordered| + |remaining| == |builders.entries.Keys|
        invariant forall i :: 0 <= i < |ordered| ==>
                    ordered[i].Name in builders.entries.Keys - remaining &&
                    ordered[i] == builders.entries[ordered[i].Name].Build()
        invariant forall n :: n in builders.entries.Keys - remaining ==> builders.entries[n].Build() in ordered
        invariant DistinctKeys(ordered, ContainerName)
        decreases remaining
      {
        var n :| n in remaining;
        ordered := ordered + [builders.entries[n].Build()];
        remaining := remaining - {n};
      }
      r := CapacityReportBreakdown(podConditionType, podConditionStatus, podCount, podConditionReason, ordered);
    }

    /** What every builder in the map builds to, by container name. */
    ghost function BuiltContainers(): (m: map<string, ContainerBreakdown>)
      reads this, builders, builders.entries.Values
      requires Valid()
      ensures m.Keys == builders.entries.Keys
      ensures forall n :: n in m ==> m[n].Name == n
    {
      map n | n in builders.entries :: builders.entries[n].Build()
    }

    /** Build as the comparator was evidently meant: containers by name. */
    method BuildSorted() returns (r: CapacityReportBreakdown)
      requires Valid()
      ensures r.Type == podConditionType && r.Status == podConditionStatus
      ensures r.Reason == podConditionReason && r.Count == podCount
      ensures Describes(r.Containers, BuiltContainers())
      ensures SortedBy(r.Containers, ContainerName)
    {
      r := Build();
      var sorted := SortContainers(r.Containers);
      DescribesPermutation(r.Containers, sorted, BuiltContainers());
      r := r.(Containers := sorted);
    }
  }

  /** The sort.Slice call of Build, with the comparator by container name: the
      slice is sorted in place in a fresh array. */
  method SortContainers(cs: seq<ContainerBreakdown>) returns (sorted: seq<ContainerBreakdown>)
    ensures SortedBy(sorted, ContainerName)
    ensures multiset(sorted) == multiset(cs)
  {
    var a := new ContainerBreakdown[|cs|](i requires 0 <= i < |cs| => cs[i]);
    assert a[..] == cs;
    SortByKey(a, ContainerName);
    sorted := a[..];
  }

  function ContainerName(c: ContainerBreakdown): (r: string)
  {
    c.Name
  }

  /** cs lists exactly the values of m, each once. */
  ghost predicate Describes(cs: seq<ContainerBreakdown>, m: map<string, ContainerBreakdown>)
  {
    && |cs| == |m|
    && DistinctKeys(cs, ContainerName)
    && (forall i :: 0 <= i < |cs| ==> cs[i].Name in m && cs[i] == m[cs[i].Name])
    && (forall n :: n in m ==> m[n] in cs)
  }

  /** Reordering a description keeps it a description. */
  lemma DescribesPermutation(s: seq<ContainerBreakdown>, t: seq<ContainerBreakdown>, m: map<string, ContainerBreakdown>)
    requires Describes(s, m)
    requires multiset(s) == multiset(t)
    ensures Describes(t, m)
  {
    assert |t| == |multiset(t)| == |multiset(s)| == |s|;
    forall x ensures x in s <==> x in t {
      assert x in s <==> x in multiset(s);
      assert x in t <==> x in multiset(t);
    }
    forall i | 0 <= i < |t| ensures t[i].Name in m && t[i] == m[t[i].Name] {
      assert t[i] in s;
      var k :| 0 <= k < |s| && s[k] == t[i];
    }
    DistinctKeysPermutation(s, t, ContainerName);
  }

  /** Two name-sorted descriptions of the same builders are equal: once the
      containers are sorted, the report no longer depends on map order. */
  lemma SortedDescriptionUnique(s: seq<ContainerBreakdown>, t: seq<ContainerBreakdown>, m: map<string, ContainerBreakdown>)
    requires Describes(s, m) && Describes(t, m)
    requires SortedBy(s, ContainerName) && SortedBy(t, ContainerName)
    ensures s == t
  {
    forall x ensures x in s <==> x in t {
      if x in s {
        var i :| 0 <= i < |s| && s[i] == x;
      }
      if x in t {
        var j :| 0 <= j < |t| && t[j] == x;
      }
    }
    SortedSameElementsUnique(s, t, ContainerName);
  }

  /** The comparator the source hands to sort.Slice: element i against itself. */
  function LessAsWritten(cs: seq<ContainerBreakdown>, i: nat, j: nat): (r: bool)
    requires i < |cs| && j < |cs|
  {
    Less(cs[i].Name, cs[i].Name)
  }

  /** It never reports "less", so it accepts every order as sorted. */
  lemma AsWrittenNeverLess(cs: seq<ContainerBreakdown>, i: nat, j: nat)
    requires i < |cs| && j < |cs|
    ensures !LessAsWritten(cs, i, j)
  {
    LessIrreflexive(cs[i].Name);
  }

  /** Containers "b" then "a" are in order under it, though not by name. */
  lemma AsWrittenAcceptsUnsorted()
    ensures var cs := [ContainerBreakdown("b", []), ContainerBreakdown("a", [])];
            !LessAsWritten(cs, 1, 0) && !SortedBy(cs, ContainerName)
  {
    var cs := [ContainerBreakdown("b", []), ContainerBreakdown("a", [])];
    AsWrittenNeverLess(cs, 1, 0);
    assert Less(ContainerName(cs[1]), ContainerName(cs[0]));
  }
}
