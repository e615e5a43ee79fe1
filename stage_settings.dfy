/**
 * The spawn-table builder of StageSettings
 * (Assets/ScriptableObjects/StageSettings/StageSettings.cs): the spawnables of a
 * stage pattern are sorted by height and turned into SpawnInfo records, and the
 * distinct prefab names are listed in first-occurrence order.
 */
module StageSetup {
  import opened Common

  datatype SpawnCondition = NoCondition | NoEnemies | CarryOver

  /** The spawn parameters, copied verbatim; `currentStep` identifies the route step object. */
  datatype SpawnParams = SpawnParams(currentStep: nat, condition: SpawnCondition, exemptFromCheck: bool)

  /** A spawnable child of the stage pattern: its position, its object name and its parameters. */
  datatype Spawnable = Spawnable(x: real, y: real, name: string, parameters: SpawnParams)

  datatype SpawnInfo = SpawnInfo(beat: int, lane: real, prefabName: string, parameters: SpawnParams)

  /** Mathf.RoundToInt: round to the nearest integer, halves to the even neighbour. */
  function RoundToInt(v: real): (r: int)
    ensures r as real - 0.5 <= v <= r as real + 0.5
    ensures v == r as real - 0.5 || v == r as real + 0.5 ==> r % 2 == 0
  {
    var f := v.Floor;
    var frac := v - f as real;
    if frac < 0.5 then f
    else if frac > 0.5 then f + 1
    else if f % 2 == 0 then f
    else f + 1
  }

  /** Rounding is monotone. */
  lemma RoundMonotone(v: real, w: real)
    requires v <= w
    ensures RoundToInt(v) <= RoundToInt(w)
  {
  }

  /** The first element of splitting the name at spaces: everything before the first space. */
  function PrefixBeforeSpace(name: string): (r: string)
    ensures r <= name && ' ' !in r
    ensures |r| < |name| ==> name[|r|] == ' '
  {
    if name == [] || name[0] == ' ' then []
    else [name[0]] + PrefixBeforeSpace(name[1..])
  }

  /** A name without spaces is its own prefab name. */
  lemma {:induction false} PrefixOfSpacelessName(name: string)
    requires ' ' !in name
    ensures PrefixBeforeSpace(name) == name
  {
    if name != [] {
      PrefixOfSpacelessName(name[1..]);
    }
  }

  /** The SpawnInfo(BaseSpawnable) constructor. */
  function MakeSpawnInfo(s: Spawnable): (r: SpawnInfo)
    ensures r.lane == s.x && r.parameters == s.parameters
    ensures r.beat as real - 0.5 <= s.y <= r.beat as real + 0.5
    ensures r.prefabName <= s.name && ' ' !in r.prefabName
  {
    SpawnInfo(RoundToInt(s.y), s.x, PrefixBeforeSpace(s.name), s.parameters)
  }

  function Infos(s: seq<Spawnable>): (r: seq<SpawnInfo>)
    ensures |r| == |s| && forall i :: 0 <= i < |s| ==> r[i] == MakeSpawnInfo(s[i])
  {
    seq(|s|, i requires 0 <= i < |s| => MakeSpawnInfo(s[i]))
  }

  ghost predicate SortedByHeight(s: seq<Spawnable>)
  {
    forall i, j :: 0 <= i < j < |s| ==> s[i].y <= s[j].y
  }

  ghost predicate BeatsInOrder(s: seq<SpawnInfo>)
  {
    forall i, j :: 0 <= i < j < |s| ==> s[i].beat <= s[j].beat
  }

  /** Sorting by height puts the beats in order. */
  lemma SortedHeightsGiveOrderedBeats(s: seq<Spawnable>)
    requires SortedByHeight(s)
    ensures BeatsInOrder(Infos(s))
  {
    forall i, j | 0 <= i < j < |s|
      ensures Infos(s)[i].beat <= Infos(s)[j].beat
    {
      RoundMonotone(s[i].y, s[j].y);
    }
  }

  lemma InfosAppend(a: seq<Spawnable>, b: seq<Spawnable>)
    ensures Infos(a + b) == Infos(a) + Infos(b)
  {
  }

  /** Building the records of two permutations of the same spawnables gives permutations of the same records. */
  lemma {:induction false} InfosPermutation(s: seq<Spawnable>, t: seq<Spawnable>)
    requires multiset(s) == multiset(t)
    ensures multiset(Infos(s)) == multiset(Infos(t))
    decreases |s|
  {
    if s != [] {
      var x := s[0];
      assert x in multiset(t);
      var k :| 0 <= k < |t| && t[k] == x;
      var t' := t[..k] + t[k + 1..];
      assert t == t[..k] + [x] + t[k + 1..];
      assert s == [x] + s[1..];
      assert multiset(t) == multiset(t[..k]) + multiset{x} + multiset(t[k + 1..]);
      assert multiset(s) == multiset{x} + multiset(s[1..]);
      assert multiset(t') == multiset(t[..k]) + multiset(t[k + 1..]);
      assert multiset(s[1..]) == multiset(s) - multiset{x};
      assert multiset(s[1..]) == multiset(t');
      InfosPermutation(s[1..], t');
      InfosAppend([x], s[1..]);
      InfosAppend(t[..k], [x]);
      InfosAppend(t[..k] + [x], t[k + 1..]);
      InfosAppend(t[..k], t[k + 1..]);
    }
  }

  lemma SwapKeepsMultiset<T>(s: seq<T>, i: nat, j: nat)
    requires i < j < |s|
    ensures multiset(s[i := s[j]][j := s[i]]) == multiset(s)
  {
    var t := s[i := s[j]][j := s[i]];
    assert s == s[..i] + [s[i]] + s[i + 1..j] + [s[j]] + s[j + 1..];
    assert t == s[..i] + [s[j]] + s[i + 1..j] + [s[i]] + s[j + 1..];
  }

  /** Array.Sort with the comparison on height, in place. */
  method SortByHeight(a: array<Spawnable>)
    modifies a
    ensures SortedByHeight(a[..])
    ensures multiset(a[..]) == multiset(old(a[..]))
  {
    var i := 0;
    while i < a.Length
      invariant 0 <= i <= a.Length
      invariant forall p, q :: 0 <= p < q < i ==> a[p].y <= a[q].y
      invariant multiset(a[..]) == multiset(old(a[..]))
    {
      SinkInto(a, i);
      i := i + 1;
    }
  }

  /** The invariant of sinking a[i] into the sorted prefix, the sunk element now at j. */
  ghost predicate SinkInv(s: seq<Spawnable>, i: nat, j: nat)
  {
    j <= i < |s| &&
    (forall p, q :: 0 <= p < q <= i && q != j ==> s[p].y <= s[q].y) &&
    (0 < j < i ==> s[j - 1].y <= s[j + 1].y)
  }

  lemma SinkStep(s: seq<Spawnable>, i: nat, j: nat)
    requires SinkInv(s, i, j) && 0 < j && s[j - 1].y > s[j].y
    ensures SinkInv(s[j - 1 := s[j]][j := s[j - 1]], i, j - 1)
    ensures multiset(s[j - 1 := s[j]][j := s[j - 1]]) == multiset(s)
  {
    var t := s[j - 1 := s[j]][j := s[j - 1]];
    SwapKeepsMultiset(s, j - 1, j);
    forall p, q | 0 <= p < q <= i && q != j - 1
      ensures t[p].y <= t[q].y
    {
      if q == j {
        if p < j - 1 { assert s[p].y <= s[j - 1].y; }
      } else if q > j {
        if p == j - 1 || p == j { assert s[j - 1].y <= s[q].y; }
        else { assert s[p].y <= s[q].y; }
      } else {
        assert s[p].y <= s[q].y;
      }
    }
    if 0 < j - 1 { assert s[j - 2].y <= s[j - 1].y; }
  }

  lemma SinkDone(s: seq<Spawnable>, i: nat, j: nat)
    requires SinkInv(s, i, j) && (j == 0 || s[j - 1].y <= s[j].y)
    ensures forall p, q :: 0 <= p < q <= i ==> s[p].y <= s[q].y
  {
  }

  /** Move a[i] down into the sorted prefix a[..i] by adjacent swaps. */
  method SinkInto(a: array<Spawnable>, i: nat)
    requires i < a.Length
    requires forall p, q :: 0 <= p < q < i ==> a[p].y <= a[q].y
    modifies a
    ensures forall p, q :: 0 <= p < q <= i ==> a[p].y <= a[q].y
    ensures multiset(a[..]) == multiset(old(a[..]))
  {
    var j: nat := i;
    assert SinkInv(a[..], i, j);
    while j > 0 && a[j - 1].y > a[j].y
      invariant SinkInv(a[..], i, j)
      invariant multiset(a[..]) == multiset(old(a[..]))
    {
      ghost var before := a[..];
      a[j - 1], a[j] := a[j], a[j - 1];
      assert a[..] == before[j - 1 := before[j]][j := before[j - 1]];
      SinkStep(before, i, j);
      j := j - 1;
    }
    SinkDone(a[..], i, j);
  }

  /** The distinct elements of `s`, each where it first occurs. */
  function FirstOccurrences(s: seq<string>): (r: seq<string>)
    ensures forall x :: x in r <==> x in s
    decreases |s|
  {
    if s == [] then []
    else
      var p := FirstOccurrences(s[..|s| - 1]);
      if s[|s| - 1] in p then p else p + [s[|s| - 1]]
  }

  ghost predicate NoDuplicates(s: seq<string>)
  {
    forall i, j :: 0 <= i < j < |s| ==> s[i] != s[j]
  }

  /** The index where `x` first occurs in `s`. */
  function FirstIndex(s: seq<string>, x: string): (k: nat)
    requires x in s
    ensures k < |s| && s[k] == x && x !in s[..k]
  {
    if s[0] == x then 0
    else
      assert x in s[1..] by {
        var k :| 0 <= k < |s| && s[k] == x;
        assert s[1..][k - 1] == x;
      }
      1 + FirstIndex(s[1..], x)
  }

  lemma FirstIndexInPrefix(s: seq<string>, n: nat, x: string)
    requires n <= |s| && x in s[..n]
    ensures x in s && FirstIndex(s, x) == FirstIndex(s[..n], x)
  {
    var k' := FirstIndex(s[..n], x);
    assert s[..n][k'] == s[k'];
  }

  /** The first-occurrence list has no duplicates, and lists names in the order they first occur. */
  lemma {:induction false} FirstOccurrencesOrdered(s: seq<string>)
    ensures NoDuplicates(FirstOccurrences(s))
    ensures forall i, j :: 0 <= i < j < |FirstOccurrences(s)| ==>
              FirstIndex(s, FirstOccurrences(s)[i]) < FirstIndex(s, FirstOccurrences(s)[j])
    decreases |s|
  {
    if s != [] {
      var n := |s| - 1;
      var init := s[..n];
      var p := FirstOccurrences(init);
      FirstOccurrencesOrdered(init);
      forall x | x in p
        ensures FirstIndex(s, x) == FirstIndex(init, x) && FirstIndex(s, x) < n
      {
        FirstIndexInPrefix(s, n, x);
      }
      if s[n] !in p {
        assert s[n] !in init;
        assert FirstIndex(s, s[n]) == n;
      }
    }
  }

  /** Extending the list by one name, as the loop body does. */
  lemma FirstOccurrencesStep(s: seq<string>, i: nat)
    requires i < |s|
    ensures FirstOccurrences(s[..i + 1]) ==
            if s[i] in FirstOccurrences(s[..i]) then FirstOccurrences(s[..i]) else FirstOccurrences(s[..i]) + [s[i]]
  {
    assert s[..i + 1][..i] == s[..i];
  }

  function PrefabNames(s: seq<SpawnInfo>): (r: seq<string>)
    ensures |r| == |s| && forall i :: 0 <= i < |s| ==> r[i] == s[i].prefabName
  {
    seq(|s|, i requires 0 <= i < |s| => s[i].prefabName)
  }

  /** Appending one record adds its prefab name to the list unless it is already there. */
  lemma NameListStep(built: seq<SpawnInfo>, info: SpawnInfo, names: seq<string>)
    requires names == FirstOccurrences(PrefabNames(built))
    ensures FirstOccurrences(PrefabNames(built + [info])) ==
            if info.prefabName in names then names else names + [info.prefabName]
  {
    var s := PrefabNames(built + [info]);
    assert s[..|built|] == PrefabNames(built);
    FirstOccurrencesStep(s, |built|);
  }

  /**
   * The loop of Init: one record per spawnable in order, each name added to the list
   * unless already there.
   */
  method BuildTable(sorted: seq<Spawnable>) returns (table: seq<SpawnInfo>, names: seq<string>)
    ensures table == Infos(sorted)
    ensures names == FirstOccurrences(PrefabNames(table))
  {
    var cells := new SpawnInfo[|sorted|](_ => SpawnInfo(0, 0.0, [], SpawnParams(0, NoCondition, false)));
    names := [];
    ghost var built: seq<SpawnInfo> := [];
    for i := 0 to |sorted|
      invariant |built| == i && cells[..i] == built
      invariant forall k :: 0 <= k < i ==> built[k] == MakeSpawnInfo(sorted[k])
      invariant names == FirstOccurrences(PrefabNames(built))
    {
      var info := MakeSpawnInfo(sorted[i]);
      NameListStep(built, info, names);
      if info.prefabName !in names {
        names := names + [info.prefabName];
      }
      cells[i] := info;
      built := built + [info];
    }
    table := cells[..];
    assert cells[..|sorted|] == cells[..];
    assert table == Infos(sorted);
  }

  class StageSettings {
    /** BPM and BeatsBeforeEnd, 180 and 8 by default. */
    const bpm: int
    const beatsBeforeEnd: int

    var spawns: seq<SpawnInfo>
    var prefabs: seq<string>

    constructor (bpm: int, beatsBeforeEnd: int)
      ensures this.bpm == bpm && this.beatsBeforeEnd == beatsBeforeEnd && spawns == [] && prefabs == []
    {
      this.bpm := bpm;
      this.beatsBeforeEnd := beatsBeforeEnd;
      spawns := [];
      prefabs := [];
    }

    /**
     * Init over the spawnables of the stage pattern (None when there is no pattern):
     * an ordered table of one record per spawnable, and the distinct prefab names.
     */
    method Init(pattern: Option<seq<Spawnable>>)
      modifies this
      ensures pattern.None? || pattern.value == [] ==> prefabs == [] && spawns == old(spawns)
      ensures pattern.Some? && pattern.value != [] ==>
                |spawns| == |pattern.value| &&
                BeatsInOrder(spawns) &&
                multiset(spawns) == multiset(Infos(pattern.value)) &&
                prefabs == FirstOccurrences(PrefabNames(spawns))
      ensures pattern.Some? && pattern.value != [] ==>
                exists sorted :: SortedByHeight(sorted) && multiset(sorted) == multiset(pattern.value) && spawns == Infos(sorted)
    {
      prefabs := [];
      if pattern.None? {
        return;
      }
      if |pattern.value| == 0 {
        return;
      }
      var sorted := new Spawnable[|pattern.value|](i requires 0 <= i < |pattern.value| => pattern.value[i]);
      assert sorted[..] == pattern.value;
      SortByHeight(sorted);
      var table, names := BuildTable(sorted[..]);
      SortedHeightsGiveOrderedBeats(sorted[..]);
      InfosPermutation(sorted[..], pattern.value);
      ghost var order := sorted[..];
      spawns := table;
      prefabs := names;
      assert SortedByHeight(order) && multiset(order) == multiset(pattern.value) && spawns == Infos(order);
    }
  }

  /** Every record's prefab name is listed, every listed name comes from a record, and none twice. */
  lemma PrefabsMatchSpawns(spawns: seq<SpawnInfo>)
    ensures var prefabs := FirstOccurrences(PrefabNames(spawns));
      NoDuplicates(prefabs) &&
      (forall i :: 0 <= i < |spawns| ==> spawns[i].prefabName in prefabs) &&
      (forall x :: x in prefabs ==> exists i :: 0 <= i < |spawns| && spawns[i].prefabName == x)
  {
    var names := PrefabNames(spawns);
    FirstOccurrencesOrdered(names);
    forall i | 0 <= i < |spawns|
      ensures spawns[i].prefabName in FirstOccurrences(names)
    {
      assert names[i] == spawns[i].prefabName;
    }
  }
}
