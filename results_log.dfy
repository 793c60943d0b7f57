/** The results-log bookkeeping of the workspace page (pages/index.js), with React state read as plain
    variables: grouping the flat log of generated answers by section, the latest iteration of each
    section, iteration navigation, section selection, merging newly generated answers into the groups,
    the two input guards and the file-type icon. */
module ResultsLog {

  import opened Wrappers
  import opened Seqs
  import opened Text

  /** One entry of results.json: `{section, iteration_number, question, answer}`. */
  datatype ResultRecord = ResultRecord(section: string, iterationNumber: int, question: string, answer: string)

  /** `result.section === s`. */
  function InSection(s: string): ResultRecord -> bool
  {
    (r: ResultRecord) => r.section == s
  }

  /** The records of section s, in log order. */
  function SectionGroup(results: seq<ResultRecord>, s: string): seq<ResultRecord>
  {
    Filter(InSection(s), results)
  }

  /** The distinct sections of a log in order of first appearance: the keys of the grouping object. */
  function Sections(results: seq<ResultRecord>): (keys: seq<string>)
    ensures forall i, j :: 0 <= i < j < |keys| ==> keys[i] != keys[j]
    ensures forall i :: 0 <= i < |results| ==> results[i].section in keys
    ensures forall k :: k in keys ==> exists i :: 0 <= i < |results| && results[i].section == k
    decreases |results|
  {
    if results == [] then []
    else
      var prefix := results[..|results| - 1];
      var s := results[|results| - 1].section;
      assert forall i :: 0 <= i < |results| - 1 ==> results[i] == prefix[i];
      var keys := Sections(prefix);
      if s in keys then keys else keys + [s]
  }

  /** A record lands in exactly the group of its own section. */
  lemma GroupMembership(results: seq<ResultRecord>, s: string, r: ResultRecord)
    ensures r in SectionGroup(results, s) <==> r in results && r.section == s
  {
    FilterMembership(InSection(s), results, r);
  }

  /** A section that does not occur in the log has an empty group, and one that does has a non-empty one. */
  lemma GroupEmptyIffAbsent(results: seq<ResultRecord>, s: string)
    ensures SectionGroup(results, s) == [] <==> s !in Sections(results)
  {
    if s in Sections(results) {
      var i :| 0 <= i < |results| && results[i].section == s;
      GroupMembership(results, s, results[i]);
    } else {
      FilterNone(InSection(s), results);
    }
  }

  /** One record more at the end of the log extends its own group and no other. */
  lemma GroupSnoc(results: seq<ResultRecord>, r: ResultRecord)
    ensures forall s :: SectionGroup(results + [r], s) == SectionGroup(results, s) + (if r.section == s then [r] else [])
  {
    forall s ensures SectionGroup(results + [r], s) == SectionGroup(results, s) + (if r.section == s then [r] else []) {
      FilterSnoc(InSection(s), results, r);
    }
  }

  /** One record more at the end of the log adds its section to the keys when it is new. */
  lemma SectionsSnoc(results: seq<ResultRecord>, r: ResultRecord)
    ensures Sections(results + [r]) == Sections(results) + (if r.section in Sections(results) then [] else [r.section])
  {
    assert (results + [r])[..|results|] == results;
  }

  /** The records of every group, counted over the given keys. */
  function GroupsMultiset(results: seq<ResultRecord>, keys: seq<string>): multiset<ResultRecord>
    decreases |keys|
  {
    if keys == [] then multiset{} else multiset(SectionGroup(results, keys[0])) + GroupsMultiset(results, keys[1..])
  }

  /** Removing the records of one section leaves the groups of the other sections as they were. */
  lemma {:induction false} GroupsWithout(results: seq<ResultRecord>, k0: string, keys: seq<string>)
    requires k0 !in keys
    ensures GroupsMultiset(Reject(InSection(k0), results), keys) == GroupsMultiset(results, keys)
    decreases |keys|
  {
    if keys != [] {
      GroupOfRest(results, k0, keys[0]);
      GroupsWithout(results, k0, keys[1..]);
    }
  }

  lemma {:induction false} GroupOfRest(results: seq<ResultRecord>, k0: string, k: string)
    requires k != k0
    ensures SectionGroup(Reject(InSection(k0), results), k) == SectionGroup(results, k)
    decreases |results|
  {
    if results != [] {
      GroupOfRest(results[1..], k0, k);
      if results[0].section == k0 {
        assert Reject(InSection(k0), results) == Reject(InSection(k0), results[1..]);
        assert SectionGroup(results, k) == SectionGroup(results[1..], k);
      } else {
        assert Reject(InSection(k0), results) == [results[0]] + Reject(InSection(k0), results[1..]);
      }
    }
  }

  /** Grouping loses and invents nothing: over distinct keys that cover every section of the log, the
      groups hold together exactly the records of the log, each of them once. */
  lemma {:induction false} GroupingPartitions(results: seq<ResultRecord>, keys: seq<string>)
    requires forall i :: 0 <= i < |results| ==> results[i].section in keys
    requires forall i, j :: 0 <= i < j < |keys| ==> keys[i] != keys[j]
    ensures GroupsMultiset(results, keys) == multiset(results)
    decreases |keys|
  {
    if keys == [] {
      assert results == [];
    } else {
      var k0 := keys[0];
      var rest := Reject(InSection(k0), results);
      forall i | 0 <= i < |rest| ensures rest[i].section in keys[1..] {
        RejectMembership(InSection(k0), results, rest[i]);
        var j :| 0 <= j < |results| && results[j] == rest[i];
        assert results[j].section in keys;
      }
      assert k0 !in keys[1..] by {
        forall j | 0 <= j < |keys[1..]| ensures keys[1..][j] != k0 {
          assert keys[1..][j] == keys[j + 1];
        }
      }
      GroupingPartitions(rest, keys[1..]);
      GroupsWithout(results, k0, keys[1..]);
      FilterSplitMultiset(InSection(k0), results);
    }
  }

  /** The groups of a log, keyed by its sections. */
  ghost predicate GroupsOf(results: seq<ResultRecord>, groups: map<string, seq<ResultRecord>>, keys: seq<string>)
  {
    && keys == Sections(results)
    && (forall s :: s in groups <==> s in keys)
    && (forall s :: s in groups ==> groups[s] == SectionGroup(results, s))
  }

  /** One turn of the `reduce`: a group is opened for a new section, then the record is pushed. */
  lemma GroupStep(results: seq<ResultRecord>, r: ResultRecord, groups: map<string, seq<ResultRecord>>, keys: seq<string>)
    requires GroupsOf(results, groups, keys)
    ensures r.section in groups ==> GroupsOf(results + [r], groups[r.section := groups[r.section] + [r]], keys)
    ensures r.section !in groups ==> GroupsOf(results + [r], groups[r.section := [r]], keys + [r.section])
  {
    SectionsSnoc(results, r);
    var groups' := if r.section in groups then groups[r.section := groups[r.section] + [r]] else groups[r.section := [r]];
    forall s | s in groups' ensures groups'[s] == SectionGroup(results + [r], s) {
      FilterSnoc(InSection(s), results, r);
      if s == r.section && r.section !in groups {
        GroupEmptyIffAbsent(results, s);
      }
    }
  }

  /** The body of the `reduce`: `if (!acc[result.section]) acc[result.section] = []`, then the push. */
  method PushRecord(groups: map<string, seq<ResultRecord>>, keys: seq<string>, r: ResultRecord)
    returns (groups': map<string, seq<ResultRecord>>, keys': seq<string>)
    ensures r.section in groups ==> groups' == groups[r.section := groups[r.section] + [r]] && keys' == keys
    ensures r.section !in groups ==> groups' == groups[r.section := [r]] && keys' == keys + [r.section]
  {
    groups', keys' := groups, keys;
    if r.section !in groups' {
      groups' := groups'[r.section := []];
      keys' := keys' + [r.section];
    }
    assert r.section !in groups ==> groups'[r.section] + [r] == [r];
    groups' := groups'[r.section := groups'[r.section] + [r]];
  }

  /** The grouping `reduce`: a group per section in order of first appearance, each holding the records
      of its section in log order. */
  method GroupBySection(results: seq<ResultRecord>) returns (groups: map<string, seq<ResultRecord>>, keys: seq<string>)
    ensures keys == Sections(results)
    ensures forall s :: s in groups <==> s in keys
    ensures forall s :: s in groups ==> groups[s] == SectionGroup(results, s)
  {
    groups := map[];
    keys := [];
    var i := 0;
    while i < |results|
      invariant 0 <= i <= |results|
      invariant GroupsOf(results[..i], groups, keys)
    {
      var r := results[i];
      assert results[..i + 1] == results[..i] + [r];
      GroupStep(results[..i], r, groups, keys);
      groups, keys := PushRecord(groups, keys, r);
      i := i + 1;
    }
    assert results[..i] == results;
  }

  /** The greatest iteration number of a non-empty group: `Math.max(...group.map(r => r.iteration_number))`. */
  function MaxIteration(g: seq<ResultRecord>): (m: int)
    requires g != []
    ensures exists i :: 0 <= i < |g| && g[i].iterationNumber == m
    ensures forall i :: 0 <= i < |g| ==> g[i].iterationNumber <= m
    decreases |g|
  {
    if |g| == 1 then g[0].iterationNumber
    else
      var m := MaxIteration(g[1..]);
      assert forall i :: 1 <= i < |g| ==> g[i] == g[1..][i - 1];
      if g[0].iterationNumber >= m then g[0].iterationNumber else m
  }

  /** Iteration numbers never increase along s: the order of `sort((a, b) => b.iteration_number - a.iteration_number)`. */
  ghost predicate Descending(s: seq<ResultRecord>)
  {
    forall i, j :: 0 <= i < j < |s| ==> s[i].iterationNumber >= s[j].iterationNumber
  }

  /** The head of a descending rearrangement of a group carries the group's greatest iteration number. */
  lemma HeadIsMax(s: seq<ResultRecord>, g: seq<ResultRecord>)
    requires g != [] && Descending(s) && multiset(s) == multiset(g)
    ensures s != [] && s[0].iterationNumber == MaxIteration(g)
  {
    assert |s| == |multiset(s)| == |g|;
    assert s[0] in multiset(g);
    forall i | 0 <= i < |g| ensures g[i].iterationNumber <= s[0].iterationNumber {
      assert g[i] in multiset(s);
      var j :| 0 <= j < |s| && s[j] == g[i];
    }
    var k :| 0 <= k < |g| && g[k] == s[0];
  }

  /** Exchanges a[i] and a[j], leaving every other element where it is. */
  method Swap(a: array<ResultRecord>, i: nat, j: nat)
    requires i < a.Length && j < a.Length
    modifies a
    ensures a[i] == old(a[j]) && a[j] == old(a[i])
    ensures forall k :: 0 <= k < a.Length && k != i && k != j ==> a[k] == old(a[k])
    ensures multiset(a[..]) == multiset(old(a[..]))
  {
    a[i], a[j] := a[j], a[i];
  }

  /** One step of the sort: a[i] moves left past every element with a smaller iteration number. */
  method InsertLeft(a: array<ResultRecord>, i: nat)
    requires i < a.Length
    requires forall m, n :: 0 <= m < n < i ==> a[m].iterationNumber >= a[n].iterationNumber
    modifies a
    ensures forall m, n :: 0 <= m < n <= i ==> a[m].iterationNumber >= a[n].iterationNumber
    ensures multiset(a[..]) == multiset(old(a[..]))
  {
    var j := i;
    while 0 < j && a[j - 1].iterationNumber < a[j].iterationNumber
      invariant 0 <= j <= i
      invariant forall m, n :: 0 <= m < n <= i && n != j ==> a[m].iterationNumber >= a[n].iterationNumber
      invariant 0 < j < i ==> a[j - 1].iterationNumber >= a[j + 1].iterationNumber
      invariant multiset(a[..]) == multiset(old(a[..]))
    {
      Swap(a, j - 1, j);
      j := j - 1;
    }
  }

  /** Rearranging a group does not change its greatest iteration number. */
  lemma MaxOfPermutation(g: seq<ResultRecord>, h: seq<ResultRecord>)
    requires g != [] && multiset(g) == multiset(h)
    ensures h != [] && MaxIteration(g) == MaxIteration(h)
  {
    assert |g| == |multiset(g)| == |h|;
    var i :| 0 <= i < |g| && g[i].iterationNumber == MaxIteration(g);
    var j :| 0 <= j < |h| && h[j].iterationNumber == MaxIteration(h);
    assert g[i] in multiset(h);
    assert h[j] in multiset(g);
  }

  /** The in-place `sort` of one group, by descending iteration number. */
  method SortDescending(a: array<ResultRecord>)
    modifies a
    ensures Descending(a[..])
    ensures multiset(a[..]) == multiset(old(a[..]))
  {
    var i := 0;
    while i < a.Length
      invariant 0 <= i <= a.Length
      invariant forall m, n :: 0 <= m < n < i ==> a[m].iterationNumber >= a[n].iterationNumber
      invariant multiset(a[..]) == multiset(old(a[..]))
    {
      InsertLeft(a, i);
      i := i + 1;
    }
  }

  /** `group.sort(...)` followed by `sorted[0].iteration_number`, on a group that is not empty. */
  method SortGroup(g: seq<ResultRecord>) returns (sorted: seq<ResultRecord>, head: int)
    requires g != []
    ensures Descending(sorted) && multiset(sorted) == multiset(g)
    ensures head == MaxIteration(g)
  {
    var a := new ResultRecord[|g|](k requires 0 <= k < |g| => g[k]);
    assert a[..] == g;
    SortDescending(a);
    HeadIsMax(a[..], g);
    sorted, head := a[..], a[0].iterationNumber;
  }

  /** One turn of the `forEach` after grouping: section s is sorted and its head recorded. */
  method SortSection(groups: map<string, seq<ResultRecord>>, sorted: map<string, seq<ResultRecord>>,
                     latest: map<string, int>, s: string)
    returns (sorted': map<string, seq<ResultRecord>>, latest': map<string, int>)
    requires s in groups && forall t :: t in groups ==> groups[t] != []
    requires forall t :: t in sorted <==> t in groups
    requires forall t :: t in sorted ==> multiset(sorted[t]) == multiset(groups[t])
    requires forall t :: t in latest ==> t in groups && Descending(sorted[t]) && latest[t] == MaxIteration(groups[t])
    ensures forall t :: t in sorted' <==> t in groups
    ensures forall t :: t in sorted' ==> multiset(sorted'[t]) == multiset(groups[t])
    ensures forall t :: t in latest' ==> t in groups && Descending(sorted'[t]) && latest'[t] == MaxIteration(groups[t])
    ensures forall t :: t in latest ==> t in latest'
    ensures s in latest'
  {
    assert |sorted[s]| == |multiset(groups[s])|;
    var g, head := SortGroup(sorted[s]);
    MaxOfPermutation(sorted[s], groups[s]);
    sorted' := sorted[s := g];
    latest' := latest[s := head];
  }

  /** The `forEach` over the keys after grouping: each group is sorted in place, newest iteration
      first, and the iteration number at its head becomes the section's current iteration. */
  method LatestIterations(groups: map<string, seq<ResultRecord>>, keys: seq<string>)
    returns (sorted: map<string, seq<ResultRecord>>, latest: map<string, int>)
    requires forall s :: s in groups <==> s in keys
    requires forall s :: s in groups ==> groups[s] != []
    ensures forall s :: s in sorted <==> s in groups
    ensures forall s :: s in sorted ==> Descending(sorted[s]) && multiset(sorted[s]) == multiset(groups[s])
    ensures forall s :: s in latest <==> s in groups
    ensures forall s :: s in latest ==> latest[s] == MaxIteration(groups[s])
  {
    sorted := groups;
    latest := map[];
    var j := 0;
    while j < |keys|
      invariant 0 <= j <= |keys|
      invariant forall s :: s in sorted <==> s in groups
      invariant forall s :: s in sorted ==> multiset(sorted[s]) == multiset(groups[s])
      invariant forall k :: 0 <= k < j ==> keys[k] in latest
      invariant forall s :: s in latest ==> s in groups && Descending(sorted[s]) && latest[s] == MaxIteration(groups[s])
    {
      sorted, latest := SortSection(groups, sorted, latest, keys[j]);
      j := j + 1;
    }
    forall s | s in groups ensures Descending(sorted[s]) && s in latest {
      var k :| 0 <= k < |keys| && keys[k] == s;
    }
  }

  /** Loading a workspace's results (the first `try` of the workspace-data effect): the log is grouped
      by section, every group ends up sorted newest first, and each section's current iteration is the
      greatest iteration number recorded for it. */
  method LoadResults(results: seq<ResultRecord>)
    returns (allResults: map<string, seq<ResultRecord>>, currentIterations: map<string, int>, keys: seq<string>)
    ensures keys == Sections(results)
    ensures forall s :: s in allResults <==> s in keys
    ensures forall s :: s in allResults ==>
              Descending(allResults[s]) && multiset(allResults[s]) == multiset(SectionGroup(results, s))
    ensures forall s :: s in currentIterations <==> s in keys
    ensures forall s :: s in currentIterations ==>
              SectionGroup(results, s) != [] && currentIterations[s] == MaxIteration(SectionGroup(results, s))
  {
    var groups;
    groups, keys := GroupBySection(results);
    forall s | s in groups ensures groups[s] != [] {
      GroupEmptyIffAbsent(results, s);
    }
    allResults, currentIterations := LatestIterations(groups, keys);
  }

  /** `prev[section] || 1`: the shown iteration of a section, 1 when none (or 0) is recorded. */
  function CurrentIteration(current: map<string, int>, section: string): int
  {
    if section in current && current[section] != 0 then current[section] else 1
  }

  /** `allResults[section]?.length || 1`: how many iterations a section has, 1 when it has none. */
  function IterationCount(allResults: map<string, seq<ResultRecord>>, section: string): nat
  {
    if section in allResults && allResults[section] != [] then |allResults[section]| else 1
  }

  /** handleIterationChange: the section's iteration moves by `direction` and is clamped into
      [1, number of iterations]; every other section keeps its iteration. */
  function ChangeIteration(current: map<string, int>, allResults: map<string, seq<ResultRecord>>, section: string,
                           direction: int): (next: map<string, int>)
    ensures section in next && 1 <= next[section] <= IterationCount(allResults, section)
    ensures var target := CurrentIteration(current, section) + direction;
            && (1 <= target <= IterationCount(allResults, section) ==> next[section] == target)
            && (target < 1 ==> next[section] == 1)
            && (target > IterationCount(allResults, section) ==> next[section] == IterationCount(allResults, section))
    ensures forall s :: s in next <==> s in current || s == section
    ensures forall s :: s in current && s != section ==> next[s] == current[s]
  {
    var max := IterationCount(allResults, section);
    var n := CurrentIteration(current, section) + direction;
    var n1 := if n < 1 then 1 else n;
    var n2 := if n1 > max then max else n1;
    current[section := n2]
  }

  /** Stepping forward and then back returns to the iteration shown before, unless the step forward
      was stopped at the last iteration. */
  lemma ForwardThenBack(current: map<string, int>, allResults: map<string, seq<ResultRecord>>, section: string)
    requires 1 <= CurrentIteration(current, section) < IterationCount(allResults, section)
    ensures ChangeIteration(ChangeIteration(current, allResults, section, 1), allResults, section, -1)[section] ==
            CurrentIteration(current, section)
  {
    var next := ChangeIteration(current, allResults, section, 1);
    assert CurrentIteration(next, section) == CurrentIteration(current, section) + 1;
  }

  /** At the last iteration a step forward changes nothing, and at the first a step back changes nothing. */
  lemma NavigationStopsAtEnds(current: map<string, int>, allResults: map<string, seq<ResultRecord>>, section: string)
    ensures CurrentIteration(current, section) == IterationCount(allResults, section) ==>
              ChangeIteration(current, allResults, section, 1)[section] == CurrentIteration(current, section)
    ensures CurrentIteration(current, section) == 1 ==>
              ChangeIteration(current, allResults, section, -1)[section] == 1
  {
  }

  /** The iteration shown after any sequence of button presses, starting from `current`. */
  function Navigate(current: map<string, int>, allResults: map<string, seq<ResultRecord>>, section: string,
                    presses: seq<int>): map<string, int>
    decreases |presses|
  {
    if presses == [] then current
    else Navigate(ChangeIteration(current, allResults, section, presses[0]), allResults, section, presses[1..])
  }

  /** After at least one press the section's iteration lies in [1, number of iterations], and the
      other sections keep theirs, however many presses there were. */
  lemma {:induction false} NavigationStaysInRange(current: map<string, int>, allResults: map<string, seq<ResultRecord>>,
                                                  section: string, presses: seq<int>)
    requires presses != []
    ensures var after := Navigate(current, allResults, section, presses);
            section in after && 1 <= after[section] <= IterationCount(allResults, section)
    ensures forall s :: s in current && s != section ==>
              s in Navigate(current, allResults, section, presses) && Navigate(current, allResults, section, presses)[s] == current[s]
    decreases |presses|
  {
    var next := ChangeIteration(current, allResults, section, presses[0]);
    if |presses| > 1 {
      NavigationStaysInRange(next, allResults, section, presses[1..]);
    }
  }

  /** `s !== section`. */
  function Other(section: string): string -> bool
  {
    (s: string) => s != section
  }

  /** toggleSection: a selected section is removed, an unselected one is appended. */
  function Toggle(selected: seq<string>, section: string): (r: seq<string>)
    ensures section in r <==> section !in selected
  {
    FilterMembership(Other(section), selected, section);
    if section in selected then Filter(Other(section), selected) else selected + [section]
  }

  /** Toggling flips the membership of the toggled section and of no other. */
  lemma ToggleFlips(selected: seq<string>, section: string, x: string)
    ensures x != section ==> (x in Toggle(selected, section) <==> x in selected)
  {
    FilterMembership(Other(section), selected, x);
  }

  /** Toggling twice restores which sections are selected; when the section was not selected it
      restores the selection exactly. */
  lemma ToggleTwice(selected: seq<string>, section: string, x: string)
    ensures x in Toggle(Toggle(selected, section), section) <==> x in selected
    ensures section !in selected ==> Toggle(Toggle(selected, section), section) == selected
  {
    ToggleFlips(selected, section, x);
    ToggleFlips(Toggle(selected, section), section, x);
    if section !in selected {
      FilterSnoc(Other(section), selected, section);
      FilterAll(Other(section), selected);
    }
  }

  /** A selection without repetitions stays without repetitions. */
  lemma ToggleKeepsDistinct(selected: seq<string>, section: string)
    requires Distinct(selected)
    ensures Distinct(Toggle(selected, section))
  {
    if section in selected {
      FilterDistinct(Other(section), selected);
    }
  }

  /** `updatedAllResults[section] || []`. */
  function Lookup(groups: map<string, seq<ResultRecord>>, section: string): seq<ResultRecord>
  {
    if section in groups then groups[section] else []
  }

  /** The first `forEach` of a merge: each section with new records gets them after its old ones, and
      is listed for highlighting. */
  method AppendGroups(allResults: map<string, seq<ResultRecord>>, newGroups: map<string, seq<ResultRecord>>,
                      newKeys: seq<string>)
    returns (updated: map<string, seq<ResultRecord>>, highlighted: seq<string>)
    requires Distinct(newKeys)
    requires forall s :: s in newKeys ==> s in newGroups
    ensures highlighted == newKeys
    ensures forall s :: s in updated <==> s in allResults || s in newKeys
    ensures forall s :: s in newKeys ==> updated[s] == Lookup(allResults, s) + newGroups[s]
    ensures forall s :: s in allResults && s !in newKeys ==> updated[s] == allResults[s]
  {
    updated := allResults;
    highlighted := [];
    var j := 0;
    while j < |newKeys|
      invariant 0 <= j <= |newKeys|
      invariant highlighted == newKeys[..j]
      invariant forall s :: s in updated <==> s in allResults || s in newKeys[..j]
      invariant forall s :: s in newKeys[..j] ==> updated[s] == Lookup(allResults, s) + newGroups[s]
      invariant forall s :: s in allResults && s !in newKeys[..j] ==> updated[s] == allResults[s]
    {
      var s := newKeys[j];
      assert newKeys[..j + 1] == newKeys[..j] + [s];
      assert s !in newKeys[..j];
      if s !in updated {
        updated := updated[s := []];
      }
      updated := updated[s := updated[s] + newGroups[s]];
      highlighted := highlighted + [s];
      j := j + 1;
    }
    assert newKeys[..j] == newKeys;
  }

  /** The second `forEach` of a merge: each section with new records shows the greatest of their
      iteration numbers. */
  method NewestIterations(currentIterations: map<string, int>, newGroups: map<string, seq<ResultRecord>>,
                          newKeys: seq<string>)
    returns (updated: map<string, int>)
    requires forall s :: s in newKeys ==> s in newGroups && newGroups[s] != []
    ensures forall s :: s in updated <==> s in currentIterations || s in newKeys
    ensures forall s :: s in newKeys ==> updated[s] == MaxIteration(newGroups[s])
    ensures forall s :: s in currentIterations && s !in newKeys ==> updated[s] == currentIterations[s]
  {
    updated := currentIterations;
    var j := 0;
    while j < |newKeys|
      invariant 0 <= j <= |newKeys|
      invariant forall s :: s in updated <==> s in currentIterations || s in newKeys[..j]
      invariant forall s :: s in newKeys[..j] ==> updated[s] == MaxIteration(newGroups[s])
      invariant forall s :: s in currentIterations && s !in newKeys[..j] ==> updated[s] == currentIterations[s]
    {
      var s := newKeys[j];
      assert newKeys[..j + 1] == newKeys[..j] + [s];
      updated := updated[s := MaxIteration(newGroups[s])];
      j := j + 1;
    }
    assert newKeys[..j] == newKeys;
  }

  /** The merge of handleGenerate and handleGenerateModifications: the new records are grouped by
      section; each such section gets them after its old ones, shows the greatest new iteration
      number and is highlighted; every other section keeps its records and its iteration. */
  method MergeResults(allResults: map<string, seq<ResultRecord>>, currentIterations: map<string, int>,
                      newResults: seq<ResultRecord>)
    returns (updatedAllResults: map<string, seq<ResultRecord>>, updatedIterations: map<string, int>,
             sectionsToHighlight: seq<string>)
    ensures sectionsToHighlight == Sections(newResults)
    ensures forall s :: s in updatedAllResults <==> s in allResults || s in Sections(newResults)
    ensures forall s :: s in Sections(newResults) ==>
              updatedAllResults[s] == Lookup(allResults, s) + SectionGroup(newResults, s)
    ensures forall s :: s in allResults && s !in Sections(newResults) ==> updatedAllResults[s] == allResults[s]
    ensures forall s :: s in updatedIterations <==> s in currentIterations || s in Sections(newResults)
    ensures forall s :: s in Sections(newResults) ==>
              SectionGroup(newResults, s) != [] && updatedIterations[s] == MaxIteration(SectionGroup(newResults, s))
    ensures forall s :: s in currentIterations && s !in Sections(newResults) ==>
              updatedIterations[s] == currentIterations[s]
  {
    var newGroups, newKeys := GroupBySection(newResults);
    forall s | s in newGroups ensures newGroups[s] != [] {
      GroupEmptyIffAbsent(newResults, s);
    }
    updatedAllResults, sectionsToHighlight := AppendGroups(allResults, newGroups, newKeys);
    updatedIterations := NewestIterations(currentIterations, newGroups, newKeys);
  }

  /** Merging a batch into the groups of a log, as LoadResults leaves them (each group a rearrangement of
      its section's records), covers the same sections as grouping the whole updated results.json, and
      each merged group holds the same records as that regrouping, though not in its order. */
  lemma MergeIsRegrouping(log: seq<ResultRecord>, allResults: map<string, seq<ResultRecord>>,
                          newResults: seq<ResultRecord>, merged: map<string, seq<ResultRecord>>, s: string)
    requires forall t :: t in allResults <==> t in Sections(log)
    requires forall t :: t in allResults ==> multiset(allResults[t]) == multiset(SectionGroup(log, t))
    requires forall t :: t in merged <==> t in allResults || t in Sections(newResults)
    requires forall t :: t in Sections(newResults) ==> merged[t] == Lookup(allResults, t) + SectionGroup(newResults, t)
    requires forall t :: t in allResults && t !in Sections(newResults) ==> merged[t] == allResults[t]
    ensures s in merged <==> s in Sections(log + newResults)
    ensures s in merged ==> multiset(merged[s]) == multiset(SectionGroup(log + newResults, s))
  {
    FilterConcat(InSection(s), log, newResults);
    GroupEmptyIffAbsent(log, s);
    GroupEmptyIffAbsent(newResults, s);
    GroupEmptyIffAbsent(log + newResults, s);
  }

  /** When every new record of a section is at least as recent as its old ones (generate.js numbers a
      section's new iteration one past its count), the iteration a merge selects is the newest of the
      whole merged group. */
  lemma NewestWinsAfterMerge(earlier: seq<ResultRecord>, added: seq<ResultRecord>)
    requires added != []
    requires forall i :: 0 <= i < |earlier| ==> earlier[i].iterationNumber <= MaxIteration(added)
    ensures MaxIteration(earlier + added) == MaxIteration(added)
  {
    var m := MaxIteration(earlier + added);
    var i :| 0 <= i < |earlier + added| && (earlier + added)[i].iterationNumber == m;
    var k :| 0 <= k < |added| && added[k].iterationNumber == MaxIteration(added);
    assert (earlier + added)[|earlier| + k] == added[k];
    if i >= |earlier| {
      assert (earlier + added)[i] == added[i - |earlier|];
    }
  }

  /** The body handleCreateWorkspace posts: the name as typed, untrimmed. */
  function CreateWorkspaceRequest(newWorkspaceName: string): (r: Option<string>)
    ensures r.None? <==> forall i :: 0 <= i < |newWorkspaceName| ==> IsJsWhitespace(newWorkspaceName[i])
    ensures r.Some? ==> r.value == newWorkspaceName
  {
    BlankIffAllWhitespace(newWorkspaceName);
    if Trim(newWorkspaceName) == "" then None else Some(newWorkspaceName)
  }

  /** The body handleGenerateModifications posts. */
  datatype ModifyRequestBody = ModifyRequestBody(sections: seq<string>, extraInstructions: string)

  /** handleGenerateModifications' guard: no request when the instructions are only whitespace;
      otherwise the selected sections and the instructions as typed. */
  function ModifyRequest(selectedSections: seq<string>, extraInstructions: string): (r: Option<ModifyRequestBody>)
    ensures r.None? <==> forall i :: 0 <= i < |extraInstructions| ==> IsJsWhitespace(extraInstructions[i])
    ensures r.Some? ==> r.value == ModifyRequestBody(selectedSections, extraInstructions)
  {
    BlankIffAllWhitespace(extraInstructions);
    if Trim(extraInstructions) == "" then None else Some(ModifyRequestBody(selectedSections, extraInstructions))
  }

  /** The colour of the icon getFileTypeIcon draws. */
  datatype IconColor = Red | Blue | Yellow | Green | Gray

  /** `fileName.split('.').pop().toLowerCase()`. */
  function FileExtension(fileName: string): (e: string)
    ensures |e| <= |fileName| && e == ToLower(fileName[|fileName| - |e|..])
    ensures forall i :: 0 <= i < |e| ==> e[i] != '.' && !('A' <= e[i] <= 'Z')
    ensures (forall i :: 0 <= i < |fileName| ==> fileName[i] != '.') ==> e == ToLower(fileName)
    ensures (exists i :: 0 <= i < |fileName| && fileName[i] == '.') ==>
      |e| < |fileName| && fileName[|fileName| - |e| - 1] == '.'
  {
    ToLower(AfterLastDot(fileName))
  }

  /** getFileTypeIcon: the icon's colour chosen by the extension. */
  function FileIconColor(fileName: string): (c: IconColor)
    ensures c == Red <==> FileExtension(fileName) == "pdf"
    ensures c == Blue <==> FileExtension(fileName) == "doc" || FileExtension(fileName) == "docx"
    ensures c == Yellow <==> FileExtension(fileName) == "jpg" || FileExtension(fileName) == "png"
    ensures c == Green <==> FileExtension(fileName) == "xlsx" || FileExtension(fileName) == "csv"
    ensures c == Gray <==> FileExtension(fileName) !in ["pdf", "doc", "docx", "jpg", "png", "xlsx", "csv"]
  {
    var extension := FileExtension(fileName);
    if extension == "pdf" then Red
    else if extension == "doc" || extension == "docx" then Blue
    else if extension == "jpg" || extension == "png" then Yellow
    else if extension == "xlsx" || extension == "csv" then Green
    else Gray
  }

  lemma ToLowerConcat(a: string, b: string)
    ensures ToLower(a + b) == ToLower(a) + ToLower(b)
  {
    assert forall i :: 0 <= i < |a + b| ==> ToLower(a + b)[i] == (ToLower(a) + ToLower(b))[i];
  }

  /** For a plain file name that path.extname gives an extension, the icon's extension is that
      extension, lower-cased, without its dot: a file ingestion treats as a PDF shows the red icon. */
  lemma IconFollowsExtname(name: string)
    requires forall i :: 0 <= i < |name| ==> name[i] != '/'
    requires Extname(name) != ""
    ensures "." + FileExtension(name) == ToLower(Extname(name))
    ensures ToLower(Extname(name)) == ".pdf" ==> FileIconColor(name) == Red
  {
    ExtnameIsDotAfterLastDot(name);
    ToLowerConcat(".", AfterLastDot(name));
    assert ToLower(".") == ".";
    if ToLower(Extname(name)) == ".pdf" {
      assert FileExtension(name) == ToLower(Extname(name))[1..];
    }
  }

  /** The two extension rules part ways on names without a proper extension: a file named "PDF"
      shows the red PDF icon although path.extname reports no extension for it. */
  lemma DotlessNameIconWithoutExtname()
    ensures FileIconColor("PDF") == Red && Extname("PDF") == ""
  {
    assert LastIndexOf("PDF", '.') == None;
    assert ToLower("PDF") == "pdf";
  }

  /** Likewise a file named ".pdf": path.extname treats the leading dot as part of the name. */
  lemma DotfileIconWithoutExtname()
    ensures FileIconColor(".pdf") == Red && Extname(".pdf") == ""
  {
    var n := ".pdf";
    assert StripTrailingSlashes(n) == n;
    assert LastIndexOf(n, '/') == None;
    assert Basename(n) == n;
    assert n[..3] == ".pd" && ".pd"[..2] == ".p" && ".p"[..1] == ".";
    assert LastIndexOf(".", '.') == Some(0);
    assert LastIndexOf(".p", '.') == Some(0);
    assert LastIndexOf(".pd", '.') == Some(0);
    assert LastIndexOf(n, '.') == Some(0);
    assert AfterLastDot(n) == "pdf";
    assert ToLower("pdf") == "pdf";
  }
}
