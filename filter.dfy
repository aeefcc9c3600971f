/**
 * The mission list filter: a case-insensitive search over mission names,
 * combined with the all / active / completed tab.
 */
module TaskFilter {
  import opened Quests
  import Identity

  datatype Tab = All | Active | Completed

  /** `includes`: `sub` occurs somewhere in `s`. */
  predicate Contains(s: string, sub: string)
    decreases |s|
  {
    sub <= s || (s != [] && Contains(s[1..], sub))
  }

  /** `sub` sits in `s` at position `i`. */
  predicate OccursAt(s: string, sub: string, i: int) {
    0 <= i <= |s| - |sub| && sub == s[i..i + |sub|]
  }

  /** A match found by Contains sits at some position. */
  lemma {:induction false} ContainsHasPosition(s: string, sub: string)
    requires Contains(s, sub)
    ensures exists i :: OccursAt(s, sub, i)
    decreases |s|
  {
    if sub <= s {
      assert OccursAt(s, sub, 0);
    } else {
      ContainsHasPosition(s[1..], sub);
      var j :| OccursAt(s[1..], sub, j);
      assert s[1..][j..j + |sub|] == s[j + 1..j + 1 + |sub|];
      assert OccursAt(s, sub, j + 1);
    }
  }

  /** An occurrence at any position is found by Contains. */
  lemma {:induction false} PositionIsContained(s: string, sub: string, i: int)
    requires OccursAt(s, sub, i)
    ensures Contains(s, sub)
    decreases i
  {
    if i == 0 {
      assert sub <= s;
    } else {
      assert s[1..][i - 1..i - 1 + |sub|] == s[i..i + |sub|];
      PositionIsContained(s[1..], sub, i - 1);
    }
  }

  /** Contains agrees with the position-based reading of `includes`. */
  lemma ContainsAt(s: string, sub: string)
    ensures Contains(s, sub) <==> exists i :: OccursAt(s, sub, i)
  {
    if Contains(s, sub) {
      ContainsHasPosition(s, sub);
    }
    if i :| OccursAt(s, sub, i) {
      PositionIsContained(s, sub, i);
    }
  }

  predicate MatchesSearch(t: Task, searchTerm: string) {
    Contains(Identity.Lower(t.doc.name), Identity.Lower(searchTerm))
  }

  predicate MatchesTab(t: Task, tab: Tab) {
    match tab
    case All => true
    case Active => !t.doc.completed
    case Completed => t.doc.completed
  }

  /** `r` keeps some of the elements of `s`, in their order. */
  predicate IsSubsequence(r: seq<Task>, s: seq<Task>)
    decreases |s|
  {
    if r == [] then true
    else if s == [] then false
    else (r[0] == s[0] && IsSubsequence(r[1..], s[1..])) || IsSubsequence(r, s[1..])
  }

  /** `filteredTasks`: the missions whose name contains the search text and that belong to the tab. */
  function FilterTasks(tasks: seq<Task>, searchTerm: string, tab: Tab): (r: seq<Task>)
    ensures IsSubsequence(r, tasks)
    ensures forall t :: t in r <==> t in tasks && MatchesSearch(t, searchTerm) && MatchesTab(t, tab)
  {
    if tasks == [] then []
    else
      var rest := FilterTasks(tasks[1..], searchTerm, tab);
      if MatchesSearch(tasks[0], searchTerm) && MatchesTab(tasks[0], tab) then [tasks[0]] + rest
      else rest
  }

  /** Every occurrence of a matching mission is kept, and no other mission is. */
  lemma {:induction false} FilterKeepsEveryMatch(tasks: seq<Task>, searchTerm: string, tab: Tab)
    ensures forall t ::
              multiset(FilterTasks(tasks, searchTerm, tab))[t]
              == if MatchesSearch(t, searchTerm) && MatchesTab(t, tab) then multiset(tasks)[t] else 0
  {
    if tasks != [] {
      FilterKeepsEveryMatch(tasks[1..], searchTerm, tab);
      var rest := FilterTasks(tasks[1..], searchTerm, tab);
      var head := if MatchesSearch(tasks[0], searchTerm) && MatchesTab(tasks[0], tab) then [tasks[0]] else [];
      assert FilterTasks(tasks, searchTerm, tab) == head + rest;
      assert tasks == [tasks[0]] + tasks[1..];
      assert multiset(tasks) == multiset{tasks[0]} + multiset(tasks[1..]);
      assert multiset(head + rest) == multiset(head) + multiset(rest);
    }
  }

  /** An empty search on the "all" tab shows the whole list. */
  lemma {:induction false} ShowAll(tasks: seq<Task>)
    ensures FilterTasks(tasks, "", All) == tasks
  {
    if tasks != [] {
      ShowAll(tasks[1..]);
      assert MatchesSearch(tasks[0], "");
    }
  }

  /** The "active" and "completed" tabs split what the "all" tab shows. */
  lemma {:induction false} TabsPartition(tasks: seq<Task>, searchTerm: string)
    ensures |FilterTasks(tasks, searchTerm, Active)| + |FilterTasks(tasks, searchTerm, Completed)|
         == |FilterTasks(tasks, searchTerm, All)|
  {
    if tasks != [] {
      TabsPartition(tasks[1..], searchTerm);
    }
  }
}
