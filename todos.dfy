/** The todo records, the three list filters, the computed values of the list
    container (remaining, allDone) and the pure list rewrites it performs
    (removeTodo, clearCompletedTodo, the allDone setter, storage renumbering),
    together with the invariant that ids are distinct and below the counter. */
module Todos {

  datatype Todo = Todo(id: int, text: string, completed: bool)

  /** The filter selected by the tabs; the list starts at All. */
  datatype Visibility = All | Active | Completed

  predicate IsActive(t: Todo) { !t.completed }

  predicate IsCompleted(t: Todo) { t.completed }

  // ---------------------------------------------------------------------
  // Array.prototype.filter

  /** The elements of `s` that satisfy `keep`, in their original order. */
  function Where(s: seq<Todo>, keep: Todo -> bool): (r: seq<Todo>)
    ensures |r| <= |s|
    ensures forall i | 0 <= i < |r| :: keep(r[i])
  {
    if s == [] then []
    else if keep(s[0]) then [s[0]] + Where(s[1..], keep)
    else Where(s[1..], keep)
  }

  /** `a` is `b` with some elements taken out and the rest in their order. */
  predicate IsSubsequence(a: seq<Todo>, b: seq<Todo>)
    decreases |b|
  {
    if a == [] then true
    else if b == [] then false
    else (a[0] == b[0] && IsSubsequence(a[1..], b[1..])) || IsSubsequence(a, b[1..])
  }

  lemma {:induction false} WhereIsSubsequence(s: seq<Todo>, keep: Todo -> bool)
    ensures IsSubsequence(Where(s, keep), s)
  {
    if s != [] {
      WhereIsSubsequence(s[1..], keep);
      var w := Where(s[1..], keep);
      if keep(s[0]) {
        assert ([s[0]] + w)[1..] == w;
      }
    }
  }

  /** Filtering keeps exactly the elements that satisfy the predicate. */
  lemma {:induction false} WhereMembers(s: seq<Todo>, keep: Todo -> bool, t: Todo)
    ensures t in Where(s, keep) <==> t in s && keep(t)
  {
    if s != [] {
      WhereMembers(s[1..], keep, t);
      assert s == [s[0]] + s[1..];
    }
  }

  lemma {:induction false} WhereConcat(a: seq<Todo>, b: seq<Todo>, keep: Todo -> bool)
    ensures Where(a + b, keep) == Where(a, keep) + Where(b, keep)
  {
    if a == [] {
      assert a + b == b;
    } else {
      assert (a + b)[1..] == a[1..] + b;
      WhereConcat(a[1..], b, keep);
    }
  }

  /** Filtering a list all of whose elements pass returns it unchanged. */
  lemma {:induction false} WhereKeepsAll(s: seq<Todo>, keep: Todo -> bool)
    requires forall i | 0 <= i < |s| :: keep(s[i])
    ensures Where(s, keep) == s
  {
    if s != [] {
      WhereKeepsAll(s[1..], keep);
      assert s == [s[0]] + s[1..];
    }
  }

  /** Filtering a list none of whose elements pass returns the empty list. */
  lemma {:induction false} WhereDropsAll(s: seq<Todo>, keep: Todo -> bool)
    requires forall i | 0 <= i < |s| :: !keep(s[i])
    ensures Where(s, keep) == []
  {
    if s != [] {
      WhereDropsAll(s[1..], keep);
    }
  }

  // ---------------------------------------------------------------------
  // filters (js/main.js:16-26) and the filteredTodos computed value

  /** filters.all: the identity. */
  function FilterAll(s: seq<Todo>): (r: seq<Todo>)
    ensures r == s
  {
    s
  }

  /** filters.active: the todos that are not completed. */
  function FilterActive(s: seq<Todo>): (r: seq<Todo>)
    ensures forall i | 0 <= i < |r| :: !r[i].completed
  {
    Where(s, IsActive)
  }

  /** filters.completed: the todos that are completed. */
  function FilterCompleted(s: seq<Todo>): (r: seq<Todo>)
    ensures forall i | 0 <= i < |r| :: r[i].completed
  {
    Where(s, IsCompleted)
  }

  /** filteredTodos: the list as the selected tab shows it. */
  function Filtered(v: Visibility, s: seq<Todo>): (r: seq<Todo>)
    ensures IsSubsequence(r, s)
    ensures v == All ==> r == s
    ensures forall t :: t in r <==> t in s && Shown(v, t)
  {
    match v
    case All => AllIsSubsequence(s); FilterAll(s)
    case Active => WhereIsSubsequence(s, IsActive); FilterShowsTab(s, v); FilterActive(s)
    case Completed => WhereIsSubsequence(s, IsCompleted); FilterShowsTab(s, v); FilterCompleted(s)
  }

  /** The tab `v` shows todo `t`: every todo on All, the open ones on Active,
      the completed ones on Completed. */
  predicate Shown(v: Visibility, t: Todo) {
    (v == Active ==> !t.completed) && (v == Completed ==> t.completed)
  }

  lemma FilterShowsTab(s: seq<Todo>, v: Visibility)
    requires v != All
    ensures forall t :: t in (if v == Active then FilterActive(s) else FilterCompleted(s)) <==> t in s && Shown(v, t)
  {
    forall t ensures t in (if v == Active then FilterActive(s) else FilterCompleted(s)) <==> t in s && Shown(v, t) {
      FilterMembers(s, t);
    }
  }

  lemma {:induction false} AllIsSubsequence(s: seq<Todo>)
    ensures IsSubsequence(s, s)
  {
    if s != [] {
      AllIsSubsequence(s[1..]);
    }
  }

  /** active and completed split the list: each keeps the original order,
      together they hold every todo exactly once. */
  lemma {:induction false} FiltersPartition(s: seq<Todo>)
    ensures IsSubsequence(FilterActive(s), s) && IsSubsequence(FilterCompleted(s), s)
    ensures |FilterActive(s)| + |FilterCompleted(s)| == |s|
    ensures multiset(FilterActive(s)) + multiset(FilterCompleted(s)) == multiset(s)
  {
    WhereIsSubsequence(s, IsActive);
    WhereIsSubsequence(s, IsCompleted);
    FiltersSplitCount(s);
  }

  lemma {:induction false} FiltersSplitCount(s: seq<Todo>)
    ensures |FilterActive(s)| + |FilterCompleted(s)| == |s|
    ensures multiset(FilterActive(s)) + multiset(FilterCompleted(s)) == multiset(s)
  {
    if s != [] {
      var t, rest := s[0], s[1..];
      FiltersSplitCount(rest);
      assert s == [t] + rest;
      if t.completed {
        assert FilterActive(s) == FilterActive(rest);
        assert FilterCompleted(s) == [t] + FilterCompleted(rest);
      } else {
        assert FilterActive(s) == [t] + FilterActive(rest);
        assert FilterCompleted(s) == FilterCompleted(rest);
      }
    }
  }

  /** A todo passes active exactly when it is in the list and not completed,
      and completed exactly when it is in the list and completed. */
  lemma FilterMembers(s: seq<Todo>, t: Todo)
    ensures t in FilterActive(s) <==> t in s && !t.completed
    ensures t in FilterCompleted(s) <==> t in s && t.completed
  {
    WhereMembers(s, IsActive, t);
    WhereMembers(s, IsCompleted, t);
  }

  /** Nothing that active lets through passes completed. */
  lemma ActiveThenCompletedIsEmpty(s: seq<Todo>)
    ensures FilterCompleted(FilterActive(s)) == []
  {
    WhereDropsAll(FilterActive(s), IsCompleted);
  }

  /** active is idempotent, so clearCompletedTodo twice equals once. */
  lemma ActiveIdempotent(s: seq<Todo>)
    ensures FilterActive(FilterActive(s)) == FilterActive(s)
  {
    WhereKeepsAll(FilterActive(s), IsActive);
  }

  // ---------------------------------------------------------------------
  // remaining and allDone (js/main.js:174-186)

  /** remaining: the length of the active list. */
  function Remaining(s: seq<Todo>): nat {
    |FilterActive(s)|
  }

  /** Reference count of the todos that are not completed, taken from the back. */
  function CountIncomplete(s: seq<Todo>): nat {
    if s == [] then 0
    else CountIncomplete(s[..|s| - 1]) + (if s[|s| - 1].completed then 0 else 1)
  }

  lemma {:induction false} RemainingCountsIncomplete(s: seq<Todo>)
    ensures Remaining(s) == CountIncomplete(s)
  {
    if s != [] {
      var init, last := s[..|s| - 1], s[|s| - 1];
      assert s == init + [last];
      WhereConcat(init, [last], IsActive);
      RemainingCountsIncomplete(init);
    }
  }

  /** allDone (getter): no todo remains. */
  function AllDone(s: seq<Todo>): bool {
    Remaining(s) == 0
  }

  /** allDone reads true exactly when every todo is completed. */
  lemma AllDoneIff(s: seq<Todo>)
    ensures AllDone(s) <==> forall i | 0 <= i < |s| :: s[i].completed
  {
    if forall i | 0 <= i < |s| :: s[i].completed {
      WhereDropsAll(s, IsActive);
    } else {
      var i :| 0 <= i < |s| && !s[i].completed;
      WhereMembers(s, IsActive, s[i]);
    }
  }

  /** The list after the allDone setter: every flag set to `v`. */
  function WithCompleted(s: seq<Todo>, v: bool): (r: seq<Todo>)
    ensures |r| == |s|
    ensures forall i | 0 <= i < |s| :: r[i] == Todo(s[i].id, s[i].text, v)
  {
    seq(|s|, i requires 0 <= i < |s| => s[i].(completed := v))
  }

  /** After writing allDone := v, remaining is 0 when v is true and the whole
      length when v is false, so allDone reads back v on any non-empty list. */
  lemma SetAllDoneReadsBack(s: seq<Todo>, v: bool)
    ensures Remaining(WithCompleted(s, v)) == if v then 0 else |s|
    ensures AllDone(WithCompleted(s, v)) == (v || s == [])
  {
    var r := WithCompleted(s, v);
    if v {
      WhereDropsAll(r, IsActive);
    } else {
      WhereKeepsAll(r, IsActive);
    }
  }

  /** The checkbox bound to todo.completed: flip the flag of the i-th todo. */
  function Toggled(s: seq<Todo>, i: nat): (r: seq<Todo>)
    requires i < |s|
    ensures |r| == |s| && r[i].completed != s[i].completed
    ensures r[i].id == s[i].id && r[i].text == s[i].text
    ensures forall j | 0 <= j < |s| && j != i :: r[j] == s[j]
  {
    s[i := s[i].(completed := !s[i].completed)]
  }

  /** Toggling twice returns the list to what it was. */
  lemma ToggleTwice(s: seq<Todo>, i: nat)
    requires i < |s|
    ensures Toggled(Toggled(s, i), i) == s
  {
  }

  /** Toggling one todo moves remaining by exactly one. */
  lemma {:induction false} ToggleRemaining(s: seq<Todo>, i: nat)
    requires i < |s|
    ensures Remaining(Toggled(s, i)) == if s[i].completed then Remaining(s) + 1 else Remaining(s) - 1
  {
    var r := Toggled(s, i);
    assert s == s[..i] + [s[i]] + s[i + 1..];
    assert r == s[..i] + [r[i]] + s[i + 1..];
    WhereConcat(s[..i] + [s[i]], s[i + 1..], IsActive);
    WhereConcat(s[..i], [s[i]], IsActive);
    WhereConcat(s[..i] + [r[i]], s[i + 1..], IsActive);
    WhereConcat(s[..i], [r[i]], IsActive);
  }

  // ---------------------------------------------------------------------
  // removeTodo and clearCompletedTodo (js/main.js:200-202, 214-216)

  /** The filter predicate of removeTodo(id): the todo carries another id. */
  function OtherId(id: int): Todo -> bool {
    (t: Todo) => t.id != id
  }

  /** The list after removeTodo(id). */
  function RemoveById(s: seq<Todo>, id: int): (r: seq<Todo>)
    ensures forall i | 0 <= i < |r| :: r[i].id != id
  {
    Where(s, OtherId(id))
  }

  function CountWithId(s: seq<Todo>, id: int): nat {
    if s == [] then 0 else (if s[0].id == id then 1 else 0) + CountWithId(s[1..], id)
  }

  /** removeTodo drops exactly the todos that carry the id: what stays is in
      order, every other todo stays, and the length shrinks by their number. */
  lemma {:induction false} RemoveByIdDropsExactly(s: seq<Todo>, id: int)
    ensures IsSubsequence(RemoveById(s, id), s)
    ensures forall t :: t in RemoveById(s, id) <==> t in s && t.id != id
    ensures |RemoveById(s, id)| == |s| - CountWithId(s, id)
  {
    var keep := OtherId(id);
    WhereIsSubsequence(s, keep);
    forall t ensures t in RemoveById(s, id) <==> t in s && t.id != id {
      WhereMembers(s, keep, t);
    }
    if s != [] {
      RemoveByIdDropsExactly(s[1..], id);
    }
  }

  /** Removing an id that no todo carries changes nothing. */
  lemma RemoveAbsentId(s: seq<Todo>, id: int)
    requires forall i | 0 <= i < |s| :: s[i].id != id
    ensures RemoveById(s, id) == s
  {
    WhereKeepsAll(s, OtherId(id));
  }

  /** After clearCompletedTodo every todo that is left remains. */
  lemma ClearCompletedLeavesRemaining(s: seq<Todo>)
    ensures Remaining(FilterActive(s)) == |FilterActive(s)|
    ensures FilterCompleted(FilterActive(s)) == []
  {
    ActiveIdempotent(s);
    ActiveThenCompletedIsEmpty(s);
  }

  // ---------------------------------------------------------------------
  // todoStorage.fetch renumbering (js/main.js:5-10)

  /** The loaded list with every id replaced by the todo's position. */
  function Renumbered(s: seq<Todo>): (r: seq<Todo>)
    ensures |r| == |s|
    ensures forall i | 0 <= i < |s| :: r[i] == Todo(i, s[i].text, s[i].completed)
  {
    seq(|s|, i requires 0 <= i < |s| => s[i].(id := i))
  }

  /** Loading a freshly loaded list again changes nothing. */
  lemma RenumberedIdempotent(s: seq<Todo>)
    ensures Renumbered(Renumbered(s)) == Renumbered(s)
  {
  }

  // ---------------------------------------------------------------------
  // The id invariant: distinct and below the counter todoStorage.uid

  predicate IdsBelow(s: seq<Todo>, uid: int) {
    forall i | 0 <= i < |s| :: s[i].id < uid
  }

  predicate IdsDistinct(s: seq<Todo>) {
    forall i, j | 0 <= i < j < |s| :: s[i].id != s[j].id
  }

  predicate IdsValid(s: seq<Todo>, uid: int) {
    IdsBelow(s, uid) && IdsDistinct(s)
  }

  /** A freshly loaded list satisfies the invariant with uid set to its length. */
  lemma RenumberedIdsValid(s: seq<Todo>)
    ensures IdsValid(Renumbered(s), |s|)
  {
  }

  /** Prepending a todo that carries the counter and bumping the counter keeps
      the invariant. */
  lemma PrependFreshKeepsIds(s: seq<Todo>, uid: int, text: string)
    requires IdsValid(s, uid)
    ensures IdsValid([Todo(uid, text, false)] + s, uid + 1)
  {
  }

  predicate NoId(s: seq<Todo>, id: int) {
    forall i | 0 <= i < |s| :: s[i].id != id
  }

  /** A filtered list carries no id that the list did not carry. */
  lemma {:induction false} WhereKeepsNoId(s: seq<Todo>, keep: Todo -> bool, id: int)
    requires NoId(s, id)
    ensures NoId(Where(s, keep), id)
  {
    if s != [] {
      WhereKeepsNoId(s[1..], keep, id);
    }
  }

  /** Filtering keeps the invariant. */
  lemma {:induction false} WhereKeepsIds(s: seq<Todo>, uid: int, keep: Todo -> bool)
    requires IdsValid(s, uid)
    ensures IdsValid(Where(s, keep), uid)
  {
    if s != [] {
      var t, rest := s[0], s[1..];
      assert IdsValid(rest, uid);
      WhereKeepsIds(rest, uid, keep);
      if keep(t) {
        var w := Where(rest, keep);
        assert NoId(rest, t.id) by {
          forall j | 0 <= j < |rest| ensures rest[j].id != t.id {
            assert rest[j] == s[j + 1];
          }
        }
        WhereKeepsNoId(rest, keep, t.id);
        var r := [t] + w;
        forall i, j | 0 <= i < j < |r| ensures r[i].id != r[j].id {
          assert r[j] == w[j - 1];
        }
      }
    }
  }

  /** Rewriting the fields other than id of every todo keeps the invariant. */
  lemma SameIdsKeepIds(s: seq<Todo>, r: seq<Todo>, uid: int)
    requires IdsValid(s, uid)
    requires |r| == |s| && forall i | 0 <= i < |s| :: r[i].id == s[i].id
    ensures IdsValid(r, uid)
  {
  }

  /** Prepending a new todo adds one to remaining. */
  lemma PrependRemaining(s: seq<Todo>, t: Todo)
    requires !t.completed
    ensures Remaining([t] + s) == Remaining(s) + 1
  {
  }

  // ---------------------------------------------------------------------
  // pluralize (js/main.js:118-120)

  /** The unit after the remaining count: "item" for exactly one, else "items". */
  function Pluralize(n: int): (r: string)
    ensures n == 1 ==> r == "item"
    ensures n != 1 ==> r == "items"
  {
    if n == 1 then "item" else "items"
  }
}
