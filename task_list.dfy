/** List logic both task pages apply to the tasks the server sent them: the local edits made
    after a delete or an update succeeds, and the page arithmetic of their pagination
    (`Array.prototype.slice` and `Math.ceil(total / perPage)`). */
module TaskList {
  import opened Util
  import opened Models

  // ----- local edits by `_id` -----

  /** `tasks.filter(task => task._id !== id)`: the local list after a delete. */
  function RemoveById(ts: seq<Task>, id: Id): (r: seq<Task>)
    ensures forall i :: 0 <= i < |r| ==> r[i].id != id && r[i] in ts
    ensures forall i :: 0 <= i < |ts| && ts[i].id != id ==> ts[i] in r
  {
    Filter(ts, (t: Task) => t.id != id)
  }

  /** `tasks.map(task => task._id === id ? updated : task)`: the local list after an update. */
  function ReplaceById(ts: seq<Task>, id: Id, updated: Task): (r: seq<Task>)
    ensures |r| == |ts|
    ensures forall i :: 0 <= i < |ts| && ts[i].id == id ==> r[i] == updated
    ensures forall i :: 0 <= i < |ts| && ts[i].id != id ==> r[i] == ts[i]
    decreases |ts|
  {
    if ts == [] then []
    else [if ts[0].id == id then updated else ts[0]] + ReplaceById(ts[1..], id, updated)
  }

  /** Deleting an id no local task has leaves the list as it is. */
  lemma RemoveAbsent(ts: seq<Task>, id: Id)
    requires forall i :: 0 <= i < |ts| ==> ts[i].id != id
    ensures RemoveById(ts, id) == ts
  {
    FilterAll(ts, (t: Task) => t.id != id);
  }

  /** A task appended after an add (with an id new to the list) and then deleted leaves the list
      as it was before the add. */
  lemma AddThenRemove(ts: seq<Task>, t: Task)
    requires forall i :: 0 <= i < |ts| ==> ts[i].id != t.id
    ensures RemoveById(ts + [t], t.id) == ts
  {
    var p := (x: Task) => x.id != t.id;
    FilterAppend(ts, [t], p);
    FilterAll(ts, p);
    assert Filter([t], p) == [];
  }

  /** An update that keeps the id touches only the entries with that id: deleting the id
      afterwards gives the same list as deleting it from the list before the update. */
  lemma {:induction false} ReplaceThenRemove(ts: seq<Task>, id: Id, updated: Task)
    requires updated.id == id
    ensures RemoveById(ReplaceById(ts, id, updated), id) == RemoveById(ts, id)
    decreases |ts|
  {
    if ts != [] {
      ReplaceThenRemove(ts[1..], id, updated);
      assert ReplaceById(ts, id, updated)[1..] == ReplaceById(ts[1..], id, updated);
    }
  }

  // ----- slicing and page arithmetic -----

  /** How `slice` reads an index: negative ones count from the end, and both are clamped to
      the list. */
  function SliceIndex(k: int, len: nat): (r: nat)
    ensures r <= len
    ensures 0 <= k <= len ==> r == k
  {
    if k < 0 then (if len + k < 0 then 0 else len + k)
    else if k > len then len
    else k
  }

  /** `xs.slice(start, end)`. */
  function Slice<T>(xs: seq<T>, start: int, end: int): (r: seq<T>)
    ensures |r| <= |xs|
  {
    var from := SliceIndex(start, |xs|);
    var to := SliceIndex(end, |xs|);
    if from < to then xs[from..to] else []
  }

  function Min(a: nat, b: nat): nat
  {
    if a <= b then a else b
  }

  /** The tasks page `page` shows: `filtered.slice(page * perPage - perPage, page * perPage)`. */
  function PageOf<T>(xs: seq<T>, page: int, perPage: nat): (r: seq<T>)
    ensures |r| <= |xs|
    ensures page == 0 ==> r == []
  {
    Slice(xs, page * perPage - perPage, page * perPage)
  }

  /** `Math.ceil(total / perPage)`. */
  function PageCount(total: nat, perPage: nat): (r: nat)
    requires perPage > 0
    ensures total <= r * perPage
    ensures r > 0 ==> (r - 1) * perPage < total
  {
    (total + perPage - 1) / perPage
  }

  /** A page numbered from 1 holds the next `perPage` tasks after the pages before it, cut off at
      the end of the list; so it holds at most `perPage` tasks. */
  lemma PageWindow<T>(xs: seq<T>, page: int, perPage: nat)
    requires page >= 1
    ensures PageOf(xs, page, perPage) ==
      xs[Min((page - 1) * perPage, |xs|)..Min(page * perPage, |xs|)]
    ensures |PageOf(xs, page, perPage)| <= perPage
  {
    var a := (page - 1) * perPage;
    MulStep(page - 1, perPage);
    assert SliceIndex(page * perPage - perPage, |xs|) == Min(a, |xs|);
    assert SliceIndex(page * perPage, |xs|) == Min(a + perPage, |xs|);
  }

  lemma MulStep(k: nat, n: nat)
    ensures k * n >= 0 && (k + 1) * n == k * n + n
  {
  }

  /** A page numbered from 1 has tasks on it exactly when it is within the page count. */
  lemma PageNonEmpty<T>(xs: seq<T>, page: int, perPage: nat)
    requires page >= 1 && perPage > 0
    ensures PageOf(xs, page, perPage) != [] <==> page <= PageCount(|xs|, perPage)
  {
    PageWindow(xs, page, perPage);
    var n := PageCount(|xs|, perPage);
    if page <= n {
      MulMonotone(page - 1, n - 1, perPage);
    } else {
      MulMonotone(n, page - 1, perPage);
    }
  }

  lemma MulMonotone(a: nat, b: nat, c: nat)
    requires a <= b
    ensures a * c <= b * c
  {
  }

  /** Pages 1 to `k`, one after the other. */
  function Pages<T>(xs: seq<T>, perPage: nat, k: nat): seq<T>
  {
    if k == 0 then [] else Pages(xs, perPage, k - 1) + PageOf(xs, k, perPage)
  }

  /** The first `k` pages together are the list's first `k * perPage` tasks. */
  lemma {:induction false} PagesArePrefix<T>(xs: seq<T>, perPage: nat, k: nat)
    ensures Pages(xs, perPage, k) == xs[..Min(k * perPage, |xs|)]
  {
    if k > 0 {
      PagesArePrefix(xs, perPage, k - 1);
      PageWindow(xs, k, perPage);
      MulStep(k - 1, perPage);
      PrefixSplit(xs, Min((k - 1) * perPage, |xs|), Min(k * perPage, |xs|));
    }
  }

  lemma PrefixSplit<T>(xs: seq<T>, a: nat, b: nat)
    requires a <= b <= |xs|
    ensures xs[..a] + xs[a..b] == xs[..b]
  {
  }

  /** Paging loses nothing and repeats nothing: all the pages in order are the whole list. */
  lemma AllPages<T>(xs: seq<T>, perPage: nat)
    requires perPage > 0
    ensures Pages(xs, perPage, PageCount(|xs|, perPage)) == xs
  {
    PagesArePrefix(xs, perPage, PageCount(|xs|, perPage));
    assert xs[..|xs|] == xs;
  }

  /** The task at position `q * perPage + r` of the list (with `r < perPage`) is the `r`-th task
      shown on page `q + 1`. */
  lemma PageOfIndex<T>(xs: seq<T>, perPage: nat, q: nat, r: nat)
    requires r < perPage && q * perPage + r < |xs|
    ensures r < |PageOf(xs, q + 1, perPage)| && PageOf(xs, q + 1, perPage)[r] == xs[q * perPage + r]
  {
    PageWindow(xs, q + 1, perPage);
    assert (q + 1) * perPage == q * perPage + perPage;
  }

  // ----- the list a page shows -----

  /** A select filter of either page: "all", or exactly (case included) the task's value. */
  predicate SelectMatches(choice: string, value: string)
    ensures choice == "all" ==> SelectMatches(choice, value)
    ensures choice != "all" ==> (SelectMatches(choice, value) <==> value == choice)
  {
    choice == "all" || value == choice
  }

  /** What a task page holds about its list: the tasks the server sent, the ones its filter keeps,
      and the page being shown. */
  datatype ListView = ListView(tasks: seq<Task>, filtered: seq<Task>, currentPage: int)

  /** The effect that runs whenever the tasks or the filters change: it recomputes the kept tasks
      with the page's predicate `keep` and goes back to page 1. */
  function Refilter(v: ListView, keep: Task -> bool): (r: ListView)
    ensures r.tasks == v.tasks && r.currentPage == 1
    ensures forall i :: 0 <= i < |r.filtered| ==> keep(r.filtered[i]) && r.filtered[i] in v.tasks
    ensures forall i :: 0 <= i < |v.tasks| && keep(v.tasks[i]) ==> v.tasks[i] in r.filtered
  {
    ListView(v.tasks, Filter(v.tasks, keep), 1)
  }

  /** `currentTasks`: the slice of the kept tasks on the current page. */
  function Shown(v: ListView, perPage: nat): seq<Task>
  {
    PageOf(v.filtered, v.currentPage, perPage)
  }

  /** Right after a refilter the page shows the first `perPage` kept tasks, in list order. */
  lemma RefilterShowsFirstPage(v: ListView, keep: Task -> bool, perPage: nat)
    ensures var kept := Filter(v.tasks, keep);
      Shown(Refilter(v, keep), perPage) == kept[..Min(perPage, |kept|)]
  {
    PageWindow(Filter(v.tasks, keep), 1, perPage);
  }
}
