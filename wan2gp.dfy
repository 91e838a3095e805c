/** The small stateful helpers of the video-generator plugin
    (plugins/wan2gp/main.py): the capture stack of the stand-in UI module,
    the projection of the generation queue into table rows, the removal and
    the move of queue rows, and the choice of generation modes. */
module Wan2gp {
  import opened Strings

  // ---------------------------------------------------------------------
  // The capture stack of `MockGradioModule`

  /** A UI component, known by its identity. */
  type Component = nat

  /** `MockGradioModule`: while capturing, opened containers are stacked,
      and every component created is attached to the innermost open one, or
      becomes a root when none is open. `children` holds each component's
      `children` list. */
  class MockGradio {
    var stack: seq<Component>
    var roots: seq<Component>
    var capturing: bool
    var children: map<Component, seq<Component>>

    /** The `children` list of a component (empty until something is
        attached). */
    function ChildrenOf(x: Component): seq<Component>
      reads this
    {
      if x in children then children[x] else []
    }

    /** The open containers form a path down the captured tree: the outermost
        is a root and each is a child of the one that encloses it. */
    predicate StackIsPath()
      reads this
    {
      && (stack != [] ==> stack[0] in roots)
      && (forall i :: 0 <= i < |stack| - 1 ==> stack[i + 1] in ChildrenOf(stack[i]))
    }

    /** A module that is not capturing, with nothing open. */
    constructor()
      ensures stack == [] && roots == [] && !capturing && children == map[]
      ensures StackIsPath()
    {
      stack := [];
      roots := [];
      capturing := false;
      children := map[];
    }

    /** `start_capture`: nothing open, no roots, capturing. */
    method StartCapture()
      modifies this
      ensures stack == [] && roots == [] && capturing && children == old(children)
      ensures StackIsPath()
    {
      stack := [];
      roots := [];
      capturing := true;
    }

    /** `stop_capture`: capturing ends and the roots are handed back. */
    method StopCapture() returns (r: seq<Component>)
      modifies this
      ensures r == roots && !capturing
      ensures stack == old(stack) && roots == old(roots) && children == old(children)
    {
      capturing := false;
      r := roots;
    }

    /** `_push_context` (a container's `__enter__`): while capturing, the
        component is attached to the innermost open container, or made a
        root, and then opened itself; otherwise nothing happens. */
    method Push(x: Component)
      modifies this
      ensures !old(capturing) ==> stack == old(stack) && roots == old(roots) && children == old(children)
      ensures old(capturing) ==> stack == old(stack) + [x]
      ensures old(capturing) && old(stack) == [] ==> roots == old(roots) + [x] && children == old(children)
      ensures old(capturing) && old(stack) != [] ==>
        (roots == old(roots) && children == old(children)[old(stack)[|old(stack)| - 1] := old(ChildrenOf(stack[|stack| - 1])) + [x]])
      ensures capturing == old(capturing)
      ensures old(StackIsPath()) ==> StackIsPath()
    {
      if !capturing {
        return;
      }
      if stack != [] {
        var top := stack[|stack| - 1];
        children := children[top := ChildrenOf(top) + [x]];
      } else {
        roots := roots + [x];
      }
      stack := stack + [x];
    }

    /** `_pop_context` (a container's `__exit__`): while capturing, the
        innermost open container is closed, if any. */
    method Pop()
      modifies this
      ensures capturing && old(stack) != [] ==> stack == old(stack)[..|old(stack)| - 1]
      ensures !(capturing && old(stack) != []) ==> stack == old(stack)
      ensures roots == old(roots) && children == old(children) && capturing == old(capturing)
      ensures old(StackIsPath()) ==> StackIsPath()
    {
      if !capturing {
        return;
      }
      if stack != [] {
        stack := stack[..|stack| - 1];
      }
    }

    /** `_register_component`: while capturing, the component is attached to
        the innermost open container, if any (with none open it is recorded
        nowhere); the component itself is returned. */
    method Register(x: Component) returns (r: Component)
      modifies this
      ensures r == x
      ensures stack == old(stack) && roots == old(roots) && capturing == old(capturing)
      ensures capturing && stack != [] ==> children == old(children)[stack[|stack| - 1] := old(ChildrenOf(stack[|stack| - 1])) + [x]]
      ensures !(capturing && stack != []) ==> children == old(children)
      ensures old(StackIsPath()) ==> StackIsPath()
    {
      if capturing && stack != [] {
        var top := stack[|stack| - 1];
        children := children[top := ChildrenOf(top) + [x]];
      }
      return x;
    }
  }

  // ---------------------------------------------------------------------
  // The queue table

  /** A value stored in a queue item. */
  datatype Value = Str(s: string) | Int(i: int)

  /** `str(v)`. */
  function ToStr(v: Value): (s: string)
    ensures v.Str? ==> s == v.s
  {
    match v
    case Str(s) => s
    case Int(i) => IntToString(i)
  }

  /** A queued generation task: the four keys the table shows, each of which
      may be missing. */
  datatype Item = Item(repeats: Option<Value>, prompt: Option<Value>, length: Option<Value>, steps: Option<Value>)

  /** `item.get(key, default)`. */
  function Get(v: Option<Value>, default: string): (r: Value)
    ensures v.None? ==> r == Str(default)
    ensures v.Some? ==> r == v.value
  {
    if v.Some? then v.value else Str(default)
  }

  /** One table row: the repeats (default "1"), the prompt as stored
      (default "", not passed through `str`), and the length and the steps
      (default "") as text. */
  function Row(item: Item): (r: seq<Value>)
    ensures |r| == 4 && r[0].Str? && r[2].Str? && r[3].Str?
    ensures item.repeats.None? ==> r[0] == Str("1")
    ensures item.repeats.Some? ==> r[0] == Str(ToStr(item.repeats.value))
    ensures item.prompt.None? ==> r[1] == Str("")
    ensures item.prompt.Some? ==> r[1] == item.prompt.value
    ensures item.length.None? ==> r[2] == Str("")
    ensures item.steps.None? ==> r[3] == Str("")
  {
    [Str(ToStr(Get(item.repeats, "1"))), Get(item.prompt, ""), Str(ToStr(Get(item.length, ""))), Str(ToStr(Get(item.steps, "")))]
  }

  /** `_get_queue_data_for_table`: no rows for a queue of at most one task
      (the first is the one running); otherwise one row per task after the
      first, in queue order. */
  method QueueTable(queue: seq<Item>) returns (data: seq<seq<Value>>)
    ensures |queue| <= 1 ==> data == []
    ensures |queue| > 1 ==> |data| == |queue| - 1
    ensures forall i :: 0 <= i < |data| ==> data[i] == Row(queue[i + 1])
  {
    data := [];
    if |queue| <= 1 {
      return;
    }
    for i := 1 to |queue|
      invariant |data| == i - 1
      invariant forall j :: 0 <= j < |data| ==> data[j] == Row(queue[j + 1])
    {
      data := data + [Row(queue[i])];
    }
  }

  // ---------------------------------------------------------------------
  // Removing queue rows

  /** Every later element is no larger. */
  predicate Descending(s: seq<int>)
  {
    forall i, j :: 0 <= i < j < |s| ==> s[i] >= s[j]
  }

  /** Every later element is smaller. */
  predicate StrictlyDescending(s: seq<int>)
  {
    forall i, j :: 0 <= i < j < |s| ==> s[i] > s[j]
  }

  /** No element occurs twice. */
  predicate Distinct(s: seq<int>)
  {
    forall i, j :: 0 <= i < j < |s| ==> s[i] != s[j]
  }

  /** `x` placed after every element that is larger. */
  function InsertDesc(s: seq<int>, x: int): (r: seq<int>)
    ensures multiset(r) == multiset(s) + multiset{x}
    ensures |r| == |s| + 1 && r[0] == (if s == [] || s[0] <= x then x else s[0])
    decreases |s|
  {
    if s == [] || s[0] <= x then [x] + s
    else
      assert s == [s[0]] + s[1..];
      [s[0]] + InsertDesc(s[1..], x)
  }

  /** Inserting into a descending list keeps it descending. */
  lemma {:induction false} InsertDescSorted(s: seq<int>, x: int)
    requires Descending(s)
    ensures Descending(InsertDesc(s, x))
    decreases |s|
  {
    if s != [] && s[0] > x {
      var tail := InsertDesc(s[1..], x);
      InsertDescSorted(s[1..], x);
      var r := [s[0]] + tail;
      assert InsertDesc(s, x) == r;
      assert tail[0] <= s[0];
      forall i, j | 0 <= i < j < |r|
        ensures r[i] >= r[j]
      {
        if i == 0 {
          assert r[j] == tail[j - 1] <= tail[0];
        } else {
          assert r[i] == tail[i - 1] && r[j] == tail[j - 1];
        }
      }
    }
  }

  /** `sorted(xs, reverse=True)`. */
  function SortDesc(s: seq<int>): (r: seq<int>)
    ensures multiset(r) == multiset(s)
    ensures Descending(r)
    decreases |s|
  {
    if s == [] then []
    else
      assert s == s[..|s| - 1] + [s[|s| - 1]];
      InsertDescSorted(SortDesc(s[..|s| - 1]), s[|s| - 1]);
      InsertDesc(SortDesc(s[..|s| - 1]), s[|s| - 1])
  }

  /** `[idx + offset for idx in row_indices]`. */
  function ShiftBy(rows: seq<int>, offset: int): (r: seq<int>)
    ensures |r| == |rows| && forall i :: 0 <= i < |rows| ==> r[i] == rows[i] + offset
  {
    seq(|rows|, i requires 0 <= i < |rows| => rows[i] + offset)
  }

  /** The list without position `i`, as `pop(i)` leaves it. */
  function Without<T>(q: seq<T>, i: nat): (r: seq<T>)
    requires i < |q|
    ensures |r| == |q| - 1
    ensures forall j :: 0 <= j < i ==> r[j] == q[j]
    ensures forall j :: i <= j < |r| ==> r[j] == q[j + 1]
  {
    q[..i] + q[i + 1..]
  }

  /** The pops of `_remove_queue_rows`, in the order given: an index outside
      `0 < i < len(queue)` at its turn is passed over, so the running task at
      position 0 is never removed. */
  function PopAll<T>(q: seq<T>, ds: seq<int>): seq<T>
    decreases |ds|
  {
    if ds == [] then q
    else if 0 < ds[0] < |q| then PopAll(Without(q, ds[0]), ds[1..])
    else PopAll(q, ds[1..])
  }

  /** The reference meaning of a removal: the list with the positions in `s`
      left out, positions counted from `base`, the rest in order. */
  function Drop<T>(q: seq<T>, s: set<int>, base: int): (r: seq<T>)
    ensures |r| <= |q|
    decreases |q|
  {
    if q == [] then []
    else (if base in s then [] else [q[0]]) + Drop(q[1..], s, base + 1)
  }

  /** Dropping from a concatenation drops from each part. */
  lemma {:induction false} DropAppend<T>(a: seq<T>, b: seq<T>, s: set<int>, base: int)
    ensures Drop(a + b, s, base) == Drop(a, s, base) + Drop(b, s, base + |a|)
    decreases |a|
  {
    if a == [] {
      assert a + b == b;
    } else {
      assert (a + b)[0] == a[0];
      assert (a + b)[1..] == a[1..] + b;
      DropAppend(a[1..], b, s, base + 1);
    }
  }

  /** Dropping positions the list does not reach drops nothing. */
  lemma {:induction false} DropNone<T>(a: seq<T>, s: set<int>, base: int)
    requires forall i :: i in s ==> i < base || i >= base + |a|
    ensures Drop(a, s, base) == a
    decreases |a|
  {
    if a != [] {
      DropNone(a[1..], s, base + 1);
    }
  }

  /** Only the positions the list reaches matter. */
  lemma {:induction false} DropAgree<T>(a: seq<T>, s: set<int>, t: set<int>, base: int)
    requires forall i :: base <= i < base + |a| ==> (i in s <==> i in t)
    ensures Drop(a, s, base) == Drop(a, t, base)
    decreases |a|
  {
    if a != [] {
      DropAgree(a[1..], s, t, base + 1);
    }
  }

  /** Popping `d` and then dropping positions below it. */
  lemma {:induction false} DropAfterPop<T>(q: seq<T>, d: int, s: set<int>)
    requires 0 < d < |q|
    requires forall i :: i in s ==> i < d
    ensures Drop(Without(q, d), s, 0) == Drop(q[..d], s, 0) + q[d + 1..]
  {
    var a, b := q[..d], q[d + 1..];
    assert Without(q, d) == a + b;
    DropAppend(a, b, s, 0);
    DropNone(b, s, d);
  }

  /** Dropping `d` along with positions below it. */
  lemma {:induction false} DropWithTop<T>(q: seq<T>, d: int, s: set<int>)
    requires 0 < d < |q|
    requires forall i :: i in s ==> i < d
    ensures Drop(q, s + {d}, 0) == Drop(q[..d], s, 0) + q[d + 1..]
  {
    var a, b := q[..d], q[d + 1..];
    assert q == a + ([q[d]] + b);
    DropAppend(a, [q[d]] + b, s + {d}, 0);
    DropAgree(a, s, s + {d}, 0);
    DropAppend([q[d]], b, s + {d}, d);
    DropNone(b, s + {d}, d + 1);
    assert Drop([q[d]], s + {d}, d) == [];
    assert [] + b == b;
  }

  /** Popping position `d` first, when every other position to drop lies
      below it, is dropping `d` along with them. */
  lemma {:induction false} PopThenDrop<T>(q: seq<T>, d: int, s: set<int>)
    requires 0 < d < |q|
    requires forall i :: i in s ==> i < d
    ensures Drop(Without(q, d), s, 0) == Drop(q, s + {d}, 0)
  {
    DropAfterPop(q, d, s);
    DropWithTop(q, d, s);
  }

  /** The positions of `ds` that lie strictly inside `0 < i < n`. */
  function Inside(ds: seq<int>, n: int): set<int>
  {
    set i | i in ds && 0 < i < n
  }

  /** Popping a strictly descending list of positions is dropping those
      positions that are inside the list: the largest goes first, so each
      pop leaves the positions still to come where they were. */
  lemma {:induction false} PopAllDrops<T>(q: seq<T>, ds: seq<int>)
    requires StrictlyDescending(ds)
    ensures PopAll(q, ds) == Drop(q, Inside(ds, |q|), 0)
    decreases |ds|
  {
    if ds == [] {
      DropNone(q, {}, 0);
      assert Inside(ds, |q|) == {};
    } else {
      var d, rest := ds[0], ds[1..];
      assert forall i :: i in rest ==> i < d;
      if 0 < d < |q| {
        PopAllDrops(Without(q, d), rest);
        assert Inside(rest, |q| - 1) == Inside(rest, |q|);
        PopThenDrop(q, d, Inside(rest, |q|));
        assert Inside(ds, |q|) == Inside(rest, |q|) + {d};
      } else {
        PopAllDrops(q, rest);
        assert Inside(ds, |q|) == Inside(rest, |q|);
      }
    }
  }

  /** A list without duplicates has every element at most once. */
  lemma {:induction false} DistinctCounts(s: seq<int>)
    requires Distinct(s)
    ensures forall x :: multiset(s)[x] <= 1
    decreases |s|
  {
    if s != [] {
      var init := s[..|s| - 1];
      assert s == init + [s[|s| - 1]];
      DistinctCounts(init);
      assert s[|s| - 1] !in init;
    }
  }

  /** Two equal elements of a list count twice in its multiset. */
  lemma {:induction false} TwiceCounted(s: seq<int>, i: int, j: int)
    requires 0 <= i < j < |s| && s[i] == s[j]
    ensures multiset(s)[s[i]] >= 2
  {
    var a, b := s[..j], s[j..];
    assert s == a + b;
    assert s[i] in a;
    assert b == [s[j]] + b[1..];
  }

  /** Sorting distinct positions in descending order gives a strictly
      descending list. */
  lemma {:induction false} SortDistinct(s: seq<int>)
    requires Distinct(s)
    ensures StrictlyDescending(SortDesc(s))
  {
    var r := SortDesc(s);
    DistinctCounts(s);
    forall i, j | 0 <= i < j < |r|
      ensures r[i] > r[j]
    {
      if r[i] == r[j] {
        TwiceCounted(r, i, j);
      }
    }
  }

  /** Removing distinct rows removes exactly the queue positions they name
      (shifted by the offset) that lie inside `0 < i < len(queue)`, and
      keeps every other task in order. */
  lemma {:induction false} RemoveRowsDrops<T>(q: seq<T>, rows: seq<int>, offset: int)
    requires Distinct(rows)
    ensures PopAll(q, SortDesc(ShiftBy(rows, offset))) == Drop(q, Inside(ShiftBy(rows, offset), |q|), 0)
  {
    var shifted := ShiftBy(rows, offset);
    forall i, j | 0 <= i < j < |shifted|
      ensures shifted[i] != shifted[j]
    {
    }
    SortDistinct(shifted);
    PopAllDrops(q, SortDesc(shifted));
    assert Inside(SortDesc(shifted), |q|) == Inside(shifted, |q|) by {
      forall x
        ensures x in SortDesc(shifted) <==> x in shifted
      {
        assert x in SortDesc(shifted) <==> x in multiset(SortDesc(shifted));
        assert x in shifted <==> x in multiset(shifted);
      }
    }
  }

  /** The running task at the head of the queue is never removed. */
  lemma {:induction false} PopAllKeepsHead<T>(q: seq<T>, ds: seq<int>)
    requires q != []
    ensures PopAll(q, ds) != [] && PopAll(q, ds)[0] == q[0]
    decreases |ds|
  {
    if ds != [] {
      if 0 < ds[0] < |q| {
        PopAllKeepsHead(Without(q, ds[0]), ds[1..]);
      } else {
        PopAllKeepsHead(q, ds[1..]);
      }
    }
  }

  // ---------------------------------------------------------------------
  // Moving a queue row

  /** `list.pop(i)`'s index: a negative one counts from the end; outside the
      list it raises `IndexError` (None). */
  function PopIndex(i: int, n: nat): (r: Option<nat>)
    ensures r.Some? ==> r.value < n && (r.value == i || r.value == i + n)
    ensures r.None? <==> !(-(n as int) <= i < n)
  {
    var j := if i < 0 then i + n else i;
    if 0 <= j < n then Some(j) else None
  }

  /** `list.insert(i, x)`'s position: a negative one counts from the end,
      and either is clamped to the list. */
  function InsertIndex(i: int, n: nat): (k: nat)
    ensures k <= n
    ensures 0 <= i <= n ==> k == i
  {
    if i < 0 then (if i + n < 0 then 0 else i + n) else if i > n then n else i
  }

  /** The pop and the insert of `_on_queue_rows_moved` at queue positions
      `src` and `dst`; None when the pop raises `IndexError`. */
  function Moved<T>(q: seq<T>, src: int, dst: int): Option<seq<T>>
  {
    match PopIndex(src, |q|)
    case None => None
    case Some(j) =>
      var rest := Without(q, j);
      var k := InsertIndex(dst, |rest|);
      Some(rest[..k] + [q[j]] + rest[k..])
  }

  /** Popping a position takes exactly that element out. */
  lemma {:induction false} WithoutCounts<T>(q: seq<T>, j: nat)
    requires j < |q|
    ensures multiset(Without(q, j)) + multiset{q[j]} == multiset(q)
  {
    assert q == q[..j] + [q[j]] + q[j + 1..];
    assert Without(q, j) == q[..j] + q[j + 1..];
  }

  /** Inserting an element anywhere adds exactly that element. */
  lemma {:induction false} InsertCounts<T>(s: seq<T>, k: nat, x: T)
    requires k <= |s|
    ensures multiset(s[..k] + [x] + s[k..]) == multiset(s) + multiset{x}
  {
    assert s == s[..k] + s[k..];
  }

  /** A move that does not raise reorders the queue: same length, same
      tasks, and the moved task lands at its insert position. */
  lemma {:induction false} MovedPermutes<T>(q: seq<T>, src: int, dst: int)
    requires Moved(q, src, dst).Some?
    ensures var r := Moved(q, src, dst).value;
      && |r| == |q| && multiset(r) == multiset(q)
      && r[InsertIndex(dst, |q| - 1)] == q[PopIndex(src, |q|).value]
  {
    var j := PopIndex(src, |q|).value;
    var rest := Without(q, j);
    var k := InsertIndex(dst, |rest|);
    assert Moved(q, src, dst).value == rest[..k] + [q[j]] + rest[k..];
    WithoutCounts(q, j);
    InsertCounts(rest, k, q[j]);
  }

  /** Moving a task from position `i` to position `j` and back restores the
      queue. */
  lemma {:induction false} MoveBack<T>(q: seq<T>, i: nat, j: nat)
    requires i < |q| && j < |q|
    ensures Moved(q, i, j).Some? && Moved(Moved(q, i, j).value, j, i) == Some(q)
  {
    var r := Moved(q, i, j).value;
    var rest := Without(q, i);
    assert r == rest[..j] + [q[i]] + rest[j..];
    assert r[j] == q[i];
    assert Without(r, j) == rest;
    var back := rest[..i] + [q[i]] + rest[i..];
    assert back == q;
  }

  /** The queue of the generator panel, with the flag saying whether a
      generation is running (the running task then sits at the head of the
      queue and the table does not show it). */
  class QueuePanel {
    var queue: seq<Item>
    var running: bool

    /** The offset between table rows and queue positions. */
    function Offset(): (o: int)
      reads this
      ensures o == 1 <==> running
      ensures o == 0 <==> !running
    {
      if running then 1 else 0
    }

    /** `_remove_queue_rows`: nothing for no rows; otherwise the rows,
        shifted by the offset, are popped largest first. */
    method RemoveQueueRows(rows: seq<int>)
      modifies this
      ensures queue == PopAll(old(queue), SortDesc(ShiftBy(rows, old(Offset()))))
      ensures running == old(running)
    {
      if rows == [] {
        return;
      }
      var ds := SortDesc(ShiftBy(rows, Offset()));
      ghost var q0 := queue;
      for i := 0 to |ds|
        invariant PopAll(queue, ds[i..]) == PopAll(q0, ds)
        invariant running == old(running)
      {
        assert ds[i..][1..] == ds[i + 1..];
        if 0 < ds[i] < |queue| {
          queue := Without(queue, ds[i]);
        }
      }
    }

    /** `_on_queue_rows_moved`: the task at table row `src` is popped and
        inserted at table row `dst`; `raised` reports the `IndexError` of a
        pop outside the queue, which leaves it unchanged. */
    method MoveQueueRow(src: int, dst: int) returns (raised: bool)
      modifies this
      ensures raised <==> Moved(old(queue), src + old(Offset()), dst + old(Offset())).None?
      ensures !raised ==> queue == Moved(old(queue), src + old(Offset()), dst + old(Offset())).value
      ensures raised ==> queue == old(queue)
      ensures running == old(running)
    {
      var offset := Offset();
      var j := PopIndex(src + offset, |queue|);
      if j.None? {
        return true;
      }
      var item := queue[j.value];
      queue := Without(queue, j.value);
      var k := InsertIndex(dst + offset, |queue|);
      queue := queue[..k] + [item] + queue[k..];
      return false;
    }
  }

  // ---------------------------------------------------------------------
  // Generation modes

  /** A radio button's label and the mode letter it stands for. */
  datatype Choice = Choice(text: string, value: char)

  /** The mode letters of the choices, in order. */
  function Values(cs: seq<Choice>): (r: seq<char>)
    ensures |r| == |cs| && forall i :: 0 <= i < |cs| ==> r[i] == cs[i].value
  {
    seq(|cs|, i requires 0 <= i < |cs| => cs[i].value)
  }

  /** Where a mode letter comes in the fixed order T, S, V, L. */
  function Rank(c: char): int
  {
    if c == 'T' then 0 else if c == 'S' then 1 else if c == 'V' then 2 else 3
  }

  /** A one-choice list when the condition holds, else none. */
  function OptChoice(b: bool, c: Choice): (r: seq<Choice>)
    ensures b ==> r == [c]
    ensures !b ==> r == []
  {
    if b then [c] else []
  }

  /** The choices `_update_generation_mode_visibility` builds from the
      allowed image-prompt letters: text only (labelled "Text Prompt Only"
      when a start image is allowed, else "New Video") when `T` is allowed
      or nothing is listed, then start image, continue video and continue
      last video, each when its letter is allowed. */
  function ModeChoices(allowed: string): (r: seq<Choice>)
  {
    OptChoice('T' in allowed || allowed == [], Choice(if 'S' in allowed then "Text Prompt Only" else "New Video", 'T'))
    + OptChoice('S' in allowed, Choice("Start Video with Image", 'S'))
    + OptChoice('V' in allowed, Choice("Continue Video", 'V'))
    + OptChoice('L' in allowed, Choice("Continue Last Video", 'L'))
  }

  /** The letters of a concatenation of choices. */
  lemma {:induction false} ValuesAppend(a: seq<Choice>, b: seq<Choice>)
    ensures Values(a + b) == Values(a) + Values(b)
  {
  }

  /** The letters of the offered modes. */
  function Letters(allowed: string): string
  {
    (if 'T' in allowed || allowed == [] then "T" else "")
    + (if 'S' in allowed then "S" else "")
    + (if 'V' in allowed then "V" else "")
    + (if 'L' in allowed then "L" else "")
  }

  /** The choices offer exactly the letters `Letters` lists. */
  lemma {:induction false} ModeLetters(allowed: string)
    ensures Values(ModeChoices(allowed)) == Letters(allowed)
  {
    var t := OptChoice('T' in allowed || allowed == [], Choice(if 'S' in allowed then "Text Prompt Only" else "New Video", 'T'));
    var s := OptChoice('S' in allowed, Choice("Start Video with Image", 'S'));
    var v := OptChoice('V' in allowed, Choice("Continue Video", 'V'));
    var l := OptChoice('L' in allowed, Choice("Continue Last Video", 'L'));
    ValuesAppend(t, s);
    ValuesAppend(t + s, v);
    ValuesAppend(t + s + v, l);
  }

  /** Which modes are offered: text only when `T` is allowed or nothing is
      listed, and each of the others exactly when its letter is allowed. */
  lemma {:induction false} ModeChoicesOffer(allowed: string)
    ensures var vs := Values(ModeChoices(allowed));
      && ('T' in vs <==> ('T' in allowed || allowed == []))
      && ('S' in vs <==> 'S' in allowed)
      && ('V' in vs <==> 'V' in allowed)
      && ('L' in vs <==> 'L' in allowed)
  {
    ModeLetters(allowed);
  }

  /** The modes are offered in the order T, S, V, L. */
  lemma {:induction false} ModeChoicesOrder(allowed: string)
    ensures var vs := Values(ModeChoices(allowed));
      forall i, j :: 0 <= i < j < |vs| ==> Rank(vs[i]) < Rank(vs[j])
  {
    var t, s, v, l := 'T' in allowed || allowed == [], 'S' in allowed, 'V' in allowed, 'L' in allowed;
    ModeLetters(allowed);
    LettersRanked(t, s, v, l);
    assert Letters(allowed) == (if t then "T" else "") + (if s then "S" else "") + (if v then "V" else "") + (if l then "L" else "");
  }

  /** A ranked prefix of T and S letters followed by a selection of V, L in
      that order stays ranked. */
  lemma {:induction false} LettersRankedFrom(head: string, v: bool, l: bool)
    requires head in {"", "T", "S", "TS"}
    ensures var vs := head + (if v then "V" else "") + (if l then "L" else "");
      forall i, j :: 0 <= i < j < |vs| ==> Rank(vs[i]) < Rank(vs[j])
  {
    var vs := head + (if v then "V" else "") + (if l then "L" else "");
    assert forall k :: 0 <= k < |head| ==> Rank(vs[k]) == k + (if head == "S" then 1 else 0);
    assert forall k :: |head| <= k < |vs| ==> Rank(vs[k]) == k - |head| + (if v then 2 else 3);
  }

  /** Any selection of the letters T, S, V, L, kept in that order, is
      strictly increasing in rank. */
  lemma {:induction false} LettersRanked(t: bool, s: bool, v: bool, l: bool)
    ensures var vs := (if t then "T" else "") + (if s then "S" else "") + (if v then "V" else "") + (if l then "L" else "");
      forall i, j :: 0 <= i < j < |vs| ==> Rank(vs[i]) < Rank(vs[j])
  {
    if t {
      if s { LettersRankedFrom("TS", v, l); } else { LettersRankedFrom("T", v, l); }
    } else {
      if s { LettersRankedFrom("S", v, l); } else { LettersRankedFrom("", v, l); }
    }
  }

  /** The text-only mode is labelled "Text Prompt Only" when a start image
      is allowed, else "New Video". */
  lemma {:induction false} TextModeLabel(allowed: string, c: Choice)
    requires c in ModeChoices(allowed) && c.value == 'T'
    ensures c.text == (if 'S' in allowed then "Text Prompt Only" else "New Video")
  {
    var t := OptChoice('T' in allowed || allowed == [], Choice(if 'S' in allowed then "Text Prompt Only" else "New Video", 'T'));
    var rest := OptChoice('S' in allowed, Choice("Start Video with Image", 'S'))
      + OptChoice('V' in allowed, Choice("Continue Video", 'V'))
      + OptChoice('L' in allowed, Choice("Continue Last Video", 'L'));
    assert ModeChoices(allowed) == t + rest;
    assert forall d :: d in rest ==> d.value != 'T';
    assert c in t;
  }

  /** The checked mode button afterwards (the buttons are exclusive, so at
      most one is checked): a checked button that is still shown stays
      checked; otherwise the first choice is checked, if there is one. */
  function CheckedAfter(choices: seq<Choice>, checked: Option<char>): (r: Option<char>)
    ensures checked.Some? && checked.value in Values(choices) ==> r == checked
    ensures Values(choices) != [] ==> r.Some? && r.value in Values(choices)
    ensures !(checked.Some? && checked.value in Values(choices)) && Values(choices) != [] ==> r == Some(Values(choices)[0])
    ensures Values(choices) == [] ==> r == checked
  {
    var shown := Values(choices);
    if checked.Some? && checked.value in shown then checked
    else if shown != [] then Some(shown[0])
    else checked
  }

  /** A text-only choice is always shown when nothing is listed, so some
      mode is then checked afterwards. */
  lemma {:induction false} NothingListedChecksText(checked: Option<char>)
    ensures CheckedAfter(ModeChoices(""), checked) == Some('T')
  {
    assert ModeChoices("") == [Choice("New Video", 'T')];
    assert Values(ModeChoices("")) == ['T'];
  }
}
