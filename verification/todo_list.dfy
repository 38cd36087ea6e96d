/** The cosmic to-do list: toggling an item by id, adding an item with a fresh
    id, the completed/total progress figure and the priority colours. */
module TodoList {
  import opened Common
  import opened Text

  datatype Priority = Low | Medium | High | Cosmic

  datatype Todo = Todo(id: int, text: string, completed: bool, priority: Priority)

  /** The list and the contents of the input box. */
  datatype TodoState = TodoState(todos: seq<Todo>, input: string)

  /** The eight items the list mounts with. */
  const InitialTodos: seq<Todo> := [
    Todo(1, "Debug reality.exe", false, Cosmic),
    Todo(2, "Refactor consciousness", true, High),
    Todo(3, "Optimize coffee intake", false, Cosmic),
    Todo(4, "Deploy to production", true, Medium),
    Todo(5, "Fix merge conflicts with universe", false, High),
    Todo(6, "Update neural dependencies", false, Medium),
    Todo(7, "Backup memories to cloud", true, Low),
    Todo(8, "Implement quantum algorithms", false, Cosmic)
  ]

  const InitialState := TodoState(InitialTodos, "")

  function PriorityName(p: Priority): string {
    match p
    case Low => "low"
    case Medium => "medium"
    case High => "high"
    case Cosmic => "cosmic"
  }

  /** `getPriorityColor`: the four priority names have fixed colours, anything
      else is drawn in the text colour. */
  function PriorityColor(priority: string, textColor: string): string {
    if priority == "cosmic" then "#FF00FF"
    else if priority == "high" then "#FF4444"
    else if priority == "medium" then "#FFAA00"
    else if priority == "low" then "#44FF44"
    else textColor
  }

  /** Every priority an item can carry gets its own fixed colour, independent
      of the text colour; only other names fall back to the text colour. */
  lemma PriorityColorsFixed(p: Priority, q: Priority, tc: string, tc2: string)
    ensures PriorityColor(PriorityName(p), tc) == PriorityColor(PriorityName(p), tc2)
    ensures p != q ==> PriorityColor(PriorityName(p), tc) != PriorityColor(PriorityName(q), tc)
  {
  }

  lemma PriorityColorFallback(name: string, tc: string)
    requires name !in {"cosmic", "high", "medium", "low"}
    ensures PriorityColor(name, tc) == tc
  {
  }

  /** `toggleTodo(id)`: flip `completed` on the items with that id. */
  function Toggle(todos: seq<Todo>, id: int): (r: seq<Todo>)
    ensures |r| == |todos|
    ensures forall i :: 0 <= i < |r| ==>
      r[i].id == todos[i].id && r[i].text == todos[i].text && r[i].priority == todos[i].priority
      && (r[i].completed != todos[i].completed <==> todos[i].id == id)
  {
    seq(|todos|, i requires 0 <= i < |todos| =>
      if todos[i].id == id then todos[i].(completed := !todos[i].completed) else todos[i])
  }

  /** Toggling the same id twice restores the list. */
  lemma ToggleTwice(todos: seq<Todo>, id: int)
    ensures Toggle(Toggle(todos, id), id) == todos
  {
    var r := Toggle(Toggle(todos, id), id);
    assert forall i :: 0 <= i < |r| ==> r[i] == todos[i];
  }

  /** The largest id in a non-empty list: `Math.max(...ids)`. */
  function MaxId(todos: seq<Todo>): (m: int)
    requires |todos| > 0
    ensures forall i :: 0 <= i < |todos| ==> todos[i].id <= m
    ensures exists i :: 0 <= i < |todos| && todos[i].id == m
  {
    if |todos| == 1 then todos[0].id
    else
      var rest := MaxId(todos[1..]);
      assert forall i :: 1 <= i < |todos| ==> todos[i] == todos[1..][i - 1];
      if todos[0].id >= rest then todos[0].id else rest
  }

  /** `addTodo`: ignore input that is blank once trimmed; otherwise append an
      unfinished medium-priority item with the untrimmed text and id one more
      than the largest, and clear the input. */
  function Add(s: TodoState): (t: TodoState)
    requires |s.todos| > 0
    ensures Trim(s.input) == [] ==> t == s
    ensures Trim(s.input) != [] ==>
      |t.todos| == |s.todos| + 1 && t.todos[..|s.todos|] == s.todos && t.input == ""
      && var n := t.todos[|s.todos|];
        n.text == s.input && !n.completed && n.priority == Medium
        && n.id == MaxId(s.todos) + 1
        && (forall i :: 0 <= i < |s.todos| ==> s.todos[i].id < n.id)
  {
    if Trim(s.input) == [] then s
    else TodoState(s.todos + [Todo(MaxId(s.todos) + 1, s.input, false, Medium)], "")
  }

  /** The input is ignored exactly when it is all whitespace. */
  lemma AddIgnoresBlank(s: TodoState)
    requires |s.todos| > 0
    ensures Add(s) == s <==> (forall i :: 0 <= i < |s.input| ==> IsSpace(s.input[i]))
  {
    TrimEmptyIff(s.input);
    if Trim(s.input) != [] {
      assert |Add(s).todos| != |s.todos|;
    }
  }

  predicate DistinctIds(todos: seq<Todo>) {
    forall i, j :: 0 <= i < j < |todos| ==> todos[i].id != todos[j].id
  }

  /** Toggling keeps every id where it was, so distinct ids stay distinct. */
  lemma ToggleKeepsDistinct(todos: seq<Todo>, id: int)
    requires DistinctIds(todos)
    ensures DistinctIds(Toggle(todos, id))
  {
    var r := Toggle(todos, id);
    forall i, j | 0 <= i < j < |r| ensures r[i].id != r[j].id {
      assert r[i].id == todos[i].id && r[j].id == todos[j].id;
    }
  }

  /** Adding keeps the old items and gives the new one an id above them all. */
  lemma AddKeepsDistinct(s: TodoState)
    requires |s.todos| > 0 && DistinctIds(s.todos)
    ensures DistinctIds(Add(s).todos)
  {
    var t := Add(s);
    if Trim(s.input) != [] {
      var n := |s.todos|;
      forall i, j | 0 <= i < j < |t.todos| ensures t.todos[i].id != t.todos[j].id {
        assert t.todos[i] == t.todos[..n][i] == s.todos[i];
        if j < n {
          assert t.todos[j] == t.todos[..n][j] == s.todos[j];
        }
      }
    }
  }

  /** The eight initial items are numbered 1 to 8. */
  lemma InitialIds()
    ensures |InitialTodos| == 8
    ensures forall i :: 0 <= i < 8 ==> InitialTodos[i].id == i + 1
  {
  }

  /** Ids are distinct from the start, and toggling and adding keep them distinct. */
  lemma IdsStayDistinct(s: TodoState, id: int)
    requires |s.todos| > 0 && DistinctIds(s.todos)
    ensures DistinctIds(InitialTodos)
    ensures DistinctIds(Toggle(s.todos, id))
    ensures DistinctIds(Add(s).todos)
  {
    InitialIds();
    ToggleKeepsDistinct(s.todos, id);
    AddKeepsDistinct(s);
  }

  /** `todos.filter(t => t.completed).length`. */
  function CompletedCount(todos: seq<Todo>): (n: nat)
    ensures n <= |todos|
  {
    if |todos| == 0 then 0
    else (if todos[|todos| - 1].completed then 1 else 0) + CompletedCount(todos[..|todos| - 1])
  }

  /** `completed / total * 100`. */
  function Progress(todos: seq<Todo>): (p: real)
    requires |todos| > 0
    ensures 0.0 <= p <= 100.0
    ensures p == 100.0 <==> CompletedCount(todos) == |todos|
    ensures p == 0.0 <==> CompletedCount(todos) == 0
  {
    var c := CompletedCount(todos) as real;
    var n := |todos| as real;
    assert c / n <= 1.0;
    (c / n) * 100.0
  }

  /** Adding an item never changes the completed count, so the bar can only
      drop or stay when an item is added. */
  lemma AddKeepsCompleted(s: TodoState)
    requires |s.todos| > 0
    ensures CompletedCount(Add(s).todos) == CompletedCount(s.todos)
    ensures Progress(Add(s).todos) <= Progress(s.todos)
  {
    var t := Add(s).todos;
    if Trim(s.input) != [] {
      assert t[..|t| - 1] == s.todos;
      assert !t[|t| - 1].completed;
      RatioShrinks(CompletedCount(s.todos) as real, |s.todos| as real);
    }
  }

  lemma RatioShrinks(c: real, n: real)
    requires 0.0 <= c && 0.0 < n
    ensures c / (n + 1.0) * 100.0 <= c / n * 100.0
  {
    var a, b := c / (n + 1.0), c / n;
    assert a * (n + 1.0) == c && b * n == c;
    assert a >= 0.0;
    assert (b - a) * n == a;
    assert a <= b;
  }

  /** With distinct ids, toggling an id that is present moves the completed
      count by exactly one, in the direction of the item's new state. */
  lemma {:induction false} ToggleCount(todos: seq<Todo>, id: int, k: nat)
    requires DistinctIds(todos) && k < |todos| && todos[k].id == id
    ensures CompletedCount(Toggle(todos, id))
      == if todos[k].completed then CompletedCount(todos) - 1 else CompletedCount(todos) + 1
    decreases |todos|
  {
    var r := Toggle(todos, id);
    var m := |todos| - 1;
    assert Toggle(todos[..m], id) == r[..m];
    if k == m {
      ToggleElsewhere(todos[..m], id);
    } else {
      ToggleCount(todos[..m], id, k);
    }
  }

  /** Toggling an id that does not occur changes nothing. */
  lemma ToggleElsewhere(todos: seq<Todo>, id: int)
    requires forall i :: 0 <= i < |todos| ==> todos[i].id != id
    ensures Toggle(todos, id) == todos
  {
  }

  /** What a user can do: toggle an item, type into the box, submit the box. */
  datatype TodoEvent = ToggleItem(id: int) | Type(text: string) | Submit

  function ApplyTodo(s: TodoState, e: TodoEvent): (t: TodoState)
    requires |s.todos| > 0
    ensures |t.todos| >= |s.todos|
  {
    match e
    case ToggleItem(id) => s.(todos := Toggle(s.todos, id))
    case Type(text) => s.(input := text)
    case Submit => Add(s)
  }

  function RunTodos(s: TodoState, events: seq<TodoEvent>): (t: TodoState)
    requires |s.todos| > 0
    ensures |t.todos| >= |s.todos|
    decreases |events|
  {
    if |events| == 0 then s else RunTodos(ApplyTodo(s, events[0]), events[1..])
  }

  /** Ids stay distinct along any sequence of events. */
  lemma {:induction false} ReachableTodos(s: TodoState, events: seq<TodoEvent>)
    requires |s.todos| > 0 && DistinctIds(s.todos)
    ensures DistinctIds(RunTodos(s, events).todos)
    decreases |events|
  {
    if |events| > 0 {
      var e := events[0];
      match e {
        case ToggleItem(id) => IdsStayDistinct(s, id);
        case Type(text) =>
        case Submit => IdsStayDistinct(s, 0);
      }
      ReachableTodos(ApplyTodo(s, e), events[1..]);
    }
  }

  /** Items are never removed: every list reachable from the initial one keeps
      at least its eight items, so the largest id and the progress ratio are
      always defined, and its ids are distinct. */
  lemma ReachableFromInitial(events: seq<TodoEvent>)
    ensures |RunTodos(InitialState, events).todos| >= 8
    ensures DistinctIds(RunTodos(InitialState, events).todos)
  {
    IdsStayDistinct(InitialState, 0);
    ReachableTodos(InitialState, events);
  }
}
