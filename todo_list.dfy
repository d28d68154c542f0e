/** The TodoList component (js/main.js:148-220): the state owner of the app.
    Its data (newTodoText, todos, editedTodo, visibility), the beforeEditCache
    it sets on first edit, and the counter on todoStorage are the fields the
    methods below update in place. */
module TodoApp {
  import opened Text
  import opened Todos
  import opened Storage

  datatype Option<T> = None | Some(value: T)

  class TodoList {
    const storage: TodoStorage
    var todos: seq<Todo>
    var newTodoText: string
    /** The id of the todo being edited; None when no edit is open. */
    var editedTodo: Option<int>
    var beforeEditCache: string
    var visibility: Visibility

    /** Ids are distinct and below the counter the next todo will take, and
        so is the id of the todo being edited: a todo created later never
        reads as being edited. */
    ghost predicate Valid()
      reads this, storage
    {
      IdsValid(todos, storage.uid)
      && (editedTodo.Some? ==> editedTodo.value < storage.uid)
    }

    /** data(): load the stored list and start with an empty input, no edit
        open and the All tab selected. */
    constructor (storage: TodoStorage)
      modifies storage`uid
      ensures this.storage == storage && storage.stored == old(storage.stored)
      ensures todos == Renumbered(storage.stored) && storage.uid == |todos|
      ensures newTodoText == "" && editedTodo == None && beforeEditCache == "" && visibility == All
      ensures Valid()
    {
      this.storage := storage;
      var loaded := storage.Fetch();
      todos := loaded;
      newTodoText := "";
      editedTodo := None;
      beforeEditCache := "";
      visibility := All;
    }

    // -------------------------------------------------------------------
    // computed values

    /** filteredTodos: the todos the selected tab shows, in list order. */
    function FilteredTodos(): (r: seq<Todo>)
      reads this
      ensures IsSubsequence(r, todos)
      ensures visibility == All ==> r == todos
      ensures forall t :: t in r <==> t in todos && Shown(visibility, t)
    {
      Filtered(visibility, todos)
    }

    /** remaining: the number of todos not completed. */
    function Remaining(): (n: nat)
      reads this
      ensures n == CountIncomplete(todos)
    {
      RemainingCountsIncomplete(todos);
      Todos.Remaining(todos)
    }

    /** allDone (getter): every todo is completed. */
    function AllDone(): (b: bool)
      reads this
      ensures b <==> forall i | 0 <= i < |todos| :: todos[i].completed
    {
      AllDoneIff(todos);
      Todos.AllDone(todos)
    }

    /** `todo === editedTodo`: the i-th todo shows its edit field, focused. */
    function Editing(i: nat): (b: bool)
      reads this, storage
      requires Valid() && i < |todos|
      ensures b ==> editedTodo.Some? && forall j | 0 <= j < |todos| && j != i :: editedTodo.value != todos[j].id
    {
      editedTodo == Some(todos[i].id)
    }

    /** Since ids are distinct, at most one todo is in edit mode at a time. */
    lemma AtMostOneEditing(i: nat, j: nat)
      requires Valid() && i < |todos| && j < |todos|
      ensures Editing(i) && Editing(j) ==> i == j
    {
    }

    // -------------------------------------------------------------------
    // methods

    /** The input field's v-model: the text typed so far. */
    method SetNewTodoText(text: string)
      modifies this`newTodoText
      ensures newTodoText == text
    {
      newTodoText := text;
    }

    /** addTodo: a blank input is ignored; otherwise the trimmed text becomes
        a new open todo at the front, with the counter as id, and the input
        is cleared. */
    method AddTodo()
      requires Valid()
      modifies this`todos, this`newTodoText, storage`uid
      ensures Valid()
      ensures AllWhitespace(old(newTodoText)) ==>
        todos == old(todos) && newTodoText == old(newTodoText) && storage.uid == old(storage.uid)
      ensures !AllWhitespace(old(newTodoText)) ==>
        todos == [Todo(old(storage.uid), Trim(old(newTodoText)), false)] + old(todos)
        && storage.uid == old(storage.uid) + 1 && newTodoText == ""
      ensures !AllWhitespace(old(newTodoText)) ==> |todos| > 0 && !Editing(0)
    {
      var trimmedText := Trim(newTodoText);
      if trimmedText != [] {
        PrependFreshKeepsIds(todos, storage.uid, trimmedText);
        todos := [Todo(storage.uid, trimmedText, false)] + todos;
        storage.uid := storage.uid + 1;
        newTodoText := "";
      }
    }

    /** removeTodo: drop the todos that carry `idToRemove`. */
    method RemoveTodo(idToRemove: int)
      requires Valid()
      modifies this`todos
      ensures todos == RemoveById(old(todos), idToRemove)
      ensures Valid()
    {
      WhereKeepsIds(todos, storage.uid, OtherId(idToRemove));
      todos := RemoveById(todos, idToRemove);
    }

    /** editTodo: remember the text of the i-th todo and open its edit. */
    method EditTodo(i: nat)
      requires Valid() && i < |todos|
      modifies this`beforeEditCache, this`editedTodo
      ensures beforeEditCache == todos[i].text && editedTodo == Some(todos[i].id)
      ensures Valid() && Editing(i)
    {
      beforeEditCache := todos[i].text;
      editedTodo := Some(todos[i].id);
    }

    /** The edit field's v-model: the text of the i-th todo as typed. */
    method SetText(i: nat, text: string)
      requires Valid() && i < |todos|
      modifies this`todos
      ensures todos == old(todos)[i := Todo(old(todos)[i].id, text, old(todos)[i].completed)]
      ensures Valid()
    {
      var t := todos[i];
      SameIdsKeepIds(todos, todos[i := t.(text := text)], storage.uid);
      todos := todos[i := t.(text := text)];
    }

    /** doneEdit: close the edit; the text stays as typed. */
    method DoneEdit()
      requires Valid()
      modifies this`editedTodo
      ensures editedTodo == None
      ensures Valid()
    {
      editedTodo := None;
    }

    /** cancelEdit: put the remembered text back into the i-th todo and close
        the edit. */
    method CancelEdit(i: nat)
      requires Valid() && i < |todos|
      modifies this`todos, this`editedTodo
      ensures todos == old(todos)[i := Todo(old(todos)[i].id, beforeEditCache, old(todos)[i].completed)]
      ensures editedTodo == None
      ensures Valid()
    {
      var t := todos[i];
      SameIdsKeepIds(todos, todos[i := t.(text := beforeEditCache)], storage.uid);
      todos := todos[i := t.(text := beforeEditCache)];
      editedTodo := None;
    }

    /** The item checkbox bound to todo.completed. */
    method ToggleCompleted(i: nat)
      requires Valid() && i < |todos|
      modifies this`todos
      ensures todos == Toggled(old(todos), i)
      ensures Valid()
    {
      SameIdsKeepIds(todos, Toggled(todos, i), storage.uid);
      todos := todos[i := todos[i].(completed := !todos[i].completed)];
    }

    /** clearCompletedTodo: keep only the active todos. */
    method ClearCompletedTodo()
      requires Valid()
      modifies this`todos
      ensures todos == FilterActive(old(todos))
      ensures Remaining() == |todos|
      ensures Valid()
    {
      WhereKeepsIds(todos, storage.uid, IsActive);
      todos := FilterActive(todos);
      ActiveIdempotent(old(todos));
      RemainingCountsIncomplete(todos);
    }

    /** toggleFilter: select a tab. */
    method ToggleFilter(filter: Visibility)
      modifies this`visibility
      ensures visibility == filter
    {
      visibility := filter;
    }

    /** allDone (setter): set the flag of every todo to `value`. */
    method SetAllDone(value: bool)
      requires Valid()
      modifies this`todos
      ensures todos == WithCompleted(old(todos), value)
      ensures AllDone() == (value || todos == [])
      ensures Valid()
    {
      var i := 0;
      while i < |todos|
        invariant 0 <= i <= |todos| == |old(todos)|
        invariant forall k | 0 <= k < i :: todos[k] == old(todos)[k].(completed := value)
        invariant forall k | i <= k < |todos| :: todos[k] == old(todos)[k]
      {
        todos := todos[i := todos[i].(completed := value)];
        i := i + 1;
      }
      SameIdsKeepIds(old(todos), todos, storage.uid);
      SetAllDoneReadsBack(old(todos), value);
      AllDoneIff(todos);
    }
  }

  // ---------------------------------------------------------------------
  // Use cases the component's template drives

  /** Opening an edit, typing and pressing Escape leaves the list as it was. */
  method EditThenCancel(list: TodoList, i: nat, typed: string)
    requires list.Valid() && i < |list.todos|
    modifies list
    ensures list.todos == old(list.todos) && list.editedTodo == None
  {
    list.EditTodo(i);
    list.SetText(i, typed);
    list.CancelEdit(i);
    assert list.todos[i] == old(list.todos)[i];
  }

  /** Opening an edit, typing and pressing Enter keeps the typed text as it
      is: neither trimmed nor removed when empty. */
  method EditThenDone(list: TodoList, i: nat, typed: string)
    requires list.Valid() && i < |list.todos|
    modifies list
    ensures list.todos == old(list.todos)[i := old(list.todos)[i].(text := typed)]
    ensures list.editedTodo == None
  {
    list.EditTodo(i);
    list.SetText(i, typed);
    list.DoneEdit();
  }

  /** Pressing Enter on a whitespace-only input adds nothing and keeps the
      input as typed. */
  method AddWhitespaceOnly(list: TodoList)
    requires list.Valid()
    modifies list, list.storage
    ensures list.todos == old(list.todos) && list.newTodoText == " \t "
    ensures list.storage.uid == old(list.storage.uid)
  {
    list.SetNewTodoText(" \t ");
    list.AddTodo();
  }

  /** Typing "Buy milk" and pressing Enter adds exactly that open todo, with
      an id no other todo has, in front of the old list. */
  method AddBuyMilk(list: TodoList)
    requires list.Valid()
    modifies list, list.storage
    ensures |list.todos| == |old(list.todos)| + 1 && list.todos[1..] == old(list.todos)
    ensures list.todos[0].text == "Buy milk" && !list.todos[0].completed
    ensures forall k | 1 <= k < |list.todos| :: list.todos[k].id != list.todos[0].id
  {
    list.SetNewTodoText("Buy milk");
    assert !AllWhitespace(list.newTodoText) by { assert !IsWhitespace(list.newTodoText[0]); }
    TrimUntouched("Buy milk");
    list.AddTodo();
  }
}
