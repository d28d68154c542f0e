/** todoStorage (js/main.js:3-14): the persisted list and the id counter.
    The browser's localStorage slot and its JSON text are modelled by the
    list they hold, `stored`. */
module Storage {
  import opened Todos

  class TodoStorage {
    /** The list held in the storage slot. */
    var stored: seq<Todo>
    /** The id the next created todo receives. */
    var uid: int

    constructor (stored: seq<Todo>)
      ensures this.stored == stored && uid == 0
    {
      this.stored := stored;
      uid := 0;
    }

    /** fetch: load the stored list, give every todo its position as id, and
        seed the counter with the list's length. */
    method Fetch() returns (todos: seq<Todo>)
      modifies this`uid
      ensures todos == Renumbered(stored)
      ensures uid == |stored|
      ensures IdsValid(todos, uid)
    {
      todos := stored;
      var i := 0;
      while i < |todos|
        invariant 0 <= i <= |todos| == |stored|
        invariant forall k | 0 <= k < i :: todos[k] == stored[k].(id := k)
        invariant forall k | i <= k < |todos| :: todos[k] == stored[k]
      {
        todos := todos[i := todos[i].(id := i)];
        i := i + 1;
      }
      uid := |todos|;
      RenumberedIdsValid(stored);
    }

    /** save: replace the stored list by `todos`. */
    method Save(todos: seq<Todo>)
      modifies this`stored
      ensures stored == todos
    {
      stored := todos;
    }
  }

  /** Saving a list and loading it back gives the same texts and flags in the
      same order; only the ids are renumbered 0..n-1. */
  method SaveThenFetch(storage: TodoStorage, todos: seq<Todo>) returns (loaded: seq<Todo>)
    modifies storage
    ensures |loaded| == |todos| && storage.uid == |todos|
    ensures forall i | 0 <= i < |todos| ::
      loaded[i].id == i && loaded[i].text == todos[i].text && loaded[i].completed == todos[i].completed
  {
    storage.Save(todos);
    loaded := storage.Fetch();
  }
}
