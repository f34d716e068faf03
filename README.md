# simple-task-manager: the task store and its commands

This project models the core of `task.py`, a single-user command-line task tracker. The tracker keeps its tasks in a store: a dictionary from task title to a record `{'d': description}`. There are three command handlers:

- `add <title> [words…]` inserts a new title. Its description is the remaining words joined by single spaces, or `no description` when no words follow. It is refused when no title is given or the title is already taken.
- `delete <title>` removes a title. It is refused when no argument is given, when more than one is given, or when the title is unknown.
- `list` prints one `<title>: <description>` entry per task, in the store's order. It accepts and ignores further arguments, and it always reports true.

The dispatcher checks that there is at least one argument, loads the store and looks the first argument up in the command table (`list`, `add`, `delete`). It calls the handler on the rest of the arguments and writes the store back only when the handler returns true. An unknown command is reported and nothing is written.

The model (`task.dfy`, module `SimpleTasks`):

- `Task` is a datatype holding a description.
- `Snapshot` is the store as a value: the title map and the titles in insertion order. The store is a Python dictionary, whose iteration order (and so the order of `list`'s output) is insertion order. `delete` keeps the relative order of the remaining titles.
- `AddOutcome`, `DeleteOutcome` and `MainEffect` are the specifications, as functions on snapshots. A failure of `AddOutcome` or `DeleteOutcome` carries the kind of error the handler reports. `MainEffect` records only which handler refused (`Rejected(command)`), because a handler returns only a boolean to the dispatcher.
- `Store` is a class whose `tasks` and `order` fields the handlers `Add` and `Delete` update in place. `ListTasks` is a loop over the titles. Each method's `ensures` ties its result and the new state to the specification function.
- `RunMain` is the dispatcher. It takes the argument list and the loaded store; `null` stands for the load having failed. It returns the verdict and returns the printed entries. The verdict is `Save(command, store)` exactly when the source would call `save(tasks)`, and it carries the store that would be written.

Behaviour of the code worth noting:

- The description falls back to `no description` only when no word follows the title. `add t ""` stores the empty description.
- Titles that are empty or only whitespace are accepted, because the code checks only that a title was given and that it is free.
- There is no completion flag, and there are no `complete`, `edit`, `help` or list filters/sorting. The command table in this file holds only `list`, `add` and `delete`.

## Model

| member | source | states |
|---|---|---|
| `SimpleTasks.Join` | task.py:54 | `' '.join(words)`: the empty list joins to the empty string; for a non-empty list, cutting the result at its spaces gives the pieces of every word, word after word (with `JoinSplit`, this determines the result, including for words that hold spaces) |
| `SimpleTasks.DescriptionOf` | task.py:54 | the stored description: `no description` when nothing follows the title, otherwise a string whose space-separated pieces are those of the words after the title, in order |
| `SimpleTasks.Split` | task.py:54 | cutting at every space (Python's `split(' ')`), the inverse used as the partner of the description join; it yields at least one piece, and no piece holds a space |
| `SimpleTasks.SplitAround` | task.py:54 | the single space the join puts between two strings separates their pieces: the pieces of `a + " " + b` are those of `a` followed by those of `b` |
| `SimpleTasks.JoinSplit` | task.py:54 | for every string, splitting at the spaces and joining with single spaces gives the string back |
| `SimpleTasks.SplitJoin` | task.py:54 | joining a non-empty list of space-free words with single spaces and splitting the result at spaces gives back the words |
| `SimpleTasks.JoinInjective` | task.py:54 | two different non-empty lists of space-free words never join to the same description |
| `SimpleTasks.DescriptionWords` | task.py:54 | when at least one word follows the title and none holds a space, splitting the stored description at its spaces gives back exactly those words |
| `SimpleTasks.Without` | task.py:67 | removing a title from the insertion order keeps exactly the other titles, and leaves the order alone when the title is absent |
| `SimpleTasks.WithoutDistinct` | task.py:67 | after a removal every title still appears at most once in the order |
| `SimpleTasks.WithoutAt` | task.py:67 | deleting the title at position i of an order without repeats cuts out exactly that position, so the remaining titles keep their relative order |
| `SimpleTasks.WithoutLast` | task.py:67 | removing the title that was appended last gives back the previous order |
| `SimpleTasks.AddOutcome` | task.py:44-56 | no arguments: fails with "no task name" and changes nothing; title taken: fails with "already exists" and changes nothing; otherwise succeeds, the keys become the old keys plus the title, the new entry holds the joined description, every old entry is untouched, the title goes last in the order, and well-formedness is kept |
| `SimpleTasks.DeleteOutcome` | task.py:58-71 | zero arguments: "no task name"; more than one argument: "unexpected arguments", even when the first names a task; one unknown title: "does not exist"; succeeds exactly when one existing title is given, and then removes exactly that key, keeps the other entries and their order, and keeps well-formedness |
| `SimpleTasks.AddDeleteRoundTrip` | task.py:55-67 | on a well-formed store, adding a free title with any words and then deleting that title gives back the original store, order included |
| `SimpleTasks.DeleteThenAdd` | task.py:50-67 | after a successful delete the title is free again, and adding it stores the new description |
| `SimpleTasks.Listing` | task.py:73-76 | the list output has one printed entry (one `print` call) per title of the order, and entry i is `title: description` for the i-th title |
| `SimpleTasks.ListingOnePerTask` | task.py:74-75 | on a well-formed store the output has exactly as many printed entries as there are tasks, and every task's entry appears at its title's position |
| `SimpleTasks.Store.constructor` | task.py:89-91 | the store object starts as the loaded snapshot |
| `SimpleTasks.Store.Add` | task.py:44-56 | returns true exactly when the specification's add succeeds; the new state is the specification's result when it succeeds and the old state otherwise; the order invariant is kept |
| `SimpleTasks.Store.Delete` | task.py:58-71 | returns true exactly when the specification's delete succeeds; the new state is the specification's result when it succeeds and the old state otherwise; the order invariant is kept |
| `SimpleTasks.Store.ListTasks` | task.py:73-76 | changes nothing, always returns true and produces the listing of the store in insertion order |
| `SimpleTasks.HandlerTable` | task.py:79-83 | the command table holds exactly `list`, `add` and `delete`, each mapped to its own handler |
| `SimpleTasks.MainEffect` | task.py:79-100 | no arguments: ends before loading, whatever the load would give; failed load: nothing saved; a command not in the table: "unknown command" and nothing saved; a save happens exactly when the command is in the table and its handler succeeds (always for `list`), only for `list`, `add` or `delete`, tagged with that command's handler, and the saved store is well-formed; a refusing handler gives `Rejected` with that handler and no output, which is distinct from a failed load or an empty argument list; after `add` or `delete` the saved store is that handler's resulting store; `list` saves the loaded store unchanged and prints exactly its listing; only `list` prints |
| `SimpleTasks.ListSavesUnchanged` | task.py:94-98 | `list` with any further arguments saves the store unchanged, prints exactly the listing of the store in insertion order, and that is one printed entry per task |
| `SimpleTasks.MainAddDeleteRoundTrip` | task.py:84-100 | an invocation `add title words…` saves, and a following invocation `delete title` on the saved store saves the original store |
| `SimpleTasks.RunMain` | task.py:84-100 | the dispatcher's verdict and output are those of the specification, and the store afterwards is the one that is saved when a save happens and the original otherwise |

## Left out

- `get_file`, `save` and `get_tasks` (task.py:10-42) are left out. They cover locating and creating the data directory, reading and writing the file, JSON encoding and decoding, and the interactive prompt that deletes a corrupt file. All of that is I/O and library code. `RunMain` takes the loaded store as a parameter, with `null` for a failed load, and its verdict says when and what `save` would write.
- The persisted JSON format and any save/load round trip are left out. They depend on the `json` module, which is not part of this model.
- The error text on standard error (`error`, task.py:7-8) is left out. The model records only that a handler failed and, in the specification functions, which kind of error it was.
- Stored values of any other shape than `{'d': text}` are left out. Such a file passes the source's only check, which is that the top level is a dictionary. `list` fails on it only when a value is not a dictionary or has no `"d"` key. A non-text `"d"` is printed as Python formats it, and extra fields are kept and written back by every save, after `list` as well as after `add` and `delete`. The model's `Task` holds exactly one text description, so it cannot represent extra fields or non-text descriptions.
- Line breaks inside output entries are not modelled. Each element of the listing stands for one `print` call, which writes the entry and a newline. A title or description that holds a newline character therefore spreads its one entry over several lines of output.
- The dictionary's in-place insertion and deletion are modelled as reassigning the `tasks` and `order` fields. Python object identity and aliasing of the dictionary are not modelled.
- The process entry point (task.py:102-103) is left out. It only passes `sys.argv[1:]` to `main`.
