/**
 Model of the task store and command logic of a small command-line task
 tracker (task.py).

 The store maps a task title to a record holding its description. Besides the
 map, the model keeps the order in which titles were inserted, because the
 store is a Python dictionary and `list` prints its entries in that order.

 Three handlers work on the store (`add`, `delete`, `list`); each reports
 whether the store should be written back. The dispatcher routes a command
 name to its handler through a fixed table and asks for a save only when the
 handler reports true. Reading and writing the data file are not modelled:
 the store already loaded is a parameter of the dispatcher.
 */
module SimpleTasks {

  datatype Option<T> = None | Some(value: T)

  /** One task record; the source persists it as the object {'d': description}. */
  datatype Task = Task(description: string)

  /** The description stored when `add` is given only a title. */
  const NoDescription: string := "no description"

  // ---------------------------------------------------------------------
  // Joining the description words
  // ---------------------------------------------------------------------

  /** Cutting a string at every space, as Python's s.split(' '): the inverse of Join. */
  function Split(s: string): (pieces: seq<string>)
    ensures |pieces| >= 1
    ensures forall i :: 0 <= i < |pieces| ==> ' ' !in pieces[i]
  {
    if |s| == 0 then [""]
    else
      var rest := Split(s[1..]);
      if s[0] == ' ' then [""] + rest
      else [[s[0]] + rest[0]] + rest[1..]
  }

  /** The pieces of every word cut at its spaces, word after word. */
  function SplitAll(words: seq<string>): seq<string>
  {
    if |words| == 0 then [] else Split(words[0]) + SplitAll(words[1..])
  }

  /** A space between two strings separates their pieces. */
  lemma {:induction false} SplitAround(a: string, b: string)
    ensures Split(a + " " + b) == Split(a) + Split(b)
  {
    var whole := a + " " + b;
    if |a| == 0 {
      assert whole[0] == ' ' && whole[1..] == b;
    } else {
      assert whole[0] == a[0] && whole[1..] == a[1..] + " " + b;
      SplitAround(a[1..], b);
      var tail := Split(a[1..]);
      assert (tail + Split(b))[0] == tail[0];
      assert (tail + Split(b))[1..] == tail[1..] + Split(b);
    }
  }

  /** The words separated by single spaces, as Python's ' '.join(words): for a
      non-empty list, cutting the result at its spaces gives the words' own
      pieces in order (with JoinSplit, this determines the result). */
  function Join(words: seq<string>): (r: string)
    ensures |words| == 0 ==> r == ""
    ensures |words| > 0 ==> Split(r) == SplitAll(words)
  {
    if |words| == 0 then ""
    else if |words| == 1 then
      assert SplitAll(words) == Split(words[0]) + SplitAll(words[1..]);
      words[0]
    else
      var rest := Join(words[1..]);
      SplitAround(words[0], rest);
      words[0] + " " + rest
  }

  /** Splitting at the spaces and joining with single spaces gives back any string. */
  lemma {:induction false} JoinSplit(s: string)
    ensures Join(Split(s)) == s
  {
    if |s| > 0 {
      JoinSplit(s[1..]);
      var rest := Split(s[1..]);
      var pieces := Split(s);
      if s[0] == ' ' {
        assert pieces == [""] + rest && pieces[1..] == rest;
        assert s == [' '] + s[1..];
      } else if |rest| == 1 {
        assert pieces == [[s[0]] + rest[0]];
        assert Join(rest) == rest[0];
        assert s == [s[0]] + s[1..];
      } else {
        assert pieces[0] == [s[0]] + rest[0] && pieces[1..] == rest[1..];
        assert Join(rest) == rest[0] + " " + Join(rest[1..]);
        assert s == [s[0]] + s[1..];
      }
    }
  }

  lemma {:induction false} SplitWord(w: string)
    requires ' ' !in w
    ensures Split(w) == [w]
  {
    if |w| > 0 {
      SplitWord(w[1..]);
      assert [w[0]] + w[1..] == w;
    }
  }

  lemma {:induction false} SplitAllWords(words: seq<string>)
    requires forall i :: 0 <= i < |words| ==> ' ' !in words[i]
    ensures SplitAll(words) == words
  {
    if |words| > 0 {
      SplitWord(words[0]);
      SplitAllWords(words[1..]);
      assert words == [words[0]] + words[1..];
    }
  }

  /** Joining words that contain no space can be undone by splitting at the spaces. */
  lemma SplitJoin(words: seq<string>)
    requires |words| > 0
    requires forall i :: 0 <= i < |words| ==> ' ' !in words[i]
    ensures Split(Join(words)) == words
  {
    SplitAllWords(words);
  }

  /** Distinct lists of space-free words give distinct joined descriptions. */
  lemma JoinInjective(a: seq<string>, b: seq<string>)
    requires |a| > 0 && |b| > 0
    requires forall i :: 0 <= i < |a| ==> ' ' !in a[i]
    requires forall i :: 0 <= i < |b| ==> ' ' !in b[i]
    ensures Join(a) == Join(b) ==> a == b
  {
    SplitJoin(a);
    SplitJoin(b);
  }

  /** The description `add` stores for the words that follow the title: the
      default text when there are none, otherwise a string whose pieces
      between spaces are those of the words, in order. */
  function DescriptionOf(words: seq<string>): (d: string)
    ensures |words| == 0 ==> d == NoDescription
    ensures |words| > 0 ==> Split(d) == SplitAll(words)
  {
    if |words| > 0 then Join(words) else NoDescription
  }

  /** When at least one word follows the title and none holds a space, the words
      can be recovered from the description. */
  lemma DescriptionWords(words: seq<string>)
    ensures |words| > 0 && (forall i :: 0 <= i < |words| ==> ' ' !in words[i]) ==>
              Split(DescriptionOf(words)) == words
  {
    if |words| > 0 && forall i :: 0 <= i < |words| ==> ' ' !in words[i] {
      SplitJoin(words);
    }
  }

  // ---------------------------------------------------------------------
  // The store as a value
  // ---------------------------------------------------------------------

  /** The store's contents: the title map and the titles in insertion order. */
  datatype Snapshot = Snapshot(tasks: map<string, Task>, order: seq<string>)

  predicate Distinct(xs: seq<string>)
  {
    forall i, j :: 0 <= i < j < |xs| ==> xs[i] != xs[j]
  }

  /** The order lists every title of the map exactly once. */
  ghost predicate WellFormed(s: Snapshot)
  {
    Distinct(s.order) && forall k :: k in s.tasks <==> k in s.order
  }

  /** Why a handler refused; each stands for one error line of the source. */
  datatype Error =
    | NoTaskName
    | AlreadyExists(title: string)
    | UnexpectedArguments
    | DoesNotExist(title: string)

  datatype Outcome = Done(after: Snapshot) | Failed(error: Error)

  /** The titles of xs other than t, in their order. */
  function Without(xs: seq<string>, t: string): (r: seq<string>)
    ensures forall x :: x in r <==> x in xs && x != t
    ensures t !in xs ==> r == xs
  {
    if |xs| == 0 then []
    else if xs[0] == t then Without(xs[1..], t)
    else [xs[0]] + Without(xs[1..], t)
  }

  lemma DistinctTail(xs: seq<string>)
    requires Distinct(xs) && |xs| > 0
    ensures Distinct(xs[1..]) && xs[0] !in xs[1..]
  {
  }

  /** Removing a title keeps the other titles distinct. */
  lemma {:induction false} WithoutDistinct(xs: seq<string>, t: string)
    ensures Distinct(xs) ==> Distinct(Without(xs, t))
  {
    if |xs| > 0 && Distinct(xs) {
      DistinctTail(xs);
      WithoutDistinct(xs[1..], t);
      var rest := Without(xs[1..], t);
      if xs[0] != t {
        var r := [xs[0]] + rest;
        forall i, j | 0 <= i < j < |r| ensures r[i] != r[j] {
          if i == 0 {
            assert r[j] == rest[j - 1] && r[j] in xs[1..];
          } else {
            assert r[i] == rest[i - 1] && r[j] == rest[j - 1];
          }
        }
      }
    }
  }

  /** Removing the title at position i of a list without repeats cuts out exactly
      that position: the other titles keep their relative order. */
  lemma {:induction false} WithoutAt(xs: seq<string>, t: string, i: nat)
    requires Distinct(xs)
    requires i < |xs| && xs[i] == t
    ensures Without(xs, t) == xs[..i] + xs[i + 1..]
  {
    DistinctTail(xs);
    if i == 0 {
      assert Without(xs, t) == Without(xs[1..], t);
    } else {
      var tail := xs[1..];
      assert tail[i - 1] == t;
      WithoutAt(tail, t, i - 1);
      assert xs[..i] == [xs[0]] + tail[..i - 1];
      assert xs[i + 1..] == tail[i..];
    }
  }

  lemma {:induction false} WithoutLast(xs: seq<string>, t: string)
    requires t !in xs
    ensures Without(xs + [t], t) == xs
  {
    if |xs| == 0 {
      assert xs + [t] == [t];
    } else {
      assert (xs + [t])[0] == xs[0] && (xs + [t])[1..] == xs[1..] + [t];
      WithoutLast(xs[1..], t);
      assert xs == [xs[0]] + xs[1..];
    }
  }

  /** What `add` does to the store with the arguments after the command name. */
  function AddOutcome(s: Snapshot, args: seq<string>): (r: Outcome)
    ensures |args| == 0 ==> r == Failed(NoTaskName)
    ensures |args| > 0 && args[0] in s.tasks ==> r == Failed(AlreadyExists(args[0]))
    ensures r.Done? <==> |args| > 0 && args[0] !in s.tasks
    ensures r.Done? ==> r.after.tasks.Keys == s.tasks.Keys + {args[0]}
    ensures r.Done? ==> r.after.tasks[args[0]] == Task(DescriptionOf(args[1..]))
    ensures r.Done? ==> forall k :: k in s.tasks ==> r.after.tasks[k] == s.tasks[k]
    ensures r.Done? ==> r.after.order == s.order + [args[0]]
    ensures r.Done? && WellFormed(s) ==> WellFormed(r.after)
  {
    if |args| < 1 then Failed(NoTaskName)
    else if args[0] in s.tasks then Failed(AlreadyExists(args[0]))
    else
      var title := args[0];
      Done(Snapshot(s.tasks[title := Task(DescriptionOf(args[1..]))], s.order + [title]))
  }

  /** What `delete` does to the store with the arguments after the command name. */
  function DeleteOutcome(s: Snapshot, args: seq<string>): (r: Outcome)
    ensures |args| == 0 ==> r == Failed(NoTaskName)
    ensures |args| > 1 ==> r == Failed(UnexpectedArguments)
    ensures |args| == 1 && args[0] !in s.tasks ==> r == Failed(DoesNotExist(args[0]))
    ensures r.Done? <==> |args| == 1 && args[0] in s.tasks
    ensures r.Done? ==> r.after.tasks.Keys == s.tasks.Keys - {args[0]}
    ensures r.Done? ==> forall k :: k in r.after.tasks ==> r.after.tasks[k] == s.tasks[k]
    ensures r.Done? ==> r.after.order == Without(s.order, args[0])
    ensures r.Done? && WellFormed(s) ==> WellFormed(r.after)
  {
    if |args| < 1 then Failed(NoTaskName)
    else if |args| > 1 then Failed(UnexpectedArguments)
    else if args[0] in s.tasks then
      var title := args[0];
      WithoutDistinct(s.order, title);
      Done(Snapshot(s.tasks - {title}, Without(s.order, title)))
    else Failed(DoesNotExist(args[0]))
  }

  /** A successful `add` of a title followed by `delete` of that title gives back the store. */
  lemma AddDeleteRoundTrip(s: Snapshot, title: string, words: seq<string>)
    requires WellFormed(s)
    requires title !in s.tasks
    ensures AddOutcome(s, [title] + words).Done?
    ensures DeleteOutcome(AddOutcome(s, [title] + words).after, [title]) == Done(s)
  {
    var args := [title] + words;
    assert args[0] == title && args[1..] == words;
    var added := AddOutcome(s, args).after;
    WithoutLast(s.order, title);
    assert added.tasks - {title} == s.tasks;
  }

  /** Deleting a title frees it: a later `add` of that title succeeds. */
  lemma DeleteThenAdd(s: Snapshot, title: string, words: seq<string>)
    requires DeleteOutcome(s, [title]).Done?
    ensures AddOutcome(DeleteOutcome(s, [title]).after, [title] + words).Done?
    ensures AddOutcome(DeleteOutcome(s, [title]).after, [title] + words).after.tasks[title]
            == Task(DescriptionOf(words))
  {
  }

  // ---------------------------------------------------------------------
  // Listing
  // ---------------------------------------------------------------------

  /** The entry `list` prints for one task (one print call): "<title>: <description>". */
  function Line(title: string, description: string): string
  {
    title + ": " + description
  }

  /** The entries `list` prints for the titles of order, in that order. */
  function Listing(tasks: map<string, Task>, order: seq<string>): (lines: seq<string>)
    requires forall i :: 0 <= i < |order| ==> order[i] in tasks
    ensures |lines| == |order|
    ensures forall i :: 0 <= i < |order| ==> lines[i] == Line(order[i], tasks[order[i]].description)
  {
    if |order| == 0 then []
    else
      var last := order[|order| - 1];
      Listing(tasks, order[..|order| - 1]) + [Line(last, tasks[last].description)]
  }

  lemma {:induction false} DistinctCard(xs: seq<string>)
    requires Distinct(xs)
    ensures |set x | x in xs| == |xs|
  {
    if |xs| > 0 {
      var tail := xs[1..];
      DistinctTail(xs);
      DistinctCard(tail);
      assert (set x | x in xs) == (set x | x in tail) + {xs[0]} by {
        assert xs == [xs[0]] + tail;
      }
    }
  }

  /** `list` prints exactly one entry per task: as many entries as titles, entry i
      belonging to the i-th title, and every title at some entry. */
  lemma ListingOnePerTask(s: Snapshot)
    requires WellFormed(s)
    ensures |Listing(s.tasks, s.order)| == |s.tasks|
    ensures forall k :: k in s.tasks ==>
              exists i :: 0 <= i < |s.order| && s.order[i] == k &&
                          Listing(s.tasks, s.order)[i] == Line(k, s.tasks[k].description)
  {
    DistinctCard(s.order);
    assert s.tasks.Keys == set x | x in s.order;
    forall k | k in s.tasks
      ensures exists i :: 0 <= i < |s.order| && s.order[i] == k &&
                          Listing(s.tasks, s.order)[i] == Line(k, s.tasks[k].description)
    {
      var i :| 0 <= i < |s.order| && s.order[i] == k;
    }
  }

  // ---------------------------------------------------------------------
  // The store as an object updated in place
  // ---------------------------------------------------------------------

  class Store {
    var tasks: map<string, Task>
    var order: seq<string>

    function Snap(): Snapshot
      reads this
    {
      Snapshot(tasks, order)
    }

    ghost predicate Valid()
      reads this
    {
      WellFormed(Snap())
    }

    /** The store as the data file gave it. */
    constructor (loaded: Snapshot)
      requires WellFormed(loaded)
      ensures Valid() && Snap() == loaded
    {
      tasks := loaded.tasks;
      order := loaded.order;
    }

    /** Handler `add`: inserts a new title with its description. */
    method Add(args: seq<string>) returns (ok: bool)
      requires Valid()
      modifies this
      ensures Valid()
      ensures ok == AddOutcome(old(Snap()), args).Done?
      ensures Snap() == if ok then AddOutcome(old(Snap()), args).after else old(Snap())
    {
      if |args| < 1 {
        return false;
      }
      var title := args[0];
      if title in tasks {
        return false;
      }
      var description := DescriptionOf(args[1..]);
      tasks := tasks[title := Task(description)];
      order := order + [title];
      return true;
    }

    /** Handler `delete`: removes the one title given. */
    method Delete(args: seq<string>) returns (ok: bool)
      requires Valid()
      modifies this
      ensures Valid()
      ensures ok == DeleteOutcome(old(Snap()), args).Done?
      ensures Snap() == if ok then DeleteOutcome(old(Snap()), args).after else old(Snap())
    {
      if |args| < 1 {
        return false;
      }
      if |args| > 1 {
        return false;
      }
      var title := args[0];
      if title in tasks {
        WithoutDistinct(order, title);
        tasks := tasks - {title};
        order := Without(order, title);
        return true;
      } else {
        return false;
      }
    }

    /** Handler `list`: one entry per task, in the store's order; always reports true. */
    method ListTasks(args: seq<string>) returns (ok: bool, lines: seq<string>)
      requires Valid()
      ensures ok
      ensures lines == Listing(tasks, order)
    {
      lines := [];
      for i := 0 to |order|
        invariant lines == Listing(tasks, order[..i])
      {
        assert order[..i + 1][..i] == order[..i];
        lines := lines + [Line(order[i], tasks[order[i]].description)];
      }
      assert order[..|order|] == order;
      return true, lines;
    }
  }

  // ---------------------------------------------------------------------
  // The dispatcher
  // ---------------------------------------------------------------------

  datatype Command = List | Add | Delete

  /** The command table: command name to handler. */
  const Handlers: map<string, Command> := map["list" := List, "add" := Add, "delete" := Delete]

  /** The table holds exactly the three commands, each mapped to its own handler. */
  lemma HandlerTable()
    ensures Handlers.Keys == {"list", "add", "delete"}
    ensures Handlers["list"] == List && Handlers["add"] == Add && Handlers["delete"] == Delete
  {
  }

  /** How one invocation ends. Save carries the store that is written back. */
  datatype Verdict =
    | NoArguments
    | NotLoaded
    | UnknownCommand(name: string)
    | Rejected(command: Command)
    | Save(command: Command, store: Snapshot)

  /** The verdict of an invocation and the entries it prints on standard output. */
  datatype Effect = Effect(verdict: Verdict, output: seq<string>)

  /** One invocation with argument list args, where loaded is the store the data
      file gave (None when loading failed). */
  function MainEffect(args: seq<string>, loaded: Option<Snapshot>): (e: Effect)
    requires loaded.Some? ==> WellFormed(loaded.value)
    ensures |args| == 0 ==> e == Effect(NoArguments, [])
    ensures |args| > 0 && loaded.None? ==> e == Effect(NotLoaded, [])
    ensures |args| > 0 && loaded.Some? && args[0] !in Handlers ==> e == Effect(UnknownCommand(args[0]), [])
    ensures e.verdict.Save? <==>
              |args| > 0 && loaded.Some? && args[0] in Handlers &&
              match Handlers[args[0]]
              case List => true
              case Add => AddOutcome(loaded.value, args[1..]).Done?
              case Delete => DeleteOutcome(loaded.value, args[1..]).Done?
    ensures e.verdict.Save? ==> args[0] in {"list", "add", "delete"} && WellFormed(e.verdict.store)
    ensures e.verdict.Save? ==> e.verdict.command == Handlers[args[0]]
    ensures |args| > 0 && loaded.Some? && args[0] in Handlers && !e.verdict.Save? ==>
              e == Effect(Rejected(Handlers[args[0]]), [])
    ensures e.verdict.Save? && args[0] == "add" ==> e.verdict.store == AddOutcome(loaded.value, args[1..]).after
    ensures e.verdict.Save? && args[0] == "delete" ==> e.verdict.store == DeleteOutcome(loaded.value, args[1..]).after
    ensures |args| > 0 && loaded.Some? && args[0] == "list" ==>
              e.verdict == Save(List, loaded.value) && e.output == Listing(loaded.value.tasks, loaded.value.order)
    ensures e.output != [] ==> |args| > 0 && args[0] == "list"
  {
    if |args| == 0 then Effect(NoArguments, [])
    else if loaded.None? then Effect(NotLoaded, [])
    else if args[0] !in Handlers then Effect(UnknownCommand(args[0]), [])
    else
      var s := loaded.value;
      match Handlers[args[0]]
      case List => Effect(Save(List, s), Listing(s.tasks, s.order))
      case Add =>
        (match AddOutcome(s, args[1..])
         case Done(after) => Effect(Save(Add, after), [])
         case Failed(_) => Effect(Rejected(Add), []))
      case Delete =>
        (match DeleteOutcome(s, args[1..])
         case Done(after) => Effect(Save(Delete, after), [])
         case Failed(_) => Effect(Rejected(Delete), []))
  }

  /** `list` always asks for a save, writes back the store unchanged and prints
      one entry per task, whatever arguments follow it. */
  lemma ListSavesUnchanged(args: seq<string>, s: Snapshot)
    requires WellFormed(s)
    requires |args| > 0 && args[0] == "list"
    ensures MainEffect(args, Some(s)).verdict == Save(List, s)
    ensures MainEffect(args, Some(s)).output == Listing(s.tasks, s.order)
    ensures |MainEffect(args, Some(s)).output| == |s.tasks|
  {
    ListingOnePerTask(s);
  }

  /** Running `add title words…` and then `delete title` writes back the original store. */
  lemma MainAddDeleteRoundTrip(s: Snapshot, title: string, words: seq<string>)
    requires WellFormed(s)
    requires title !in s.tasks
    ensures MainEffect(["add", title] + words, Some(s)).verdict.Save?
    ensures MainEffect(["delete", title], Some(MainEffect(["add", title] + words, Some(s)).verdict.store)).verdict
            == Save(Delete, s)
  {
    var addArgs := ["add", title] + words;
    assert addArgs[0] == "add" && addArgs[1..] == [title] + words;
    AddDeleteRoundTrip(s, title, words);
    var deleteArgs := ["delete", title];
    assert deleteArgs[0] == "delete" && deleteArgs[1..] == [title];
  }

  /** The dispatcher: routes args[0] to its handler on the loaded store (null when
      loading failed) and reports whether, and what, would be saved. */
  method RunMain(args: seq<string>, store: Store?) returns (verdict: Verdict, output: seq<string>)
    requires store != null ==> store.Valid()
    modifies store
    ensures store != null ==> store.Valid()
    ensures Effect(verdict, output) ==
            MainEffect(args, if store == null then None else Some(old(store.Snap())))
    ensures store != null ==> store.Snap() == if verdict.Save? then verdict.store else old(store.Snap())
  {
    output := [];
    if |args| == 0 {
      return NoArguments, output;
    }
    if store == null {
      return NotLoaded, output;
    }
    if args[0] in Handlers {
      var command := Handlers[args[0]];
      var saved: bool;
      match command {
        case List => saved, output := store.ListTasks(args[1..]);
        case Add => saved := store.Add(args[1..]);
        case Delete => saved := store.Delete(args[1..]);
      }
      verdict := if saved then Save(command, store.Snap()) else Rejected(command);
    } else {
      verdict := UnknownCommand(args[0]);
    }
  }
}
