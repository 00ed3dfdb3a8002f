/** Project records and the pure parts of what the tracker does with a
    list of them: the stable ordering by modification time, the
    case-insensitive name match used by search, the "TD" flag and the
    sections of the to-do list. */
module Collection {
  import opened Wrappers
  import opened Text
  import opened ProjectFile

  /** One project dictionary after `read_projects`: the keys read from
      `project.md` plus `path`, `last_mod` and `count`.  `count` is 0 while
      the key is not yet set; numbering sets it to 1, 2, ... */
  datatype Project = Project(
    name: string,
    fields: map<string, string>,
    todo: Option<string>,
    path: string,
    lastMod: int,
    count: nat)

  /** A directory that holds a `project.md`, as the directory walk reports it:
      the path relative to the tracked root, the file's text and the
      directory's modification time. */
  datatype ProjectDir = ProjectDir(path: string, text: string, mtime: int)

  /** The dictionary for a parsed file once `path` and `last_mod` are added. */
  function Record(f: ProjFile, d: ProjectDir): (p: Project)
    ensures p.name == f.name && p.fields == f.fields && p.todo == f.todo
    ensures p.path == d.path && p.lastMod == d.mtime && p.count == 0
  {
    Project(f.name, f.fields, f.todo, d.path, d.mtime, 0)
  }

  // -----------------------------------------------------------------------
  // The stable `sorted` of `read_projects`, keyed by `last_mod`

  /** Puts `p` before the first record that is not older than it. */
  function Insert(p: Project, s: seq<Project>): (r: seq<Project>)
    ensures |r| == |s| + 1
  {
    if s == [] || p.lastMod <= s[0].lastMod then [p] + s
    else [s[0]] + Insert(p, s[1..])
  }

  /** Python's stable `sorted` with `last_mod` as the key. */
  function SortByLastMod(s: seq<Project>): (r: seq<Project>)
    ensures |r| == |s|
  {
    if s == [] then [] else Insert(s[0], SortByLastMod(s[1..]))
  }

  predicate SortedByLastMod(s: seq<Project>)
  {
    forall i, j :: 0 <= i < j < |s| ==> s[i].lastMod <= s[j].lastMod
  }

  /** The records of `s` modified at time `t`, in their order in `s`. */
  function WithLastMod(s: seq<Project>, t: int): seq<Project>
  {
    if s == [] then []
    else (if s[0].lastMod == t then [s[0]] else []) + WithLastMod(s[1..], t)
  }

  /** Every record of `s` is modified no earlier than `t`. */
  predicate NotBefore(s: seq<Project>, t: int)
  {
    forall i :: 0 <= i < |s| ==> t <= s[i].lastMod
  }

  lemma {:induction false} InsertNotBefore(p: Project, s: seq<Project>, t: int)
    requires t <= p.lastMod && NotBefore(s, t)
    ensures NotBefore(Insert(p, s), t)
  {
    if s != [] && p.lastMod > s[0].lastMod {
      var r := Insert(p, s[1..]);
      InsertNotBefore(p, s[1..], t);
      assert forall i :: 1 <= i < |r| + 1 ==> ([s[0]] + r)[i] == r[i - 1];
    }
  }

  lemma {:induction false} InsertSorted(p: Project, s: seq<Project>)
    requires SortedByLastMod(s)
    ensures SortedByLastMod(Insert(p, s))
  {
    if s != [] && p.lastMod > s[0].lastMod {
      var r := Insert(p, s[1..]);
      InsertSorted(p, s[1..]);
      InsertNotBefore(p, s[1..], s[0].lastMod);
      var q := [s[0]] + r;
      forall i, j | 0 <= i < j < |q| ensures q[i].lastMod <= q[j].lastMod {
        assert q[j] == r[j - 1];
        if i > 0 {
          assert q[i] == r[i - 1];
        }
      }
    } else {
      var q := [p] + s;
      forall i, j | 0 <= i < j < |q| ensures q[i].lastMod <= q[j].lastMod {
        assert q[j] == s[j - 1];
        if i > 0 {
          assert q[i] == s[i - 1];
        }
      }
    }
  }

  lemma {:induction false} InsertPermutes(p: Project, s: seq<Project>)
    ensures multiset(Insert(p, s)) == multiset(s) + multiset{p}
  {
    if s != [] && p.lastMod > s[0].lastMod {
      InsertPermutes(p, s[1..]);
      assert s == [s[0]] + s[1..];
      assert multiset([s[0]] + Insert(p, s[1..])) == multiset{s[0]} + multiset(Insert(p, s[1..]));
    }
  }

  /** Among records with equal times, the inserted one comes first. */
  lemma {:induction false} InsertStable(p: Project, s: seq<Project>, t: int)
    ensures WithLastMod(Insert(p, s), t) == (if p.lastMod == t then [p] else []) + WithLastMod(s, t)
  {
    if s != [] && p.lastMod > s[0].lastMod {
      var r := Insert(p, s[1..]);
      InsertStable(p, s[1..], t);
      var q := [s[0]] + r;
      assert q[0] == s[0] && q[1..] == r;
      assert WithLastMod(q, t) == (if s[0].lastMod == t then [s[0]] else []) + WithLastMod(r, t);
      assert WithLastMod(s, t) == (if s[0].lastMod == t then [s[0]] else []) + WithLastMod(s[1..], t);
    } else {
      var q := [p] + s;
      assert q[0] == p && q[1..] == s;
      assert WithLastMod(q, t) == (if p.lastMod == t then [p] else []) + WithLastMod(s, t);
    }
  }

  /** The sorted list is ordered by time and is a permutation of the input. */
  lemma {:induction false} SortSortsAndPermutes(s: seq<Project>)
    ensures SortedByLastMod(SortByLastMod(s))
    ensures multiset(SortByLastMod(s)) == multiset(s)
  {
    if s != [] {
      SortSortsAndPermutes(s[1..]);
      InsertSorted(s[0], SortByLastMod(s[1..]));
      InsertPermutes(s[0], SortByLastMod(s[1..]));
      assert s == [s[0]] + s[1..];
    }
  }

  /** The sort is stable: for every time `t`, the records modified at `t`
      keep the order they had in the input. */
  lemma {:induction false} SortIsStable(s: seq<Project>, t: int)
    ensures WithLastMod(SortByLastMod(s), t) == WithLastMod(s, t)
  {
    if s != [] {
      SortIsStable(s[1..], t);
      InsertStable(s[0], SortByLastMod(s[1..]), t);
    }
  }

  // -----------------------------------------------------------------------
  // The numbering loop of `read_projects`

  /** Every record's `count` is its position plus one, so the counts are 1..n. */
  predicate CountsArePositions(s: seq<Project>)
  {
    forall i :: 0 <= i < |s| ==> s[i].count == i + 1
  }

  /** The records with their `count` cleared. */
  function Unnumbered(s: seq<Project>): (r: seq<Project>)
    ensures |r| == |s|
    ensures forall i :: 0 <= i < |s| ==> r[i] == s[i].(count := 0)
  {
    seq(|s|, i requires 0 <= i < |s| => s[i].(count := 0))
  }

  // -----------------------------------------------------------------------
  // The `all(...)` test of `search_projects`

  /** Every search term occurs in `name`, both case-folded. */
  function MatchesAll(name: string, terms: seq<string>): bool
  {
    terms == [] || (Contains(Fold(name), Fold(terms[0])) && MatchesAll(name, terms[1..]))
  }

  /** The match is the conjunction over the terms: each term, case-folded,
      is a substring of the case-folded name. */
  lemma {:induction false} MatchesAllIff(name: string, terms: seq<string>)
    ensures MatchesAll(name, terms) <==>
      forall k :: 0 <= k < |terms| ==> Contains(Fold(name), Fold(terms[k]))
  {
    if terms != [] {
      MatchesAllIff(name, terms[1..]);
      assert forall k :: 1 <= k < |terms| ==> terms[k] == terms[1..][k - 1];
    }
  }

  /** Searching for more terms matches exactly the names that match both
      lists: adding terms can only narrow a search. */
  lemma {:induction false} MatchesAllAppend(name: string, terms: seq<string>, more: seq<string>)
    ensures MatchesAll(name, terms + more) <==> MatchesAll(name, terms) && MatchesAll(name, more)
  {
    if terms != [] {
      assert (terms + more)[0] == terms[0] && (terms + more)[1..] == terms[1..] + more;
      MatchesAllAppend(name, terms[1..], more);
    } else {
      assert terms + more == more;
    }
  }

  /** Term lists that agree up to case match the same names, and so do
      names that agree up to case. */
  lemma {:induction false} MatchesAllIgnoresCase(name: string, name': string, terms: seq<string>, terms': seq<string>)
    requires Fold(name) == Fold(name')
    requires |terms| == |terms'| && forall k :: 0 <= k < |terms| ==> Fold(terms[k]) == Fold(terms'[k])
    ensures MatchesAll(name, terms) == MatchesAll(name', terms')
  {
    if terms != [] {
      assert forall k :: 0 <= k < |terms| - 1 ==> terms[1..][k] == terms[k + 1] && terms'[1..][k] == terms'[k + 1];
      MatchesAllIgnoresCase(name, name', terms[1..], terms'[1..]);
    }
  }

  /** The terms, each case-folded. */
  function FoldAll(terms: seq<string>): (r: seq<string>)
    ensures |r| == |terms| && forall k :: 0 <= k < |terms| ==> r[k] == Fold(terms[k])
  {
    seq(|terms|, k requires 0 <= k < |terms| => Fold(terms[k]))
  }

  /** Searching for the case-folded terms finds exactly what searching for
      the terms as typed finds. */
  lemma MatchesFoldedTerms(name: string, terms: seq<string>)
    ensures MatchesAll(name, FoldAll(terms)) == MatchesAll(name, terms)
  {
    var folded := FoldAll(terms);
    forall k | 0 <= k < |terms| ensures Fold(terms[k]) == Fold(folded[k]) {
      FoldIdempotent(terms[k]);
    }
    MatchesAllIgnoresCase(name, name, terms, folded);
  }

  // -----------------------------------------------------------------------
  // The "TD" column and the to-do list

  /** The third column of the listing: "TD" when the record has a
      non-empty to-do text, "" otherwise (including when the key is absent). */
  function TodoFlag(p: Project): (td: string)
    ensures td == "TD" || td == ""
    ensures td == "TD" <==> p.todo.Some? && |p.todo.value| > 0
  {
    if p.todo.Some? && |p.todo.value| > 0 then "TD" else ""
  }

  /** The records that appear in the to-do list, in collection order. */
  function WithTodo(s: seq<Project>): seq<Project>
  {
    if s == [] then []
    else (if TodoFlag(s[0]) == "TD" then [s[0]] else []) + WithTodo(s[1..])
  }

  /** The heading that opens the to-do list. */
  const TodoListHeader: string := "# To do list"

  /** The section of the to-do list for one record:
      "\n\n## [count] name\n\ntodo". */
  function Section(p: Project): string
    requires p.todo.Some?
  {
    "\n\n## [" + Decimal(p.count) + "] " + p.name + "\n\n" + p.todo.value
  }

  predicate AllHaveTodo(s: seq<Project>)
  {
    forall i :: 0 <= i < |s| ==> s[i].todo.Some?
  }

  /** The sections of the records `s`, one after another. */
  function Sections(s: seq<Project>): string
    requires AllHaveTodo(s)
  {
    if s == [] then "" else Section(s[0]) + Sections(s[1..])
  }

  lemma {:induction false} WithTodoSnoc(s: seq<Project>, p: Project)
    ensures WithTodo(s + [p]) == WithTodo(s) + (if TodoFlag(p) == "TD" then [p] else [])
  {
    if s == [] {
      assert [p][1..] == [];
    } else {
      assert (s + [p])[0] == s[0] && (s + [p])[1..] == s[1..] + [p];
      WithTodoSnoc(s[1..], p);
    }
  }

  lemma {:induction false} SectionsAppend(s: seq<Project>, t: seq<Project>)
    requires AllHaveTodo(s) && AllHaveTodo(t)
    ensures AllHaveTodo(s + t)
    ensures Sections(s + t) == Sections(s) + Sections(t)
  {
    if s == [] {
      assert s + t == t;
    } else {
      assert (s + t)[0] == s[0] && (s + t)[1..] == s[1..] + t;
      SectionsAppend(s[1..], t);
    }
  }

  lemma {:induction false} WithTodoHasTodo(s: seq<Project>)
    ensures AllHaveTodo(WithTodo(s))
  {
    if s != [] {
      WithTodoHasTodo(s[1..]);
    }
  }

  /** The whole to-do list text for the records `s`. */
  function TodoList(s: seq<Project>): string
  {
    WithTodoHasTodo(s);
    TodoListHeader + Sections(WithTodo(s))
  }

  /** Appending a record appends its section exactly when it is flagged "TD". */
  lemma {:induction false} TodoListSnoc(s: seq<Project>, p: Project)
    ensures TodoFlag(p) == "TD" ==> TodoList(s + [p]) == TodoList(s) + Section(p)
    ensures TodoFlag(p) != "TD" ==> TodoList(s + [p]) == TodoList(s)
  {
    WithTodoSnoc(s, p);
    WithTodoHasTodo(s);
    WithTodoHasTodo(s + [p]);
    var w := WithTodo(s);
    if TodoFlag(p) == "TD" {
      assert WithTodo(s + [p]) == w + [p];
      SectionsAppend(w, [p]);
      assert Sections([p]) == Section(p) + Sections([]);
      calc {
        TodoList(s + [p]);
        TodoListHeader + Sections(w + [p]);
        TodoListHeader + (Sections(w) + Section(p));
        TodoList(s) + Section(p);
      }
    } else {
      assert WithTodo(s + [p]) == w + [] == w;
    }
  }

  /** A record is in the to-do list exactly when the listing flags it "TD". */
  lemma {:induction false} TodoListMatchesFlag(s: seq<Project>)
    ensures forall p :: p in WithTodo(s) <==> p in s && TodoFlag(p) == "TD"
    ensures |WithTodo(s)| <= |s|
    ensures AllHaveTodo(WithTodo(s))
  {
    if s != [] {
      TodoListMatchesFlag(s[1..]);
      assert s == [s[0]] + s[1..];
    }
  }
}
