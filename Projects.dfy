/** The `Projects` object: the collection of project records it keeps in
    `projs`, rebuilt by `ReadProjects`, and the operations that read it
    (search and the to-do list). */
module Projects {
  import opened Wrappers
  import opened Text
  import opened ProjectFile
  import opened Collection

  /** Every directory's `project.md` reads without an error. */
  predicate AllParse(dirs: seq<ProjectDir>)
  {
    forall i :: 0 <= i < |dirs| ==> ParseProjFile(dirs[i].text).Ok?
  }

  /** The records in the order the directory walk found them, before sorting. */
  function Scanned(dirs: seq<ProjectDir>): (s: seq<Project>)
    requires AllParse(dirs)
    ensures |s| == |dirs|
    ensures forall i :: 0 <= i < |dirs| ==> s[i] == Record(ParseProjFile(dirs[i].text).value, dirs[i])
  {
    seq(|dirs|, i requires 0 <= i < |dirs| => Record(ParseProjFile(dirs[i].text).value, dirs[i]))
  }

  /** Directory `i` is the first whose `project.md` fails to read, with error `e`. */
  predicate FirstFailure(dirs: seq<ProjectDir>, i: int, e: ParseError)
  {
    0 <= i < |dirs| && ParseProjFile(dirs[i].text) == Err(e)
    && forall j :: 0 <= j < i ==> ParseProjFile(dirs[j].text).Ok?
  }

  class Projects {
    /** The tracked root directory. */
    const path: string
    /** The project records, as last read by `ReadProjects`. */
    var projs: seq<Project>

    constructor (path: string)
      ensures this.path == path && projs == []
    {
      this.path := path;
      projs := [];
    }

    /** `read_projects` given what the directory walk found: each file is
        read, the records are stable-sorted by `last_mod` and numbered from 1.
        A file that fails to read aborts the whole call with its error and
        leaves `projs` as it was. */
    method ReadProjects(dirs: seq<ProjectDir>) returns (r: Result<seq<Project>, ParseError>)
      modifies this
      ensures r.Ok? <==> AllParse(dirs)
      ensures r.Err? ==> projs == old(projs) && exists i :: FirstFailure(dirs, i, r.error)
      ensures r.Ok? ==> projs == r.value && |projs| == |dirs|
      ensures r.Ok? ==> SortedByLastMod(projs) && CountsArePositions(projs)
      ensures r.Ok? ==> multiset(Unnumbered(projs)) == multiset(Scanned(dirs))
      ensures r.Ok? ==> forall t :: WithLastMod(Unnumbered(projs), t) == WithLastMod(Scanned(dirs), t)
    {
      var found := ReadAll(dirs);
      if found.Err? {
        r := Err(found.error);
        return;
      }
      var sorted := SortByLastMod(found.value);
      SortSortsAndPermutes(found.value);
      SortKeepsCounts(found.value);
      var numbered := NumberFrom1(sorted);
      assert Unnumbered(numbered) == sorted;
      projs := numbered;
      r := Ok(numbered);
      forall t ensures WithLastMod(Unnumbered(projs), t) == WithLastMod(Scanned(dirs), t) {
        SortIsStable(found.value, t);
      }
    }

    /** `search_projects`: the positions, in increasing order, of the
        records whose name contains every search term, ignoring case. */
    method SearchProjects(search: seq<string>) returns (found: seq<nat>)
      ensures forall k :: 0 <= k < |found| ==> found[k] < |projs|
      ensures forall k, m :: 0 <= k < m < |found| ==> found[k] < found[m]
      ensures forall c :: 0 <= c < |projs| ==> (c in found <==> MatchesAll(projs[c].name, search))
    {
      found := [];
      for c := 0 to |projs|
        invariant forall k :: 0 <= k < |found| ==> found[k] < c
        invariant forall k, m :: 0 <= k < m < |found| ==> found[k] < found[m]
        invariant forall d :: 0 <= d < c ==> (d in found <==> MatchesAll(projs[d].name, search))
      {
        if MatchesAll(projs[c].name, search) {
          found := found + [c];
        }
      }
    }

    /** The markdown text `print_todos` renders: the header, then one
        section for each record with a non-empty to-do text, in collection
        order. */
    method PrintTodos() returns (md: string)
      ensures md == TodoList(projs)
    {
      md := TodoListHeader;
      assert WithTodo(projs[..0]) == [];
      for i := 0 to |projs|
        invariant md == TodoList(projs[..i])
      {
        var p := projs[i];
        assert projs[..i + 1] == projs[..i] + [p];
        TodoListSnoc(projs[..i], p);
        if p.todo.Some? && |p.todo.value| > 0 {
          var section := "\n\n## [" + Decimal(p.count) + "] " + p.name + "\n\n" + p.todo.value;
          assert section == Section(p);
          md := md + section;
        }
      }
      assert projs[..|projs|] == projs;
    }
  }

  /** The loop of `read_projects` over the directories the walk found:
      each `project.md` is read in turn; the first one that fails ends the
      loop with its error. */
  method ReadAll(dirs: seq<ProjectDir>) returns (r: Result<seq<Project>, ParseError>)
    ensures r.Ok? <==> AllParse(dirs)
    ensures r.Ok? ==> r.value == Scanned(dirs)
    ensures r.Err? ==> exists i :: FirstFailure(dirs, i, r.error)
  {
    var found: seq<Project> := [];
    for i := 0 to |dirs|
      invariant forall j :: 0 <= j < i ==> ParseProjFile(dirs[j].text).Ok?
      invariant |found| == i
      invariant forall j :: 0 <= j < i ==> found[j] == Record(ParseProjFile(dirs[j].text).value, dirs[j])
    {
      var f := ReadProjFile(dirs[i].text);
      if f.Err? {
        r := Err(f.error);
        assert FirstFailure(dirs, i, f.error);
        return;
      }
      found := found + [Record(f.value, dirs[i])];
    }
    r := Ok(found);
  }

  /** The numbering loop: `count` runs 1, 2, ... and is stored in each record in turn. */
  method NumberFrom1(sorted: seq<Project>) returns (numbered: seq<Project>)
    ensures |numbered| == |sorted| && CountsArePositions(numbered)
    ensures forall j :: 0 <= j < |sorted| ==> numbered[j] == sorted[j].(count := j + 1)
  {
    numbered := sorted;
    var count := 0;
    for c := 0 to |sorted|
      invariant count == c && |numbered| == |sorted|
      invariant forall j :: 0 <= j < c ==> numbered[j] == sorted[j].(count := j + 1)
      invariant forall j :: c <= j < |sorted| ==> numbered[j] == sorted[j]
    {
      count := count + 1;
      numbered := numbered[c := numbered[c].(count := count)];
    }
  }

  /** The records found by the walk all carry `count` 0, and sorting keeps that. */
  lemma {:induction false} SortKeepsCounts(s: seq<Project>)
    requires forall i :: 0 <= i < |s| ==> s[i].count == 0
    ensures forall i :: 0 <= i < |SortByLastMod(s)| ==> SortByLastMod(s)[i].count == 0
  {
    SortSortsAndPermutes(s);
    forall i | 0 <= i < |SortByLastMod(s)| ensures SortByLastMod(s)[i].count == 0 {
      var x := SortByLastMod(s)[i];
      assert x in multiset(SortByLastMod(s));
      assert x in multiset(s);
    }
  }
}
