/** The project-file reader: the text of one `project.md` becomes a record
    holding the project's name, its labelled fields (`state`, `status`,
    `collabs`) and, when there is a "to do" section, its to-do text.

    `ScanLines` is the line-by-line reading as a fold over the lines;
    `ReadProjFile` is the same reading with the loops of `read_proj_file` and is
    proved equal to it.  The lemmas then say what the fold computes without
    referring to the fold: `Outline` (each heading with the body lines that
    follow it), `LabelValue` (the last line that sets a label) and
    `WellFormed` (when the line loop raises no IndexError). */
module ProjectFile {
  import opened Wrappers
  import opened Text

  /** The only labels that are extracted from body lines. */
  const Keywords: seq<string> := ["state", "status", "collabs"]

  /** The case-folded title of the heading whose body is the to-do text. */
  const TodoTitle: string := "to do"

  /** One entry of the heading list: level, trimmed title, trimmed body lines. */
  datatype Heading = Heading(level: nat, title: string, body: seq<string>)

  /** The IndexErrors the reader can raise, with the index of the offending line. */
  datatype ParseError =
    | HashOnlyHeading(line: nat)     // a line made only of '#': `line[0]` on ""
    | BodyBeforeHeading(line: nat)   // a body line with no heading yet: `tree[-1]`
    | NoHeading                      // no heading at all: `tree[0]`

  /** The dictionary built for one project file. `todo` is None when the key is absent. */
  datatype ProjFile = ProjFile(name: string, fields: map<string, string>, todo: Option<string>)

  predicate IsHeadingLine(line: string)
  {
    |line| > 0 && line[0] == '#'
  }

  predicate IsBodyLine(line: string)
  {
    |line| > 0 && line[0] != '#'
  }

  /** The number of leading '#' characters of `line`. */
  function HashRun(line: string): (n: nat)
    ensures n <= |line|
    ensures forall i :: 0 <= i < n ==> line[i] == '#'
    ensures n < |line| ==> line[n] != '#'
  {
    if |line| > 0 && line[0] == '#' then 1 + HashRun(line[1..]) else 0
  }

  /** The title of a heading line: what follows the run of '#', trimmed. */
  function HeadingTitle(line: string): string
  {
    Strip(line[HashRun(line)..])
  }

  /** The bold label a body line must contain, after case folding, to set `kw`. */
  function Label(kw: string): string
  {
    "**" + kw + ":**"
  }

  predicate SetsKeyword(line: string, kw: string)
  {
    Contains(Fold(line), Label(kw))
  }

  /** Python's `s[k:]` for `k >= 0`: empty when `k` is past the end. */
  function SliceFrom(s: string, k: nat): string
  {
    if k <= |s| then s[k..] else []
  }

  /** The value stored for `kw`: `line[5+len(kw):].strip()`, an offset fixed
      by the label's length and not by where the label was found. */
  function KeywordValue(line: string, kw: string): string
  {
    Strip(SliceFrom(line, 5 + |kw|))
  }

  /** When the line opens with the label (in any case), the value is
      exactly what follows the label, trimmed. */
  lemma LabelAtStart(line: string, kw: string)
    requires |Label(kw)| <= |line| && Fold(line[..|Label(kw)|]) == Label(kw)
    ensures SetsKeyword(line, kw)
    ensures KeywordValue(line, kw) == Strip(line[|Label(kw)|..])
  {
    var n := |Label(kw)|;
    assert Fold(line)[0..n] == Fold(line[..n]);
    assert OccursAt(Fold(line), Label(kw), 0);
  }

  /** A label found at position `i` of the folded line sets the keyword,
      but the value is always trimmed from the text after the cut at the
      label's length `n`, wherever the label was found.  When `i <= n` that
      text is the last `i` characters of the label as written, then the
      text after the label; when `i >= n` it still holds the whole label. */
  lemma LabelAt(line: string, kw: string, i: nat)
    requires OccursAt(Fold(line), Label(kw), i)
    ensures SetsKeyword(line, kw)
    ensures KeywordValue(line, kw) == Strip(SliceFrom(line, |Label(kw)|))
    ensures var n := |Label(kw)|;
      i <= n ==>
        && Fold(line[n..i + n]) == Label(kw)[n - i..]
        && SliceFrom(line, n) == line[n..i + n] + line[i + n..]
    ensures var n := |Label(kw)|;
      n <= i ==> OccursAt(Fold(SliceFrom(line, n)), Label(kw), i - n)
  {
    var lbl := Label(kw);
    assert |lbl| == 5 + |kw|;
    if i <= |lbl| {
      LabelAtBefore(line, lbl, i);
    } else {
      LabelPastCut(line, lbl, i);
    }
  }

  /** A label found at `i <= |lbl|`: the text after the cut is the label's
      last `i` characters as written, then the text after the label. */
  lemma LabelAtBefore(line: string, lbl: string, i: nat)
    requires OccursAt(Fold(line), lbl, i) && i <= |lbl|
    ensures Fold(line[|lbl|..i + |lbl|]) == lbl[|lbl| - i..]
    ensures SliceFrom(line, |lbl|) == line[|lbl|..i + |lbl|] + line[i + |lbl|..]
  {
    LabelTail(line, lbl, i);
    assert line[|lbl|..] == line[|lbl|..i + |lbl|] + line[i + |lbl|..];
  }

  /** The characters from the cut `|lbl|` to the end of a label found at `i <= |lbl|`
      fold to the label's last `i` characters. */
  lemma LabelTail(line: string, lbl: string, i: nat)
    requires OccursAt(Fold(line), lbl, i) && i <= |lbl|
    ensures Fold(line[|lbl|..i + |lbl|]) == lbl[|lbl| - i..]
  {
    var n := |lbl|;
    var f := Fold(line);
    var t := line[n..i + n];
    assert f[i..i + n] == lbl;
    forall k | 0 <= k < i ensures Fold(t)[k] == lbl[n - i + k] {
      assert t[k] == line[n + k];
      assert f[n + k] == f[i..i + n][n - i + k];
    }
  }

  /** A label found at `i >= |lbl|` lies wholly after the cut. */
  lemma LabelPastCut(line: string, lbl: string, i: nat)
    requires OccursAt(Fold(line), lbl, i) && |lbl| <= i
    ensures OccursAt(Fold(line[|lbl|..]), lbl, i - |lbl|)
  {
    var n := |lbl|;
    var f := Fold(line);
    var g := Fold(line[n..]);
    assert f[i..i + n] == lbl;
    forall k | 0 <= k < n ensures g[i - n + k] == lbl[k] {
      assert line[n..][i - n + k] == line[i + k];
      assert f[i + k] == f[i..i + n][k];
    }
    assert g[i - n..i] == lbl;
  }

  /** An example of `LabelAt`: a label is recognised after a bullet. */
  lemma BulletedLabelMatches()
    ensures SetsKeyword("- **State:** done", "state")
  {
    var line := "- **State:** done";
    assert Fold(line)[2..12] == "**state:**";
    assert OccursAt(Fold(line), Label("state"), 2);
  }

  /** An example of `LabelAt` with `i == 2`: on a bulleted line the value
      keeps the label's two closing asterisks. */
  lemma BulletedLabelValue()
    ensures KeywordValue("- **State:** done", "state") == "** done"
  {
    var v := "** done";
    assert SliceFrom("- **State:** done", 10) == v;
    assert !IsSpace(v[0]) && !IsSpace(v[|v| - 1]);
    StripUnchanged(v);
  }

  function Lookup(m: map<string, string>, k: string): Option<string>
  {
    if k in m then Some(m[k]) else None
  }

  /** The keyword loop for one body line, over the keywords `kws` in order. */
  function SetKeywords(fields: map<string, string>, line: string, kws: seq<string>): (r: map<string, string>)
    ensures forall k :: k in r ==> k in fields || k in kws
    ensures forall k {:trigger Lookup(r, k)} ::
      Lookup(r, k) == if k in kws && SetsKeyword(line, k) then Some(KeywordValue(line, k)) else Lookup(fields, k)
    decreases kws
  {
    if kws == [] then fields
    else
      var f := if SetsKeyword(line, kws[0]) then fields[kws[0] := KeywordValue(line, kws[0])] else fields;
      assert forall k :: k in kws <==> k == kws[0] || k in kws[1..];
      SetKeywords(f, line, kws[1..])
  }

  /** What the reader holds between lines: the heading list and the dictionary. */
  datatype ScanState = ScanState(tree: seq<Heading>, fields: map<string, string>)

  /** The effect of line number `i` on the reader's state. */
  function Step(st: ScanState, line: string, i: nat): Result<ScanState, ParseError>
  {
    if |line| == 0 then Ok(st)
    else if line[0] == '#' then
      var n := HashRun(line);
      if n == |line| then Err(HashOnlyHeading(i))
      else Ok(st.(tree := st.tree + [Heading(n, Strip(line[n..]), [])]))
    else if st.tree == [] then Err(BodyBeforeHeading(i))
    else
      var last := st.tree[|st.tree| - 1];
      Ok(ScanState(st.tree[..|st.tree| - 1] + [last.(body := last.body + [Strip(line)])],
                   SetKeywords(st.fields, line, Keywords)))
  }

  /** The reader's state after the lines `lines`, or the first error. */
  function ScanLines(lines: seq<string>): Result<ScanState, ParseError>
  {
    if lines == [] then Ok(ScanState([], map[]))
    else
      match ScanLines(lines[..|lines| - 1])
      case Err(e) => Err(e)
      case Ok(st) => Step(st, lines[|lines| - 1], |lines| - 1)
  }

  predicate IsTodoHeading(h: Heading)
  {
    Fold(h.title) == TodoTitle
  }

  /** The to-do text chosen by the second loop: the last "to do" heading wins. */
  function TodoOf(tree: seq<Heading>): Option<string>
  {
    if tree == [] then None
    else if IsTodoHeading(tree[|tree| - 1]) then Some(JoinLines(tree[|tree| - 1].body))
    else TodoOf(tree[..|tree| - 1])
  }

  /** The record once every line is read. */
  function Finish(st: ScanState): Result<ProjFile, ParseError>
  {
    if st.tree == [] then Err(NoHeading)
    else Ok(ProjFile(st.tree[0].title, st.fields, TodoOf(st.tree)))
  }

  /** The outcome of reading a project file with text `text`. */
  function ParseProjFile(text: string): Result<ProjFile, ParseError>
  {
    match ScanLines(SplitLines(text))
    case Err(e) => Err(e)
    case Ok(st) => Finish(st)
  }

  /** `read_proj_file` on the file's text: the loop over the lines, then
      the loop over the heading list that picks the to-do text. */
  method ReadProjFile(text: string) returns (r: Result<ProjFile, ParseError>)
    ensures r == ParseProjFile(text)
  {
    var lines := SplitLines(text);
    var tree: seq<Heading> := [];
    var proj: map<string, string> := map[];
    for i := 0 to |lines|
      invariant ScanLines(lines[..i]) == Ok(ScanState(tree, proj))
    {
      assert lines[..i + 1] == lines[..i] + [lines[i]];
      assert lines[..i + 1][..i] == lines[..i];
      ghost var st := ScanState(tree, proj);
      var line := lines[i];
      if |line| > 0 {
        if line[0] == '#' {
          var l, rest := CountHashes(line);
          if |rest| == 0 {
            // `line[0]` on the emptied line raises IndexError
            r := Err(HashOnlyHeading(i));
            ScanErrorSticks(lines, i + 1);
            return;
          }
          tree := tree + [Heading(l, Strip(rest), [])];
        } else {
          if tree == [] {
            // `tree[-1]` on the empty heading list raises IndexError
            r := Err(BodyBeforeHeading(i));
            ScanErrorSticks(lines, i + 1);
            return;
          }
          var last := tree[|tree| - 1];
          tree := tree[..|tree| - 1] + [last.(body := last.body + [Strip(line)])];
          proj := SetLabels(proj, line);
        }
      }
      assert Step(st, line, i) == Ok(ScanState(tree, proj));
    }
    assert lines[..|lines|] == lines;
    var todo := PickTodo(tree);
    if tree == [] {
      // `tree[0]` on the empty heading list raises IndexError
      r := Err(NoHeading);
      return;
    }
    r := Ok(ProjFile(tree[0].title, proj, todo));
  }

  /** The `while line[0] == '#'` loop, stopped before it would index an
      empty line: the level is the length of the '#' run and `rest` what follows. */
  method CountHashes(line: string) returns (level: nat, rest: string)
    ensures level == HashRun(line) && rest == line[level..]
  {
    level, rest := 0, line;
    while |rest| > 0 && rest[0] == '#'
      invariant level <= |line| && rest == line[level..]
      invariant forall k :: 0 <= k < level ==> line[k] == '#'
      decreases |rest|
    {
      level := level + 1;
      rest := rest[1..];
    }
  }

  /** The `for kw in kws` loop on one body line. */
  method SetLabels(proj: map<string, string>, line: string) returns (proj': map<string, string>)
    ensures proj' == SetKeywords(proj, line, Keywords)
  {
    proj' := proj;
    for k := 0 to |Keywords|
      invariant SetKeywords(proj', line, Keywords[k..]) == SetKeywords(proj, line, Keywords)
    {
      assert Keywords[k..][1..] == Keywords[k + 1..];
      var kw := Keywords[k];
      if SetsKeyword(line, kw) {
        proj' := proj'[kw := KeywordValue(line, kw)];
      }
    }
  }

  /** The `for s in tree` loop: the to-do text is taken from every heading
      titled "to do", so the last one is kept. */
  method PickTodo(tree: seq<Heading>) returns (todo: Option<string>)
    ensures todo == TodoOf(tree)
  {
    todo := None;
    for j := 0 to |tree|
      invariant todo == TodoOf(tree[..j])
    {
      assert tree[..j + 1][..j] == tree[..j];
      if Fold(tree[j].title) == TodoTitle {
        todo := Some(JoinLines(tree[j].body));
      }
    }
    assert tree[..|tree|] == tree;
  }

  /** Once a prefix of the lines raised an error, the whole reading raises it. */
  lemma {:induction false} ScanErrorSticks(lines: seq<string>, j: nat)
    requires j <= |lines| && ScanLines(lines[..j]).Err?
    ensures ScanLines(lines) == ScanLines(lines[..j])
    decreases |lines| - j
  {
    if j < |lines| {
      assert lines[..j + 1][..j] == lines[..j];
      ScanErrorSticks(lines, j + 1);
    } else {
      assert lines[..j] == lines;
    }
  }

  // ---------------------------------------------------------------------
  // What the reading computes, stated without the fold.

  /** No line of `ls` is a heading line. */
  predicate NoHeadingLine(ls: seq<string>)
  {
    forall j :: 0 <= j < |ls| ==> !IsHeadingLine(ls[j])
  }

  lemma NoHeadingLineCons(ls: seq<string>)
    requires ls != []
    ensures NoHeadingLine(ls) <==> !IsHeadingLine(ls[0]) && NoHeadingLine(ls[1..])
  {
    if !IsHeadingLine(ls[0]) && NoHeadingLine(ls[1..]) {
      forall j | 0 < j < |ls| ensures !IsHeadingLine(ls[j]) {
        assert ls[j] == ls[1..][j - 1];
      }
    }
  }

  /** The trimmed form of `l` when it is a body line, as a list of zero or one lines. */
  function BodyPart(l: string): seq<string>
  {
    if IsBodyLine(l) then [Strip(l)] else []
  }

  /** The trimmed body lines of `ls` up to the first heading line. */
  function BodyUntilHeading(ls: seq<string>): seq<string>
  {
    if ls == [] || IsHeadingLine(ls[0]) then []
    else BodyPart(ls[0]) + BodyUntilHeading(ls[1..])
  }

  /** Every heading line of `ls`, in order, with its level, its title and
      the body lines that follow it up to the next heading line. */
  function Outline(ls: seq<string>): seq<Heading>
  {
    if ls == [] then []
    else if IsHeadingLine(ls[0]) then
      [Heading(HashRun(ls[0]), HeadingTitle(ls[0]), BodyUntilHeading(ls[1..]))] + Outline(ls[1..])
    else Outline(ls[1..])
  }

  lemma {:induction false} BodyUntilHeadingSnoc(ls: seq<string>, l: string)
    ensures NoHeadingLine(ls) ==> BodyUntilHeading(ls + [l]) == BodyUntilHeading(ls) + BodyPart(l)
    ensures !NoHeadingLine(ls) ==> BodyUntilHeading(ls + [l]) == BodyUntilHeading(ls)
  {
    if ls == [] {
      assert [l][1..] == [];
    } else {
      assert (ls + [l])[0] == ls[0] && (ls + [l])[1..] == ls[1..] + [l];
      BodyUntilHeadingSnoc(ls[1..], l);
      NoHeadingLineCons(ls);
    }
  }

  lemma {:induction false} OutlineEmpty(ls: seq<string>)
    ensures Outline(ls) == [] <==> NoHeadingLine(ls)
  {
    if ls != [] {
      OutlineEmpty(ls[1..]);
      NoHeadingLineCons(ls);
    }
  }

  /** The entry a heading line opens, before any body line joins it. */
  function OpenedBy(l: string): Heading
  {
    Heading(HashRun(l), HeadingTitle(l), [])
  }

  /** `o` with `extra` appended to the body of its last entry. */
  function ExtendLast(o: seq<Heading>, extra: seq<string>): seq<Heading>
    requires o != []
  {
    o[..|o| - 1] + [o[|o| - 1].(body := o[|o| - 1].body + extra)]
  }

  /** A heading line at the end opens a new, empty entry of the outline. */
  lemma {:induction false} OutlineSnocHeading(ls: seq<string>, l: string)
    requires IsHeadingLine(l)
    ensures Outline(ls + [l]) == Outline(ls) + [OpenedBy(l)]
  {
    if ls == [] {
      assert [l][1..] == [];
      assert Outline([l]) == [OpenedBy(l)];
    } else {
      var x, t := ls[0], ls[1..];
      assert (ls + [l])[0] == x && (ls + [l])[1..] == t + [l];
      OutlineSnocHeading(t, l);
      if IsHeadingLine(x) {
        BodyUntilHeadingSnoc(t, l);
        assert BodyUntilHeading(t + [l]) == BodyUntilHeading(t);
      }
    }
  }

  lemma ExtendLastCons(h: Heading, o: seq<Heading>, extra: seq<string>)
    requires o != []
    ensures ExtendLast([h] + o, extra) == [h] + ExtendLast(o, extra)
  {
    assert ([h] + o)[..|o|] == [h] + o[..|o| - 1];
  }

  /** Any other line at the end joins the body of the latest entry (an
      empty line adds nothing), or is dropped when there is no entry yet. */
  lemma {:induction false} OutlineSnocOther(ls: seq<string>, l: string)
    requires !IsHeadingLine(l)
    ensures Outline(ls + [l]) == if Outline(ls) == [] then [] else ExtendLast(Outline(ls), BodyPart(l))
  {
    if ls == [] {
      assert [l][1..] == [];
    } else {
      var x, t := ls[0], ls[1..];
      assert (ls + [l])[0] == x && (ls + [l])[1..] == t + [l];
      OutlineSnocOther(t, l);
      if IsHeadingLine(x) {
        OutlineSnocBelowHeading(x, t, l);
      }
    }
  }

  /** The step of `OutlineSnocOther` where the first line is a heading line. */
  lemma {:induction false} OutlineSnocBelowHeading(x: string, t: seq<string>, l: string)
    requires IsHeadingLine(x) && !IsHeadingLine(l)
    requires Outline(t + [l]) == if Outline(t) == [] then [] else ExtendLast(Outline(t), BodyPart(l))
    ensures [Heading(HashRun(x), HeadingTitle(x), BodyUntilHeading(t + [l]))] + Outline(t + [l])
      == ExtendLast([Heading(HashRun(x), HeadingTitle(x), BodyUntilHeading(t))] + Outline(t), BodyPart(l))
  {
    BodyUntilHeadingSnoc(t, l);
    OutlineEmpty(t);
    var h := Heading(HashRun(x), HeadingTitle(x), BodyUntilHeading(t));
    if Outline(t) != [] {
      ExtendLastCons(h, Outline(t), BodyPart(l));
    }
  }

  /** The last label line for `kw` among `ls`, read as `KeywordValue`. */
  function LabelValue(ls: seq<string>, kw: string): Option<string>
  {
    if ls == [] then None
    else
      var later := LabelValue(ls[1..], kw);
      if later.Some? then later
      else if IsBodyLine(ls[0]) && SetsKeyword(ls[0], kw) then Some(KeywordValue(ls[0], kw))
      else None
  }

  lemma {:induction false} LabelValueSnoc(ls: seq<string>, l: string, kw: string)
    ensures LabelValue(ls + [l], kw) ==
      if IsBodyLine(l) && SetsKeyword(l, kw) then Some(KeywordValue(l, kw)) else LabelValue(ls, kw)
  {
    if ls == [] {
      assert [l][1..] == [];
    } else {
      assert (ls + [l])[0] == ls[0] && (ls + [l])[1..] == ls[1..] + [l];
      LabelValueSnoc(ls[1..], l, kw);
    }
  }

  /** What one successful step does to the heading list, in the terms of `Outline`. */
  lemma StepTree(st: ScanState, l: string, i: nat)
    requires Step(st, l, i).Ok?
    ensures Step(st, l, i).value.tree ==
      if IsHeadingLine(l) then st.tree + [OpenedBy(l)]
      else if st.tree == [] then []
      else ExtendLast(st.tree, BodyPart(l))
  {
    if IsHeadingLine(l) {
      assert Strip(l[HashRun(l)..]) == HeadingTitle(l);
    } else if |l| == 0 && st.tree != [] {
      var o := st.tree;
      assert o[|o| - 1].(body := o[|o| - 1].body + []) == o[|o| - 1];
    }
  }

  /** A successful reading builds exactly the outline of the lines. */
  lemma {:induction false} ScanBuildsOutline(lines: seq<string>)
    requires ScanLines(lines).Ok?
    ensures ScanLines(lines).value.tree == Outline(lines)
  {
    if lines != [] {
      var p := lines[..|lines| - 1];
      var l := lines[|lines| - 1];
      var st := ScanLines(p).value;
      assert ScanLines(lines) == Step(st, l, |p|);
      ScanBuildsOutline(p);
      StepTree(st, l, |p|);
      if IsHeadingLine(l) {
        OutlineSnocHeading(p, l);
      } else {
        OutlineSnocOther(p, l);
      }
      assert lines == p + [l];
    }
  }

  /** What one successful step does to the dictionary: a body line runs the keyword loop. */
  lemma StepFields(st: ScanState, l: string, i: nat)
    requires Step(st, l, i).Ok?
    ensures Step(st, l, i).value.fields ==
      if IsBodyLine(l) then SetKeywords(st.fields, l, Keywords) else st.fields
  {
  }

  /** A successful reading keeps, for each keyword, the value of its last
      label line, and holds no other key. */
  lemma {:induction false} ScanKeepsLastLabel(lines: seq<string>)
    requires ScanLines(lines).Ok?
    ensures forall kw {:trigger Lookup(ScanLines(lines).value.fields, kw)} ::
      Lookup(ScanLines(lines).value.fields, kw) == if kw in Keywords then LabelValue(lines, kw) else None
  {
    if lines != [] {
      var p := lines[..|lines| - 1];
      var l := lines[|lines| - 1];
      assert lines == p + [l];
      ScanKeepsLastLabel(p);
      StepFields(ScanLines(p).value, l, |p|);
      forall kw ensures Lookup(ScanLines(lines).value.fields, kw) == if kw in Keywords then LabelValue(lines, kw) else None {
        LabelValueSnoc(p, l, kw);
      }
    }
  }

  /** Line `i` of `ls` raises no error: a heading line holds more than '#'
      characters, and a body line has some heading line before it. */
  predicate LineOk(ls: seq<string>, i: int)
    requires 0 <= i < |ls|
  {
    (IsHeadingLine(ls[i]) ==> HashRun(ls[i]) < |ls[i]|)
    && (IsBodyLine(ls[i]) ==> HeadingBefore(ls, i))
  }

  /** Some line before line `i` of `ls` is a heading line. */
  predicate HeadingBefore(ls: seq<string>, i: int)
  {
    exists j :: 0 <= j < i && j < |ls| && IsHeadingLine(ls[j])
  }

  predicate WellFormed(ls: seq<string>)
  {
    forall i :: 0 <= i < |ls| ==> LineOk(ls, i)
  }

  /** Whether a line is well formed depends only on the lines up to it. */
  lemma LineOkPrefix(ls: seq<string>, n: int, i: int)
    requires 0 <= i < n <= |ls|
    ensures LineOk(ls, i) <==> LineOk(ls[..n], i)
  {
    var p := ls[..n];
    assert p[i] == ls[i];
    if HeadingBefore(ls, i) {
      var j :| 0 <= j < i && j < |ls| && IsHeadingLine(ls[j]);
      assert p[j] == ls[j];
    }
    if HeadingBefore(p, i) {
      var j :| 0 <= j < i && j < |p| && IsHeadingLine(p[j]);
      assert p[j] == ls[j];
    }
  }

  lemma {:induction false} WellFormedSnoc(ls: seq<string>)
    requires ls != []
    ensures WellFormed(ls) <==> WellFormed(ls[..|ls| - 1]) && LineOk(ls, |ls| - 1)
  {
    var n := |ls| - 1;
    forall i | 0 <= i < n ensures LineOk(ls, i) <==> LineOk(ls[..n], i) {
      LineOkPrefix(ls, n, i);
    }
  }

  /** The line loop raises no IndexError exactly when every line is well formed. */
  lemma {:induction false} ScanOkIffWellFormed(lines: seq<string>)
    ensures ScanLines(lines).Ok? <==> WellFormed(lines)
  {
    if lines != [] {
      var p := lines[..|lines| - 1];
      ScanOkIffWellFormed(p);
      WellFormedSnoc(lines);
      if ScanLines(p).Ok? {
        ScanBuildsOutline(p);
        OutlineEmpty(p);
      }
    }
  }

  /** There is no to-do text exactly when no heading is titled "to do". */
  lemma {:induction false} TodoAbsentIffNoTodoHeading(tree: seq<Heading>)
    ensures TodoOf(tree) == None <==> forall k :: 0 <= k < |tree| ==> !IsTodoHeading(tree[k])
  {
    if tree != [] {
      var n := |tree| - 1;
      TodoAbsentIffNoTodoHeading(tree[..n]);
      assert forall k :: 0 <= k < n ==> tree[..n][k] == tree[k];
    }
  }

  /** Heading `k` is titled "to do" and no later heading is. */
  predicate LastTodoAt(tree: seq<Heading>, k: int)
  {
    0 <= k < |tree| && IsTodoHeading(tree[k])
    && forall j :: k < j < |tree| ==> !IsTodoHeading(tree[j])
  }

  /** The to-do text, when there is one, is the body of the last heading
      titled "to do" (after case folding), joined with newlines. */
  lemma {:induction false} TodoIsLastTodoSection(tree: seq<Heading>)
    requires TodoOf(tree).Some?
    ensures exists k :: LastTodoAt(tree, k) && TodoOf(tree).value == JoinLines(tree[k].body)
  {
    var n := |tree| - 1;
    if IsTodoHeading(tree[n]) {
      assert LastTodoAt(tree, n);
    } else {
      var t := tree[..n];
      TodoIsLastTodoSection(t);
      var k :| LastTodoAt(t, k) && TodoOf(t).value == JoinLines(t[k].body);
      assert t[k] == tree[k];
      forall j | k < j < |tree| ensures !IsTodoHeading(tree[j]) {
        if j < n {
          assert t[j] == tree[j];
        }
      }
      assert LastTodoAt(tree, k);
    }
  }

  /** Line `i` of `ls` is its first heading line. */
  predicate FirstHeadingAt(ls: seq<string>, i: int)
  {
    0 <= i < |ls| && IsHeadingLine(ls[i]) && forall j :: 0 <= j < i ==> !IsHeadingLine(ls[j])
  }

  /** Past a first line that is not a heading line, the first heading
      line of the rest is the first of the whole. */
  lemma FirstHeadingShift(ls: seq<string>, i: int)
    requires ls != [] && !IsHeadingLine(ls[0]) && FirstHeadingAt(ls[1..], i)
    ensures FirstHeadingAt(ls, i + 1) && ls[i + 1] == ls[1..][i]
  {
    forall j | 0 < j < i + 1 ensures !IsHeadingLine(ls[j]) {
      assert ls[j] == ls[1..][j - 1];
    }
  }

  /** The first entry of an outline comes from the first heading line. */
  lemma {:induction false} OutlineFirst(ls: seq<string>)
    requires !NoHeadingLine(ls)
    ensures Outline(ls) != []
    ensures exists i :: FirstHeadingAt(ls, i) && Outline(ls)[0].title == HeadingTitle(ls[i])
  {
    if IsHeadingLine(ls[0]) {
      assert FirstHeadingAt(ls, 0);
    } else {
      var t := ls[1..];
      NoHeadingLineCons(ls);
      OutlineFirst(t);
      var i :| FirstHeadingAt(t, i) && Outline(t)[0].title == HeadingTitle(t[i]);
      FirstHeadingShift(ls, i);
    }
  }

  /** What reading a project file yields, in terms of its lines: it fails
      exactly when some line is malformed or there is no heading at all; on
      success the name is the title of the first heading line, each keyword
      holds the value of its last label line, and the to-do text comes from
      the last "to do" section of the outline. */
  lemma ParseProjFileSpec(text: string)
    ensures var lines := SplitLines(text);
      && (ParseProjFile(text).Ok? <==> WellFormed(lines) && !NoHeadingLine(lines))
      && (ParseProjFile(text) == Err(NoHeading) <==> WellFormed(lines) && NoHeadingLine(lines))
    ensures var lines := SplitLines(text);
      ParseProjFile(text).Ok? ==>
        var p := ParseProjFile(text).value;
        && (exists i :: FirstHeadingAt(lines, i) && p.name == HeadingTitle(lines[i]))
        && (forall kw {:trigger Lookup(p.fields, kw)} ::
              Lookup(p.fields, kw) == if kw in Keywords then LabelValue(lines, kw) else None)
        && p.todo == TodoOf(Outline(lines))
  {
    var lines := SplitLines(text);
    ScanOkIffWellFormed(lines);
    if ScanLines(lines).Ok? {
      ScanBuildsOutline(lines);
      ScanKeepsLastLabel(lines);
      OutlineEmpty(lines);
      if !NoHeadingLine(lines) {
        OutlineFirst(lines);
      }
    } else {
      // an error raised while scanning is never NoHeading
      ScanErrorIsLineError(lines);
    }
  }

  lemma {:induction false} ScanErrorIsLineError(lines: seq<string>)
    ensures ScanLines(lines) != Err(NoHeading)
  {
    if lines != [] {
      ScanErrorIsLineError(lines[..|lines| - 1]);
    }
  }
}
