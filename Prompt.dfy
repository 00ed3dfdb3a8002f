/** The command prompt's own logic: which project a number selects for
    `expand` and `open`, and how an input line that is not a full command
    name is dispatched on its first letter. */
module Prompt {
  import opened Wrappers
  import opened Collection

  /** Python's `xs[i]` on a list of length `n`: the position it reads, or
      `None` where it raises `IndexError`.  Negative indices count from the
      end, so the position is `i` taken modulo `n`. */
  function PyIndex(i: int, n: nat): (r: Option<nat>)
    ensures r.Some? <==> -(n as int) <= i < n
    ensures r.Some? ==> r.value < n && r.value == i % n
  {
    if 0 <= i < n then Some(i)
    else if -(n as int) <= i < 0 then Some(i + n)
    else None
  }

  /** The `try` block of `expand` and `open`: `count` is what `int(inp)`
      gave (`None` when it raised) and the project shown or opened is
      `projs[count - 1]`.  Any exception prints "Not a valid number" and
      selects nothing. */
  function Select(count: Option<int>, projs: seq<Project>): (r: Option<nat>)
    ensures r.Some? <==> count.Some? && -|projs| + 1 <= count.value <= |projs|
    ensures r.Some? ==> r.value < |projs| && r.value == (count.value - 1) % |projs|
  {
    if count.None? then None else PyIndex(count.value - 1, |projs|)
  }

  /** Numbers 1..n select the projects as listed; 0 and the negative numbers
      down to -n+1 are accepted too and count back from the last project. */
  lemma SelectCountsBack(c: int, projs: seq<Project>)
    requires -|projs| + 1 <= c <= |projs|
    ensures 1 <= c ==> Select(Some(c), projs) == Some(c - 1)
    ensures c <= 0 ==> Select(Some(c), projs) == Some(|projs| - 1 + c)
  {
  }

  /** The one-letter commands. */
  datatype Command = List | Search | Expand | Open | Todo

  /** The shorthand letter of each command. */
  function Letter(c: Command): (l: char)
    ensures l in "lseot"
  {
    match c
    case List => 'l'
    case Search => 's'
    case Expand => 'e'
    case Open => 'o'
    case Todo => 't'
  }

  /** What `default` does with an input line: leave the loop, run a command
      on the rest of the line, do nothing, or raise `IndexError` (the empty
      line, where `inp[0]` fails). */
  datatype Action = Exit | Run(cmd: Command, arg: string) | Ignore | Crash

  /** `default`: exactly "x" and "q" exit; otherwise the first character
      picks the command and the rest of the line is its argument. */
  function Default(inp: string): (a: Action)
    ensures a == Exit <==> inp == "x" || inp == "q"
    ensures a == Crash <==> inp == ""
    ensures a.Run? ==> inp == [Letter(a.cmd)] + a.arg
    ensures a == Ignore <==> inp != "" && inp != "x" && inp != "q" && forall c :: Letter(c) != inp[0]
  {
    if inp == "x" || inp == "q" then Exit
    else if inp == "" then Crash
    else if inp[0] == 'l' then Run(List, inp[1..])
    else if inp[0] == 's' then Run(Search, inp[1..])
    else if inp[0] == 'e' then Run(Expand, inp[1..])
    else if inp[0] == 'o' then Run(Open, inp[1..])
    else if inp[0] == 't' then Run(Todo, inp[1..])
    else Ignore
  }

  /** A line starting with a command's letter, other than the two exit
      lines, runs that command on the rest of the line. */
  lemma {:induction false} DefaultDispatches(c: Command, arg: string)
    ensures Default([Letter(c)] + arg) == Run(c, arg)
  {
    var inp := [Letter(c)] + arg;
    assert inp[0] == Letter(c) && inp[1..] == arg;
    assert inp != "x" && inp != "q" by {
      assert inp[0] != 'x' && inp[0] != 'q';
    }
  }
}
