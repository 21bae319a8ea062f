/** ReplayPlanner.scala: which command a replay stops at, and which commands it runs. */
module ReplayPlanner {

  /** A parsed command. A command without a position has line 0. */
  datatype Transition = Transition(line: nat, text: string)

  datatype Position = AfterLine(line: int) | AfterCommand(selector: string)

  datatype SelectorResult =
    | Target(line: int)
    | NotFound(selector: string)
    | Ambiguous(selector: string, candidateLines: seq<int>)

  /** Some command on `line` reads like the selector. */
  ghost predicate IsMatch(commands: seq<Transition>, normalize: string -> string, selector: string, line: int) {
    line > 0 && exists k :: 0 <= k < |commands| && Selects(commands[k], normalize, selector) && commands[k].line == line
  }

  predicate Selects(command: Transition, normalize: string -> string, selector: string) {
    command.line > 0 && normalize(command.text) == normalize(selector)
  }

  ghost predicate StrictlyIncreasing(s: seq<int>) {
    forall i, j :: 0 <= i < j < |s| ==> s[i] < s[j]
  }

  function Matches(commands: seq<Transition>, normalize: string -> string, selector: string): (lines: seq<int>)
    ensures forall line :: line in lines <==> IsMatch(commands, normalize, selector, line)
  {
    if commands == [] then []
    else
      var rest := Matches(commands[..|commands| - 1], normalize, selector);
      var last := commands[|commands| - 1];
      if Selects(last, normalize, selector) then rest + [last.line] else rest
  }

  function Distinct(lines: seq<int>): (r: seq<int>)
    ensures forall line :: line in r <==> line in lines
    ensures forall i, j :: 0 <= i < j < |r| ==> r[i] != r[j]
  {
    if lines == [] then []
    else
      var rest := Distinct(lines[..|lines| - 1]);
      var last := lines[|lines| - 1];
      assert lines == lines[..|lines| - 1] + [last];
      if last in rest then rest else rest + [last]
  }

  function Insert(line: int, sorted: seq<int>): (r: seq<int>)
    requires StrictlyIncreasing(sorted) && line !in sorted
    ensures StrictlyIncreasing(r)
    ensures forall l :: l in r <==> l == line || l in sorted
  {
    if sorted == [] then [line]
    else if line < sorted[0] then [line] + sorted
    else
      var rest := Insert(line, sorted[1..]);
      assert line != sorted[0] && forall k :: 0 <= k < |rest| ==> rest[k] in rest && sorted[0] < rest[k];
      [sorted[0]] + rest
  }

  function Sorted(lines: seq<int>): (r: seq<int>)
    requires forall i, j :: 0 <= i < j < |lines| ==> lines[i] != lines[j]
    ensures StrictlyIncreasing(r)
    ensures forall l :: l in r <==> l in lines
  {
    if lines == [] then []
    else
      assert lines == [lines[0]] + lines[1..];
      Insert(lines[0], Sorted(lines[1..]))
  }

  /** A line is taken as it is. A selector stands for the line that its matches share: without a match
      it is not found, with several lines it is ambiguous and all of them are listed in order. */
  function ResolveTargetLine(commands: seq<Transition>, normalize: string -> string, position: Position)
      : (r: SelectorResult)
    ensures position.AfterLine? ==> r == Target(position.line)
    ensures position.AfterCommand? ==>
      match r
      case Target(line) =>
        line > 0 && forall l :: IsMatch(commands, normalize, position.selector, l) <==> l == line
      case NotFound(_) => forall l :: !IsMatch(commands, normalize, position.selector, l)
      case Ambiguous(_, lines) =>
        && |lines| >= 2 && StrictlyIncreasing(lines)
        && forall l :: IsMatch(commands, normalize, position.selector, l) <==> l in lines
  {
    match position
    case AfterLine(line) => Target(line)
    case AfterCommand(selector) =>
      var lines := Distinct(Matches(commands, normalize, selector));
      if lines == [] then NotFound(selector)
      else if |lines| == 1 then
        assert lines[0] in lines;
        Target(lines[0])
      else
        assert lines[0] in lines && lines[1] in lines && lines[0] != lines[1];
        Ambiguous(selector, Sorted(lines))
  }

  /** The commands after one line up to and including another, in theory order. */
  function Between(commands: seq<Transition>, after: int, upto: int): seq<Transition> {
    if commands == [] then []
    else
      var rest := Between(commands[1..], after, upto);
      if after < commands[0].line <= upto then [commands[0]] + rest else rest
  }

  /** A replay runs each command in its range once, in the order of the theory, and no other: its commands are
      those at these places. */
  lemma {:induction false} BetweenRunsEachOnce(commands: seq<Transition>, after: int, upto: int)
      returns (places: seq<int>)
    ensures StrictlyIncreasing(places) && |Between(commands, after, upto)| == |places|
    ensures forall k :: k in places <==> 0 <= k < |commands| && after < commands[k].line <= upto
    ensures forall i :: 0 <= i < |places| ==>
      0 <= places[i] < |commands| && Between(commands, after, upto)[i] == commands[places[i]]
  {
    if commands == [] {
      places := [];
    } else {
      var n := |commands| - 1;
      places := BetweenRunsEachOnce(commands[..n], after, upto);
      assert commands[..n] + [commands[n]] == commands;
      BetweenJoins(commands[..n], [commands[n]], after, upto);
      assert forall i :: 0 <= i < |places| ==> places[i] in places;
      if after < commands[n].line <= upto {
        places := places + [n];
      }
    }
  }

  lemma {:induction false} BetweenJoins(first: seq<Transition>, rest: seq<Transition>, after: int, upto: int)
    ensures Between(first + rest, after, upto) == Between(first, after, upto) + Between(rest, after, upto)
  {
    if first == [] {
      assert first + rest == rest;
    } else {
      assert (first + rest)[1..] == first[1..] + rest;
      BetweenJoins(first[1..], rest, after, upto);
    }
  }

  /** Where a command of a replay stands in the theory; the replay has run what comes before it there. */
  lemma {:induction false} PlaceOf(commands: seq<Transition>, after: int, upto: int, m: nat) returns (i: nat)
    requires m < |Between(commands, after, upto)|
    ensures i < |commands| && after < commands[i].line <= upto && commands[i] == Between(commands, after, upto)[m]
    ensures Between(commands[..i], after, upto) == Between(commands, after, upto)[..m]
  {
    var n := |commands| - 1;
    var before := Between(commands[..n], after, upto);
    assert commands[..n] + [commands[n]] == commands;
    BetweenJoins(commands[..n], [commands[n]], after, upto);
    if m < |before| {
      i := PlaceOf(commands[..n], after, upto, m);
      assert commands[..n][..i] == commands[..i];
    } else {
      i := n;
    }
  }

  /** In particular it runs nothing else. */
  lemma {:induction false} BetweenMembers(commands: seq<Transition>, after: int, upto: int, t: Transition)
    ensures t in Between(commands, after, upto) <==> t in commands && after < t.line <= upto
  {
    if commands != [] {
      BetweenMembers(commands[1..], after, upto, t);
      assert commands == [commands[0]] + commands[1..];
    }
  }

  /** Commands with a position come in the order of their lines. */
  ghost predicate Ordered(commands: seq<Transition>) {
    forall i, j :: 0 <= i < j < |commands| && commands[i].line > 0 && commands[j].line > 0 ==>
      commands[i].line <= commands[j].line
  }

  lemma OrderedRest(commands: seq<Transition>)
    requires Ordered(commands) && commands != []
    ensures Ordered(commands[1..])
    ensures forall k :: 0 <= k < |commands| - 1 && commands[1..][k].line > 0 ==>
        commands[1..][k].line >= commands[0].line
  {
    var rest := commands[1..];
    forall i, j | 0 <= i < j < |rest| && rest[i].line > 0 && rest[j].line > 0
      ensures rest[i].line <= rest[j].line
    {
      assert commands[i + 1] == rest[i] && commands[j + 1] == rest[j];
    }
  }

  lemma {:induction false} NothingBetween(commands: seq<Transition>, after: int, upto: int)
    requires forall k :: 0 <= k < |commands| ==> !(after < commands[k].line <= upto)
    ensures Between(commands, after, upto) == []
  {
    if commands != [] { NothingBetween(commands[1..], after, upto); }
  }

  /** A replay can be cut in two at any line that is not negative. */
  lemma {:induction false} BetweenSplits(commands: seq<Transition>, after: int, middle: int, upto: int)
    requires Ordered(commands) && 0 <= after <= middle <= upto
    ensures Between(commands, after, upto) == Between(commands, after, middle) + Between(commands, middle, upto)
  {
    if commands != [] {
      var rest := commands[1..];
      OrderedRest(commands);
      BetweenSplits(rest, after, middle, upto);
      var low, high := Between(rest, after, middle), Between(rest, middle, upto);
      if middle < commands[0].line {
        NothingBetween(rest, after, middle);
        assert low + high == high;
      } else if after < commands[0].line {
        assert [commands[0]] + (low + high) == [commands[0]] + low + high;
      }
    }
  }

  /** A replay keeps the order of the theory. */
  lemma {:induction false} BetweenKeepsOrder(commands: seq<Transition>, i: nat, j: nat, after: int, upto: int)
      returns (p: nat, q: nat)
    requires i < j < |commands| && after < commands[i].line <= upto && after < commands[j].line <= upto
    ensures p < q < |Between(commands, after, upto)|
    ensures Between(commands, after, upto)[p] == commands[i] && Between(commands, after, upto)[q] == commands[j]
  {
    var rest := commands[1..];
    var others := Between(rest, after, upto);
    if i == 0 {
      assert Between(commands, after, upto) == [commands[0]] + others;
      BetweenMembers(rest, after, upto, rest[j - 1]);
      var k :| 0 <= k < |others| && others[k] == rest[j - 1];
      p, q := 0, k + 1;
    } else {
      p, q := BetweenKeepsOrder(rest, i - 1, j - 1, after, upto);
      if after < commands[0].line <= upto {
        assert Between(commands, after, upto) == [commands[0]] + others;
        p, q := p + 1, q + 1;
      }
    }
  }

  /** Every cut is right only if the lines are in order: with two commands out of order, cutting at the
      lower of their lines runs them in another order. */
  lemma DisorderBreaksSplit(commands: seq<Transition>, i: nat, j: nat)
    requires i < j < |commands| && commands[i].line > commands[j].line > 0
    ensures var middle, upto := commands[j].line, commands[i].line;
            Between(commands, 0, upto) != Between(commands, 0, middle) + Between(commands, middle, upto)
  {
    var middle, upto := commands[j].line, commands[i].line;
    var p, q := BetweenKeepsOrder(commands, i, j, 0, upto);
    var low, high := Between(commands, 0, middle), Between(commands, middle, upto);
    forall k | 0 <= k < |low| ensures low[k].line <= middle {
      BetweenMembers(commands, 0, middle, low[k]);
    }
    forall k | 0 <= k < |high| ensures high[k].line > middle {
      BetweenMembers(commands, middle, upto, high[k]);
    }
    LowThenHigh(low, high, middle, p, q);
  }

  lemma LowThenHigh(low: seq<Transition>, high: seq<Transition>, middle: int, p: nat, q: nat)
    requires forall k :: 0 <= k < |low| ==> low[k].line <= middle
    requires forall k :: 0 <= k < |high| ==> high[k].line > middle
    ensures p < q < |low + high| && (low + high)[p].line > middle ==> (low + high)[q].line > middle
  {
  }

  /** A negative line is as good as line 0 unless some command has no position. */
  lemma {:induction false} NegativeIsZero(commands: seq<Transition>, after: int, upto: int)
    requires after <= 0 && forall t :: t in commands ==> t.line > 0
    ensures Between(commands, after, upto) == Between(commands, 0, upto)
  {
    if commands != [] {
      assert commands[0] in commands;
      NegativeIsZero(commands[1..], after, upto);
    }
  }
}
