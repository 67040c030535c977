/**
 * The ipset helpers of the ZeroMQ-era agent. Each helper runs one or two
 * `ipset` commands; here it returns the commands it issues, in order, with the
 * return code of the silent `ipset list NAME` probe given as a parameter.
 * A small reference model of what the `ipset` tool does to its table of sets
 * (`Exec`, `Run`) is the partner against which the helpers' effects are proved.
 */
module Ipsets {
  import opened Wrappers
  import opened Strings

  /** One command line, as the argument vector handed to the shell helpers. */
  type Command = seq<string>

  /** `swap(name1, name2)`: exactly one command, the names in argument order. */
  function Swap(name1: string, name2: string): (cmds: seq<Command>)
    ensures |cmds| == 1 && |cmds[0]| == 4 && cmds[0][2..] == [name1, name2]
  {
    [["ipset", "swap", name1, name2]]
  }

  /** `flush(name)`: exactly one command. */
  function Flush(name: string): (cmds: seq<Command>)
    ensures |cmds| == 1 && |cmds[0]| == 3 && cmds[0][2..] == [name]
  {
    [["ipset", "flush", name]]
  }

  /** The silent probe that both `create` and `destroy` run first. */
  function Probe(name: string): Command
  {
    ["ipset", "list", name]
  }

  /**
   * `create(name, typename, family)`: probe, then issue the create command
   * only when the probe's return code is non-zero.
   */
  function Create(name: string, typename: string, family: string, probeRc: int): (cmds: seq<Command>)
    ensures |cmds| >= 1 && cmds[0] == Probe(name)
    ensures |cmds| == 2 <==> probeRc != 0
    ensures |cmds| <= 2
  {
    if probeRc != 0 then [Probe(name), ["ipset", "create", name, typename, "family", family]]
    else [Probe(name)]
  }

  /** `destroy(name)`: probe, then issue the destroy command only when the probe returned 0. */
  function Destroy(name: string, probeRc: int): (cmds: seq<Command>)
    ensures |cmds| >= 1 && cmds[0] == Probe(name)
    ensures |cmds| == 2 <==> probeRc == 0
    ensures |cmds| <= 2
  {
    if probeRc == 0 then [Probe(name), ["ipset", "destroy", name]] else [Probe(name)]
  }

  /** `add(name, value)`: always one command, ending in "-exist". */
  function Add(name: string, value: string): (cmds: seq<Command>)
    ensures |cmds| == 1 && |cmds[0]| > 0 && cmds[0][|cmds[0]| - 1] == "-exist"
  {
    [["ipset", "add", name, value, "-exist"]]
  }

  // ---------------------------------------------------------------------------
  // Reference model of the ipset tool: a table from set name to set.

  datatype IpSet = IpSet(typename: string, family: string, members: set<string>)

  type Table = map<string, IpSet>

  /** `ipset swap` exchanges only sets of the same type and family. */
  predicate Swappable(a: IpSet, b: IpSet)
  {
    a.typename == b.typename && a.family == b.family
  }

  /** Return code of `ipset list NAME`: 0 exactly when the set exists. */
  function ProbeRc(t: Table, name: string): (rc: int)
    ensures rc == 0 <==> name in t
  {
    if name in t then 0 else 1
  }

  /** The effect of one command on the table; None when the tool exits non-zero. */
  function Exec(t: Table, cmd: Command): Option<Table>
  {
    if |cmd| < 2 || cmd[0] != "ipset" then None
    else if cmd[1] == "swap" && |cmd| == 4 then
      if cmd[2] in t && cmd[3] in t && Swappable(t[cmd[2]], t[cmd[3]]) then Some(t[cmd[2] := t[cmd[3]]][cmd[3] := t[cmd[2]]]) else None
    else if cmd[1] == "flush" && |cmd| == 3 then
      if cmd[2] in t then Some(t[cmd[2] := t[cmd[2]].(members := {})]) else None
    else if cmd[1] == "list" && |cmd| == 3 then
      if cmd[2] in t then Some(t) else None
    else if cmd[1] == "create" && |cmd| == 6 && cmd[4] == "family" then
      if cmd[2] in t then None else Some(t[cmd[2] := IpSet(cmd[3], cmd[5], {})])
    else if cmd[1] == "destroy" && |cmd| == 3 then
      if cmd[2] in t then Some(t - {cmd[2]}) else None
    else if cmd[1] == "add" && |cmd| == 5 && cmd[4] == "-exist" then
      if cmd[2] in t then Some(t[cmd[2] := t[cmd[2]].(members := t[cmd[2]].members + {cmd[3]})]) else None
    else None
  }

  /**
   * Runs the commands of one helper. The probe is run silently, so its failure
   * is not an error; every other command is run checked and its failure is.
   */
  function Run(t: Table, cmds: seq<Command>): Option<Table>
    decreases |cmds|
  {
    if |cmds| == 0 then Some(t)
    else if IsProbe(cmds[0]) then Run(t, cmds[1..])
    else match Exec(t, cmds[0])
      case None => None
      case Some(t') => Run(t', cmds[1..])
  }

  predicate IsProbe(cmd: Command)
  {
    |cmd| == 3 && cmd[0] == "ipset" && cmd[1] == "list"
  }

  /** Running a probe followed by a checked command. */
  lemma RunProbeThen(t: Table, name: string, cmd: Command)
    requires !IsProbe(cmd)
    ensures Run(t, [Probe(name), cmd]) == Exec(t, cmd)
  {
    assert IsProbe(Probe(name));
    assert [Probe(name), cmd][1..] == [cmd];
    assert Run(t, [Probe(name), cmd]) == Run(t, [cmd]);
    RunOne(t, cmd);
  }

  /** Running one checked command. */
  lemma RunOne(t: Table, cmd: Command)
    requires !IsProbe(cmd)
    ensures Run(t, [cmd]) == Exec(t, cmd)
  {
    assert [cmd][1..] == [];
  }

  /** Creating a set always leaves it present, and leaves an existing set untouched. */
  lemma CreateLeavesSetPresent(t: Table, name: string, typename: string, family: string)
    ensures Run(t, Create(name, typename, family, ProbeRc(t, name)))
      == Some(if name in t then t else t[name := IpSet(typename, family, {})])
  {
    if name in t {
      assert [Probe(name)][1..] == [];
    } else {
      RunProbeThen(t, name, ["ipset", "create", name, typename, "family", family]);
    }
  }

  /** Destroying a set always leaves it absent, whether or not it existed, and never fails. */
  lemma DestroyLeavesSetAbsent(t: Table, name: string)
    ensures Run(t, Destroy(name, ProbeRc(t, name))) == Some(t - {name})
  {
    if name in t {
      RunProbeThen(t, name, ["ipset", "destroy", name]);
    } else {
      assert [Probe(name)][1..] == [];
      assert t - {name} == t;
    }
  }

  /** `add` succeeds exactly when the set exists; adding the same value twice is the same as once. */
  lemma AddIdempotent(t: Table, name: string, value: string)
    ensures Run(t, Add(name, value)).Some? <==> name in t
    ensures name in t ==> Run(t, Add(name, value)) == Some(t[name := t[name].(members := t[name].members + {value})])
    ensures name in t ==> Run(Run(t, Add(name, value)).value, Add(name, value)) == Run(t, Add(name, value))
  {
    var cmd := ["ipset", "add", name, value, "-exist"];
    RunOne(t, cmd);
    if name in t {
      var t1 := t[name := t[name].(members := t[name].members + {value})];
      RunOne(t1, cmd);
      assert t1[name].members + {value} == t1[name].members;
      assert t1[name := t1[name].(members := t1[name].members + {value})] == t1;
    }
  }

  /**
   * Swapping succeeds exactly on two existing sets of the same type and
   * family; it exchanges them, and swapping again restores the table.
   */
  lemma SwapTwice(t: Table, name1: string, name2: string)
    ensures Run(t, Swap(name1, name2)).Some? <==> name1 in t && name2 in t && Swappable(t[name1], t[name2])
    ensures Run(t, Swap(name1, name2)).Some? ==>
      && Run(t, Swap(name1, name2)) == Some(t[name1 := t[name2]][name2 := t[name1]])
      && Run(Run(t, Swap(name1, name2)).value, Swap(name1, name2)) == Some(t)
  {
    var cmd := ["ipset", "swap", name1, name2];
    RunOne(t, cmd);
    if name1 in t && name2 in t && Swappable(t[name1], t[name2]) {
      var t1 := t[name1 := t[name2]][name2 := t[name1]];
      RunOne(t1, cmd);
      assert t1[name1 := t1[name2]][name2 := t1[name1]] == t;
    }
  }

  /** Flushing succeeds exactly when the set exists, and empties it keeping its type and family. */
  lemma FlushEmpties(t: Table, name: string)
    ensures Run(t, Flush(name)).Some? <==> name in t
    ensures name in t ==> Run(t, Flush(name)) == Some(t[name := IpSet(t[name].typename, t[name].family, {})])
  {
    RunOne(t, ["ipset", "flush", name]);
  }

  // ---------------------------------------------------------------------------
  // list_names

  /** The name a line of `ipset list` output contributes: the second word after a leading "Name:". */
  function NameOnLine(line: string): (r: seq<string>)
    ensures |r| <= 1
  {
    var words := Words(line);
    if |words| > 1 && words[0] == "Name:" then [words[1]] else []
  }

  /** The names contributed by a sequence of lines, in line order. */
  function NamesIn(lines: seq<string>): (r: seq<string>)
    ensures |r| <= |lines|
  {
    if |lines| == 0 then [] else NamesIn(lines[..|lines| - 1]) + NameOnLine(lines[|lines| - 1])
  }

  /** `list_names()`, given the standard output of `ipset list`. */
  method ListNames(output: string) returns (names: seq<string>)
    ensures names == NamesIn(Split(output, '\n'))
  {
    var lines := Split(output, '\n');
    names := [];
    var i := 0;
    while i < |lines|
      invariant 0 <= i <= |lines|
      invariant names == NamesIn(lines[..i])
    {
      var words := Words(lines[i]);
      if |words| > 1 && words[0] == "Name:" {
        names := names + [words[1]];
      }
      assert lines[..i + 1][..i] == lines[..i];
      i := i + 1;
    }
    assert lines[..i] == lines;
  }

  /** The names of a concatenation of line sequences are the concatenated names. */
  lemma {:induction false} NamesInAppend(a: seq<string>, b: seq<string>)
    ensures NamesIn(a + b) == NamesIn(a) + NamesIn(b)
    decreases |b|
  {
    if |b| > 0 {
      var b' := b[..|b| - 1];
      var last := NameOnLine(b[|b| - 1]);
      NamesInAppend(a, b');
      assert NamesIn(a + b) == NamesIn(a + b') + last by {
        assert (a + b)[..|a + b| - 1] == a + b';
        assert (a + b)[|a + b| - 1] == b[|b| - 1];
      }
      assert NamesIn(b) == NamesIn(b') + last;
      assert (NamesIn(a) + NamesIn(b')) + last == NamesIn(a) + (NamesIn(b') + last);
    } else {
      assert a + b == a;
    }
  }

  /** A word: non-empty and without white space (so without a line break either). */
  predicate IsWord(w: string)
  {
    |w| > 0 && forall i :: 0 <= i < |w| ==> !IsSpace(w[i])
  }

  /** A "Name: n" header line contributes n; a bare "Name:" line and a line led by any other word contribute nothing. */
  lemma NameLines(n: string, other: string, rest: string)
    requires IsWord(n) && IsWord(other) && other != "Name:"
    requires |rest| > 0 ==> IsSpace(rest[0])
    ensures NameOnLine("Name: " + n) == [n]
    ensures NameOnLine("Name:") == []
    ensures NameOnLine(other + rest) == []
  {
    HeaderLineName(n);
    assert NameOnLine("Name:") == [] by {
      WordsOfWordThenRest("Name:", "");
      assert "Name:" + "" == "Name:";
    }
    assert NameOnLine(other + rest) == [] by {
      WordsOfWordThenRest(other, rest);
    }
  }

  lemma HeaderLineName(n: string)
    requires IsWord(n)
    ensures NameOnLine("Name: " + n) == [n]
  {
    assert "Name: " + n == "Name:" + (" " + n);
    WordsOfWordThenRest("Name:", " " + n);
    assert (" " + n)[1..] == n;
    WordsOfWordThenRest(n, "");
    assert n + "" == n;
  }

  /** The lines `ipset list` prints as the header of each set, one per name. */
  function Headers(names: seq<string>): (lines: seq<string>)
    ensures |lines| == |names|
  {
    seq(|names|, i requires 0 <= i < |names| => "Name: " + names[i])
  }

  /** Parsing the header lines of a listing gives back the names, in order. */
  lemma {:induction false} ListNamesOfHeaders(names: seq<string>)
    requires forall i :: 0 <= i < |names| ==> IsWord(names[i])
    ensures NamesIn(Split(Join(Headers(names), "\n"), '\n')) == names
  {
    if |names| == 0 {
      assert Join(Headers(names), "\n") == "";
      assert Split("", '\n') == [""];
      assert NameOnLine("") == [];
      return;
    }
    var lines := Headers(names);
    forall i | 0 <= i < |lines| ensures '\n' !in lines[i] {
      assert lines[i] == "Name: " + names[i];
      assert !IsSpace('\n') ==> false;
    }
    assert "\n" == ['\n'];
    SplitJoin(lines, '\n');
    HeadersNames(names);
  }

  lemma {:induction false} HeadersNames(names: seq<string>)
    requires forall i :: 0 <= i < |names| ==> IsWord(names[i])
    ensures NamesIn(Headers(names)) == names
    decreases |names|
  {
    if |names| > 0 {
      var init := names[..|names| - 1];
      HeadersNames(init);
      assert Headers(names)[..|names| - 1] == Headers(init);
      var last := names[|names| - 1];
      HeaderLineName(last);
      assert init + [last] == names;
    }
  }
}
