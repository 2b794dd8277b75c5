/**
 * The driver of change2/driver.c: the command line is checked (one
 * argument, whose extension after the last '.' is "um" or "umz"), and then
 * a machine is set up, loaded with the program file and run.
 */
module Driver {
  import opened Wrappers
  import opened Words
  import opened Machine
  import Loader
  import SeqUM
  import Scenarios

  /** strrchr(path, '.'): the index of the last '.' in `path`, if there is one. */
  function LastDot(path: string): (r: Option<nat>)
    ensures r.Some? ==> r.value < |path| && path[r.value] == '.'
    ensures r.Some? ==> forall j :: r.value < j < |path| ==> path[j] != '.'
    ensures r.None? ==> forall j :: 0 <= j < |path| ==> path[j] != '.'
  {
    if path == [] then None
    else if path[|path| - 1] == '.' then Some(|path| - 1)
    else LastDot(path[..|path| - 1])
  }

  /**
   * checkCommandline: `args` is argv, so |args| is argc. The call is
   * accepted when there is exactly one argument and the text after the
   * last '.' in it is exactly "um" or "umz"; otherwise the C code exits
   * with a failure status.
   */
  predicate CheckCommandline(args: seq<string>)
  {
    && |args| == 2
    && var dot := LastDot(args[1]);
    && dot.Some?
    && var ext := args[1][dot.value + 1..];
    && (ext == "um" || ext == "umz")
  }

  predicate EndsWith(s: string, suffix: string)
  {
    |suffix| <= |s| && s[|s| - |suffix|..] == suffix
  }

  /**
   * The check in other words: exactly one argument, ending in ".um" or
   * ".umz". (The last dot of such a name is the one in its suffix, since
   * neither "um" nor "umz" contains a dot.)
   */
  lemma CheckCommandlineMeans(args: seq<string>)
    ensures CheckCommandline(args) <==> |args| == 2 && (EndsWith(args[1], ".um") || EndsWith(args[1], ".umz"))
  {
    if |args| == 2 {
      var path := args[1];
      var dot := LastDot(path);
      if dot.Some? {
        var i := dot.value;
        assert path[i..] == ['.'] + path[i + 1..];
      }
      if EndsWith(path, ".um") {
        var i := |path| - 3;
        assert path[i] == '.' && path[i + 1] != '.' && path[i + 2] != '.';
        assert dot == Some(i);
      } else if EndsWith(path, ".umz") {
        var i := |path| - 4;
        assert path[i] == '.' && path[i + 1] != '.' && path[i + 2] != '.' && path[i + 3] != '.';
        assert dot == Some(i);
      }
    }
  }

  /** Only the last dot counts: "x.um.bak" is refused, "a.b.umz" accepted; no dot, or a second argument, is refused. */
  lemma CheckCommandlineExamples()
    ensures !CheckCommandline(["um", "x.um.bak"])
    ensures CheckCommandline(["um", "a.b.umz"])
    ensures CheckCommandline(["um", "prog.um"])
    ensures !CheckCommandline(["um", "prog"])
    ensures !CheckCommandline(["um", "prog.um", "extra"])
    ensures !CheckCommandline(["um"])
  {
    CheckCommandlineMeans(["um", "x.um.bak"]);
    assert "x.um.bak"[5..] != ".um" && "x.um.bak"[4..] != ".umz";
    CheckCommandlineMeans(["um", "a.b.umz"]);
    assert EndsWith("a.b.umz", ".umz");
    CheckCommandlineMeans(["um", "prog.um"]);
    assert EndsWith("prog.um", ".um");
    CheckCommandlineMeans(["um", "prog"]);
    assert "prog"[1..] != ".um";
  }

  /**
   * main: check the command line, then initialize_UM, load_mem and
   * execute_instr, in that order. The file named on the command line is
   * passed in as its bytes, and standard input as the bytes it will
   * deliver; execute_instr runs for at most `fuel` instructions. A refused
   * command line gives `None` and no output; otherwise the outcome and the
   * bytes written are those of the abstract machine booted from the
   * packed file.
   */
  method RunDriver(args: seq<string>, image: seq<Byte>, stdin: seq<Byte>, fuel: nat)
    returns (o: Option<Outcome>, output: seq<Byte>)
    requires |image| / 4 < WORD_MODULUS
    ensures o.None? <==> !CheckCommandline(args)
    ensures o.None? ==> output == []
    ensures o.Some? ==>
      var r := Run(Boot(Loader.Pack(image), stdin), fuel);
      && (o.value == Next <==> r.Running?)
      && (o.value == Halt <==> r.Halted?)
      && (o.value.Stop? <==> r.Faulted?)
      && (o.value.Stop? ==> o.value.fault == r.fault)
      && output == r.state.output
  {
    if !CheckCommandline(args) {
      return None, [];
    }
    var um := new SeqUM.UM(stdin);
    um.LoadMem(image);
    assert um.Abs() == Boot(Loader.Pack(image), stdin);
    var outcome := um.ExecuteInstr(fuel);
    o, output := Some(outcome), um.output;
  }

  /**
   * The file build_branch_test's words are written to, run from the
   * command line "um branch.um" with no input: it prints "a".
   */
  lemma BranchTestFilePrintsA(fuel: nat)
    requires fuel >= 6
    ensures CheckCommandline(["um", "branch.um"])
    ensures var r := Run(Boot(Loader.Pack(Loader.Serialize(Scenarios.BranchProgram())), []), fuel);
      r.Halted? && r.state.output == [97]
  {
    CheckCommandlineMeans(["um", "branch.um"]);
    assert EndsWith("branch.um", ".um");
    Loader.PackSerialize(Scenarios.BranchProgram());
    Scenarios.BranchPrintsA(fuel);
  }
}
