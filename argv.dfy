/**
 * Translation of the parsed command line (`minimist`'s object) into the
 * `args` passed to the shell: the `_` entry becomes `commands`, every other
 * key becomes an option, with `d` and `i` renamed through the alias table.
 */
module Argv {
  import opened Wrappers

  /** The `xlt` alias table. */
  const ALIASES: map<string, string> := map["d" := "detail", "i" := "install"]

  /** The option name a command-line key is stored under. */
  function OptionName(key: string): string
  {
    if key in ALIASES then ALIASES[key] else key
  }

  datatype Args<V> = Args(commands: Option<V>, options: map<string, V>)

  /**
   * The `args` produced by the loop after visiting the entries of `argv`,
   * given in the object's enumeration order.
   */
  function Translated<V>(argv: seq<(string, V)>): Args<V>
    decreases |argv|
  {
    if argv == [] then Args(None, map[])
    else
      var prev := Translated(argv[..|argv| - 1]);
      var (key, value) := argv[|argv| - 1];
      if key == "_" then prev.(commands := Some(value))
      else prev.(options := prev.options[OptionName(key) := value])
  }

  /** The `for ... in argv` loop of the front end. */
  method Translate<V>(argv: seq<(string, V)>) returns (args: Args<V>)
    ensures args == Translated(argv)
  {
    var commands: Option<V> := None;
    var options: map<string, V> := map[];
    for k := 0 to |argv|
      invariant Args(commands, options) == Translated(argv[..k])
    {
      assert argv[..k + 1][..k] == argv[..k];
      var (key, value) := argv[k];
      if key == "_" {
        commands := Some(value);
      } else if key in ALIASES {
        options := options[ALIASES[key] := value];
      } else {
        options := options[key := value];
      }
    }
    assert argv[..|argv|] == argv;
    args := Args(commands, options);
  }

  /** `_` never becomes an option. */
  lemma {:induction false} UnderscoreIsNoOption<V>(argv: seq<(string, V)>)
    ensures "_" !in Translated(argv).options
    decreases |argv|
  {
    if argv != [] {
      UnderscoreIsNoOption(argv[..|argv| - 1]);
    }
  }

  /** The options are exactly the renamed keys other than `_`. */
  lemma {:induction false} OptionKeys<V>(argv: seq<(string, V)>, name: string)
    ensures name in Translated(argv).options <==>
      exists i :: 0 <= i < |argv| && argv[i].0 != "_" && OptionName(argv[i].0) == name
    decreases |argv|
  {
    if argv != [] {
      var init := argv[..|argv| - 1];
      OptionKeys(init, name);
      if exists i :: 0 <= i < |argv| && argv[i].0 != "_" && OptionName(argv[i].0) == name {
        var i :| 0 <= i < |argv| && argv[i].0 != "_" && OptionName(argv[i].0) == name;
        if i < |argv| - 1 {
          assert init[i] == argv[i];
        }
      }
      if exists i :: 0 <= i < |init| && init[i].0 != "_" && OptionName(init[i].0) == name {
        var i :| 0 <= i < |init| && init[i].0 != "_" && OptionName(init[i].0) == name;
        assert argv[i] == init[i];
      }
    }
  }

  /**
   * An option holds the value of the last entry stored under its name:
   * of `d` and `detail` (or `i` and `install`) the one visited later wins.
   */
  lemma {:induction false} LastEntryWins<V>(argv: seq<(string, V)>, i: int)
    requires 0 <= i < |argv| && argv[i].0 != "_"
    requires forall j :: i < j < |argv| && argv[j].0 != "_" ==> OptionName(argv[j].0) != OptionName(argv[i].0)
    ensures OptionName(argv[i].0) in Translated(argv).options
    ensures Translated(argv).options[OptionName(argv[i].0)] == argv[i].1
    decreases |argv|
  {
    if i < |argv| - 1 {
      var init := argv[..|argv| - 1];
      assert init[i] == argv[i];
      LastEntryWins(init, i);
    }
  }

  /** `commands` is the value of the last `_` entry, and absent when there is none. */
  lemma {:induction false} CommandsFromUnderscore<V>(argv: seq<(string, V)>, i: int)
    requires 0 <= i < |argv| && argv[i].0 == "_"
    requires forall j :: i < j < |argv| ==> argv[j].0 != "_"
    ensures Translated(argv).commands == Some(argv[i].1)
    decreases |argv|
  {
    if i < |argv| - 1 {
      var init := argv[..|argv| - 1];
      assert init[i] == argv[i];
      CommandsFromUnderscore(init, i);
    }
  }

  lemma {:induction false} NoCommandsWithoutUnderscore<V>(argv: seq<(string, V)>)
    requires forall j :: 0 <= j < |argv| ==> argv[j].0 != "_"
    ensures Translated(argv).commands == None
    decreases |argv|
  {
    if argv != [] {
      NoCommandsWithoutUnderscore(argv[..|argv| - 1]);
    }
  }
}
