/**
 * The catch-all action: a phrase that names no other command is resolved
 * against the cheat-sheet index. An exact path is fetched; otherwise the
 * resolver's sibling suggestions are listed; otherwise the fuzzy search
 * decides between auto-selecting its single hit, listing up to eight "did
 * you mean" entries, or reporting that nothing matched.
 *
 * The resolver, the search, the resource naming and the fetch are
 * collaborators whose code is not part of this model: they are the total
 * functions of an `Env`, and the fetch's callback is its result.
 */
module Lookup {
  import opened Wrappers
  import opened Text
  import opened Console

  /** Truthiness of `args.options.detail` and `args.options.install`. */
  datatype Flags = Flags(detail: bool, install: bool)

  /** The index node a path resolved to: truthiness of its `__detail` and `__install`. */
  datatype Leaf = Leaf(hasDetail: bool, hasInstall: bool)

  /** What `buildPath` returns: `exists`, `path`, `suggestions` (absent or an array) and `index`. */
  datatype Resolution = Resolution(found: bool, path: string, suggestions: Option<seq<string>>, leaf: Leaf)

  /** One fuzzy-search result. */
  datatype Hit = Hit(command: string, points: int)

  /** What the fetch callback receives: the document, or an error. */
  datatype Fetch = Fetched(data: string) | FetchFailed(error: string)

  datatype Env = Env(
    buildPath: string -> Resolution,
    search: seq<string> -> seq<Hit>,
    buildExtension: (string, Leaf, Flags) -> string,
    fetch: string -> Fetch)

  const NO_DETAIL := "\n  Sorry, there's no detailed write-up for this command. Showing the basic one instead."
  const NO_INSTALL := "\n  Sorry, there's no installation write-up for this command. Showing the basic one instead."
  const SUGGEST_HEADER := "\n  Sorry, there's no cheat sheet for that command. However, you can try these:\n"
  const DID_YOU_MEAN := "\n  Did you mean:"
  const NO_MATCH := "\n  Sorry, there's no command like that.\n"
  const ERROR_HEADING := "Unexpected Error: "
  const MAX_GUESSES := 8

  function Showing(command: string): string
  {
    "\n  Showing results for \"" + command + "\":"
  }

  /** `String(word).toLowerCase() === 'wat'` (case folding of ASCII letters). */
  predicate IsWat(word: string)
  {
    LowerAscii(word) == "wat"
  }

  /** Exactly the eight capitalisations of `wat` count as the leading word. */
  lemma WatSpellings(word: string)
    ensures IsWat(word) <==> |word| == 3 && word[0] in "wW" && word[1] in "aA" && word[2] in "tT"
  {
    if |word| == 3 {
      assert LowerAscii(word) == [LowerChar(word[0]), LowerChar(word[1]), LowerChar(word[2])];
    }
  }

  /**
   * "Handle humans": drop the first word when it is `wat`. At most one word
   * goes, only the first, and the rest keep their order.
   */
  function StripWat(words: seq<string>): (rest: seq<string>)
    ensures |words| - 1 <= |rest| <= |words|
    ensures rest == words[|words| - |rest|..]
    ensures |rest| < |words| <==> |words| > 0 && IsWat(words[0])
  {
    if |words| > 0 && IsWat(words[0]) then words[1..] else words
  }

  /**
   * The variant warning `execPath` logs: one at most, only for a requested
   * variant the leaf lacks, and a missing detailed write-up takes precedence
   * over a missing install write-up.
   */
  function Warning(flags: Flags, leaf: Leaf): (w: Option<string>)
    ensures w.Some? <==> (flags.detail && !leaf.hasDetail) || (flags.install && !leaf.hasInstall)
    ensures w == Some(NO_DETAIL) <==> flags.detail && !leaf.hasDetail
    ensures w == Some(NO_INSTALL) <==> !(flags.detail && !leaf.hasDetail) && flags.install && !leaf.hasInstall
  {
    if flags.detail && !leaf.hasDetail then Some(NO_DETAIL)
    else if flags.install && !leaf.hasInstall then Some(NO_INSTALL)
    else None
  }

  /** The warning as logged: no line, or exactly one. */
  function WarningLines(flags: Flags, leaf: Leaf): (lines: seq<Line>)
    ensures |lines| <= 1
    ensures |lines| == 1 <==> Warning(flags, leaf).Some?
    ensures |lines| == 1 ==> lines[0] == Say(Warning(flags, leaf).value)
  {
    match Warning(flags, leaf)
    case Some(text) => [Say(text)]
    case None => []
  }

  /** The line the fetch callback logs. */
  function Report(outcome: Fetch): Line
  {
    match outcome
    case Fetched(data) => Document(data)
    case FetchFailed(error) => Failure(ERROR_HEADING, error)
  }

  /** The branch the action takes. */
  datatype Route = Exact | Siblings | AutoSelect | DidYouMean | NoMatch

  function RouteOf(path: Resolution, hits: seq<Hit>): Route
  {
    if path.found then Exact
    else if path.suggestions.Some? then Siblings
    else if |hits| == 1 && hits[0].points > 0 then AutoSelect
    else if |hits| > 0 then DidYouMean
    else NoMatch
  }

  /** The first resolution: the words after `wat`, joined by spaces. */
  function Resolved(commands: seq<string>, env: Env): Resolution
  {
    env.buildPath(Join(StripWat(commands), " "))
  }

  /** The search results for the same words. */
  function Hits(commands: seq<string>, env: Env): seq<Hit>
  {
    env.search(StripWat(commands))
  }

  function RouteFor(commands: seq<string>, env: Env): Route
  {
    RouteOf(Resolved(commands, env), Hits(commands, env))
  }

  /**
   * `execPath`: name the resource with `buildExtension`, warn about a
   * missing variant, fetch, log the document or the error, and complete
   * once from the fetch callback.
   */
  method ExecPath(path: Resolution, flags: Flags, env: Env) returns (reply: Reply, target: string)
    ensures target == env.buildExtension(path.path, path.leaf, flags)
    ensures reply.log == WarningLines(flags, path.leaf) + [Report(env.fetch(target))]
    ensures reply.completions == 1
  {
    target := env.buildExtension(path.path, path.leaf, flags);
    var noDetail := flags.detail && !path.leaf.hasDetail;
    var noInstall := flags.install && !path.leaf.hasInstall;
    var log: seq<Line> := [];
    if noDetail {
      log := log + [Say(NO_DETAIL)];
    } else if noInstall {
      log := log + [Say(NO_INSTALL)];
    }
    match env.fetch(target) {
      case FetchFailed(error) =>
        log := log + [Failure(ERROR_HEADING, error)];
      case Fetched(data) =>
        log := log + [Document(data)];
    }
    reply := Reply(log, 1);
  }

  /**
   * The suggestion listing: a header, one line per suggestion in order,
   * each prefixed by the partial path with its `/`s made spaces and trimmed,
   * then a blank line.
   */
  method ListSuggestions(path: string, suggestions: seq<string>) returns (log: seq<Line>)
    ensures |log| == |suggestions| + 2
    ensures log[0] == Say(SUGGEST_HEADER)
    ensures forall i :: 0 <= i < |suggestions| ==>
      log[i + 1] == Say("  " + Trim(SpacesForSlashes(path)) + " " + suggestions[i])
    ensures log[|suggestions| + 1] == Say(" ")
  {
    JoinSplitSlashes(path);
    var prefix := Trim(Join(Split(path, "/"), " "));
    log := [Say(SUGGEST_HEADER)];
    for i := 0 to |suggestions|
      invariant |log| == i + 1 && log[0] == Say(SUGGEST_HEADER)
      invariant forall j :: 0 <= j < i ==> log[j + 1] == Say("  " + prefix + " " + suggestions[j])
    {
      log := log + [Say("  " + prefix + " " + suggestions[i])];
    }
    log := log + [Say(" ")];
  }

  /**
   * The "did you mean" listing: a header, the commands of the first eight
   * hits at most, in order, then a blank line. The words are highlighted
   * where they occur; with colouring as the identity that leaves each
   * command as it is.
   */
  method ListGuesses(results: seq<Hit>, words: seq<string>) returns (log: seq<Line>)
    ensures var shown := if |results| < MAX_GUESSES then |results| else MAX_GUESSES;
      && |log| == shown + 2
      && log[0] == Say(DID_YOU_MEAN)
      && (forall i :: 0 <= i < shown ==> log[i + 1] == Say("  " + results[i].command))
      && log[shown + 1] == Say(" ")
  {
    // `replace` is given the words array, which it turns into their comma-joined text.
    var pattern := Join(words, ",");
    log := [Say(DID_YOU_MEAN)];
    var i := 0;
    while i < |results|
      invariant 0 <= i <= |results| && i <= MAX_GUESSES
      invariant |log| == i + 1 && log[0] == Say(DID_YOU_MEAN)
      invariant forall j :: 0 <= j < i ==> log[j + 1] == Say("  " + results[j].command)
    {
      if i > 7 {
        break;
      }
      var cmd := results[i].command;
      cmd := ReplaceFirst(cmd, pattern, pattern);
      ReplaceSelf(results[i].command, pattern);
      log := log + [Say("  " + cmd)];
      i := i + 1;
    }
    log := log + [Say(" ")];
  }

  /**
   * The catch-all action. It returns what it logged, how many times it
   * completed, and the resources it fetched.
   */
  method CatchAll(commands: seq<string>, flags: Flags, env: Env) returns (reply: Reply, fetched: seq<string>)
    ensures reply.completions == if RouteFor(commands, env) == AutoSelect then 2 else 1
    ensures RouteFor(commands, env) == Exact ==>
      var path := Resolved(commands, env);
      && fetched == [env.buildExtension(path.path, path.leaf, flags)]
      && reply.log == WarningLines(flags, path.leaf) + [Report(env.fetch(fetched[0]))]
    ensures RouteFor(commands, env) == Siblings ==>
      var path := Resolved(commands, env);
      var suggestions := path.suggestions.value;
      && fetched == []
      && |reply.log| == |suggestions| + 2
      && reply.log[0] == Say(SUGGEST_HEADER)
      && (forall i :: 0 <= i < |suggestions| ==>
            reply.log[i + 1] == Say("  " + Trim(SpacesForSlashes(path.path)) + " " + suggestions[i]))
      && reply.log[|suggestions| + 1] == Say(" ")
    ensures RouteFor(commands, env) == AutoSelect ==>
      var hit := Hits(commands, env)[0];
      var second := env.buildPath(hit.command);
      && fetched == [env.buildExtension(second.path, second.leaf, flags)]
      && reply.log == [Say(Showing(hit.command))] + WarningLines(flags, second.leaf) + [Report(env.fetch(fetched[0]))]
    ensures RouteFor(commands, env) == DidYouMean ==>
      var hits := Hits(commands, env);
      var shown := if |hits| < MAX_GUESSES then |hits| else MAX_GUESSES;
      && fetched == []
      && |reply.log| == shown + 2
      && reply.log[0] == Say(DID_YOU_MEAN)
      && (forall i :: 0 <= i < shown ==> reply.log[i + 1] == Say("  " + hits[i].command))
      && reply.log[shown + 1] == Say(" ")
    ensures RouteFor(commands, env) == NoMatch ==> fetched == [] && reply.log == [Say(NO_MATCH)]
  {
    var words := commands;
    if |words| > 0 && IsWat(words[0]) {
      words := words[1..];
    }
    assert words == StripWat(commands);
    var path := env.buildPath(Join(words, " "));
    assert path == Resolved(commands, env);
    fetched := [];
    if !path.found {
      var log: seq<Line>;
      var completions := 0;
      if path.suggestions.Some? {
        assert RouteFor(commands, env) == Siblings;
        log := ListSuggestions(path.path, path.suggestions.value);
      } else {
        var results := env.search(words);
        assert results == Hits(commands, env);
        if |results| == 1 && results[0].points > 0 {
          assert RouteFor(commands, env) == AutoSelect;
          var second := env.buildPath(results[0].command);
          var executed, target := ExecPath(second, flags, env);
          log := [Say(Showing(results[0].command))] + executed.log;
          completions := completions + executed.completions;
          fetched := [target];
        } else if |results| > 0 {
          assert RouteFor(commands, env) == DidYouMean;
          log := ListGuesses(results, words);
        } else {
          assert RouteFor(commands, env) == NoMatch;
          log := [Say(NO_MATCH)];
        }
      }
      completions := completions + 1;
      reply := Reply(log, completions);
    } else {
      assert RouteFor(commands, env) == Exact;
      var target;
      reply, target := ExecPath(path, flags, env);
      fetched := [target];
    }
  }
}
