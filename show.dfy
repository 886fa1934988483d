/**
 * The `show updates` and `show hist` commands: a header, then the newest
 * entries of the update queue or of the history log, newest first, then a
 * blank line, then one completion.
 */
module Show {
  import opened Wrappers
  import opened Console
  import opened Recency
  import opened QueueLabel

  const UPDATES_HEADER := "\n  Command"
  const EMPTY_QUEUE := "\n  No updates in the queue.\n  To do a fresh update, run the \"update\" command."
  const HISTORY_HEADER := "\n  Date            Type      Value"
  const UPDATES_DEFAULT_MAX := 30
  const HISTORY_DEFAULT_MAX := 20

  /** `args.options.max || fallback`: an absent or zero maximum falls back. */
  function MaxOrDefault(requested: Option<int>, fallback: int): int
  {
    if requested.None? || requested.value == 0 then fallback else requested.value
  }

  /** The line `show updates` logs for one queued path. */
  function Entry(path: string): Line
  {
    Say("  " + Label(path))
  }

  /** `show updates`: the labels of the queue's newest entries, newest first. */
  method ShowUpdates(queue: seq<string>, requested: Option<int>) returns (reply: Reply)
    ensures var w := Window(|queue|, MaxOrDefault(requested, UPDATES_DEFAULT_MAX));
      && |reply.log| == |w| + 2
      && reply.log[0] == Say(if |queue| > 0 then UPDATES_HEADER else EMPTY_QUEUE)
      && (forall j :: 0 <= j < |w| ==> reply.log[j + 1] == Entry(queue[w[j]]))
      && reply.log[|w| + 1] == Say(" ")
    ensures requested.None? || requested == Some(0) ==>
      |reply.log| == Shown(|queue|, UPDATES_DEFAULT_MAX) + 2
    ensures reply.completions == 1
  {
    var n := |queue|;
    var max := MaxOrDefault(requested, UPDATES_DEFAULT_MAX);
    var limit := n - 1 - max;
    limit := if limit < 0 then 0 else limit;
    var log: seq<Line>;
    if n > 0 {
      log := [Say(UPDATES_HEADER)];
    } else {
      log := [Say(EMPTY_QUEUE)];
    }
    ghost var entries := seq(n, k requires 0 <= k < n => Entry(queue[k]));
    var i := n - 1;
    while i > limit
      invariant limit == Limit(n, max)
      invariant i <= n - 1 && (limit <= i || i == n - 1)
      invariant |log| == n - i
      invariant log[0] == Say(if n > 0 then UPDATES_HEADER else EMPTY_QUEUE)
      invariant forall j :: 1 <= j < |log| ==> log[j] == entries[n - j]
    {
      LogStep(log, entries, i);
      log := log + [Entry(queue[i])];
      i := i - 1;
    }
    WindowLog(log, entries, max, i);
    log := log + [Say(" ")];
    reply := Reply(log, 1);
  }

  /** One history record as `clerk.history.get()` returns it. */
  datatype Record = Record(date: string, kind: string, value: string)

  /** The `types` table: the column label of a record type, if it has one. */
  function KindLabel(kind: string): Option<string>
  {
    if kind == "command" then Some("Command")
    else if kind == "update" then Some("Update")
    else None
  }

  function Row(r: Record): Line
  {
    HistoryRow(r.date, KindLabel(r.kind), r.value)
  }

  /** `show hist`: the history's newest records, newest first. */
  method ShowHistory(hist: seq<Record>, requested: Option<int>) returns (reply: Reply)
    ensures var w := Window(|hist|, MaxOrDefault(requested, HISTORY_DEFAULT_MAX));
      && |reply.log| == |w| + 2
      && reply.log[0] == Say(HISTORY_HEADER)
      && (forall j :: 0 <= j < |w| ==> reply.log[j + 1] == Row(hist[w[j]]))
      && reply.log[|w| + 1] == Say(" ")
    ensures requested.None? || requested == Some(0) ==>
      |reply.log| == Shown(|hist|, HISTORY_DEFAULT_MAX) + 2
    ensures reply.completions == 1
  {
    var n := |hist|;
    var max := MaxOrDefault(requested, HISTORY_DEFAULT_MAX);
    var limit := n - 1 - max;
    limit := if limit < 0 then 0 else limit;
    var log := [Say(HISTORY_HEADER)];
    ghost var rows := seq(n, k requires 0 <= k < n => Row(hist[k]));
    var i := n - 1;
    while i > limit
      invariant limit == Limit(n, max)
      invariant i <= n - 1 && (limit <= i || i == n - 1)
      invariant |log| == n - i
      invariant log[0] == Say(HISTORY_HEADER)
      invariant forall j :: 1 <= j < |log| ==> log[j] == rows[n - j]
    {
      LogStep(log, rows, i);
      log := log + [Row(hist[i])];
      i := i - 1;
    }
    WindowLog(log, rows, max, i);
    log := log + [Say(" ")];
    reply := Reply(log, 1);
  }
}
