/**
 * The `update` command's reaction to `clerk.index.update({force: true}, ...)`:
 * on success it reports, mentions the queue length when more than one
 * document is queued, and completes; on an error it logs nothing and never
 * completes.
 */
module UpdateCommand {
  import opened Wrappers
  import opened Text
  import opened Console

  const UPDATED := "\n  Successfully updated index."

  function QueuedLine(amount: nat): string
  {
    "\n  " + Decimal(amount) + " documents are queued for updating."
  }

  /**
   * The handler's callback, given the update's error and the queue length
   * after it. `Some` stands for a truthy error; a falsy one (`null`, `""`,
   * `0`) counts as success, as `if (!err)` treats it.
   */
  function OnIndexUpdated(error: Option<string>, queued: nat): (reply: Reply)
    ensures reply.completions == if error.None? then 1 else 0
    ensures error.Some? ==> reply.log == []
    ensures error.None? ==> |reply.log| == (if queued > 1 then 3 else 2)
    ensures error.None? ==> reply.log[0] == Say(UPDATED) && reply.log[|reply.log| - 1] == Say(" ")
    ensures Say(QueuedLine(queued)) in reply.log <==> error.None? && queued > 1
  {
    if error.Some? then Reply([], 0)
    else
      var count := if queued > 1 then [Say(QueuedLine(queued))] else [];
      assert |QueuedLine(queued)| > |UPDATED|;
      Reply([Say(UPDATED)] + count + [Say(" ")], 1)
  }

  /** As written, a failed update leaves the command without a completion: the shell waits for ever. */
  lemma FailedUpdateNeverCompletes(error: string, queued: nat)
    ensures OnIndexUpdated(Some(error), queued).completions == 0
  {
  }

  /**
   * The evidently intended callback: it completes exactly once whatever the
   * outcome, logs nothing on an error, and on success logs what the source
   * logs.
   */
  function IntendedOnIndexUpdated(error: Option<string>, queued: nat): (reply: Reply)
    ensures reply.completions == 1
    ensures error.Some? ==> reply.log == []
    ensures error.None? ==> reply.log == OnIndexUpdated(error, queued).log
  {
    if error.Some? then Reply([], 1) else OnIndexUpdated(error, queued)
  }
}

