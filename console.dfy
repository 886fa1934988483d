/**
 * What a command handler leaves behind: the lines it logs and how many
 * times it calls its completion callback `cb`. Colouring is not modelled
 * (a coloured string is the string itself).
 */
module Console {
  import opened Wrappers

  datatype Line =
    | Say(text: string)
      /** One `show hist` row: the record's raw date, its type label from the
          `types` table (None when the type is not in it) and its value. */
    | HistoryRow(date: string, kind: Option<string>, value: string)
      /** A fetched cheat sheet, logged as it was returned. */
    | Document(content: string)
      /** `log(heading, error)`: a two-argument log call reporting a failure. */
    | Failure(heading: string, error: string)

  datatype Reply = Reply(log: seq<Line>, completions: nat)
}
