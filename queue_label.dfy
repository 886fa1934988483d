/**
 * How `show updates` turns a queued document path into the label it
 * prints: keep the part after the first `docs/` (up to the next one), turn
 * every `/` into a space, then replace the first `.md`, `.detail`,
 * `.install` and ` index`, in that order.
 */
module QueueLabel {
  import opened Text

  const DOCS := "docs/"

  /** `split('docs/')`, then the second piece if there is one, else the first. */
  function DocsPart(path: string): string
  {
    var pieces := Split(path, DOCS);
    if |pieces| > 1 then pieces[1] else pieces[0]
  }

  /** The four `replace` calls, in the order they are applied. */
  const REWRITES: seq<(string, string)> :=
    [(".md", ""), (".detail", " (detailed)"), (".install", " (install)"), (" index", " ")]

  /**
   * Apply each rewrite in turn, each to its first occurrence only: the last
   * rewrite is applied to what the earlier ones made.
   */
  function ReplaceEach(s: string, rewrites: seq<(string, string)>): string
    decreases |rewrites|
  {
    if rewrites == [] then s
    else
      var last := rewrites[|rewrites| - 1];
      ReplaceFirst(ReplaceEach(s, rewrites[..|rewrites| - 1]), last.0, last.1)
  }

  /** The label printed for one queue entry (colouring is the identity). */
  function Label(path: string): string
  {
    ReplaceEach(Join(Split(DocsPart(path), "/"), " "), REWRITES)
  }

  /**
   * Without `docs/` the whole path is kept; otherwise only the text between
   * the first `docs/` and the next one, or the end of the path.
   */
  lemma DocsPartBetween(path: string)
    ensures !Occurs(path, DOCS) ==> DocsPart(path) == path
    ensures forall k :: FirstAt(path, DOCS, k) ==>
      var rest := path[k + |DOCS|..];
      && (!Occurs(rest, DOCS) ==> DocsPart(path) == rest)
      && (forall e :: FirstAt(rest, DOCS, e) ==> DocsPart(path) == rest[..e])
  {
    var k := IndexOf(path, DOCS);
    IndexOfFinds(path, DOCS);
    if k >= 0 {
      var rest := path[k + |DOCS|..];
      assert Split(path, DOCS) == [path[..k]] + Split(rest, DOCS);
      var e := IndexOf(rest, DOCS);
      IndexOfFinds(rest, DOCS);
      if e >= 0 {
        assert Split(rest, DOCS)[0] == rest[..e];
      }
    }
  }

  /** Rewrites whose replacements have no `c` add no `c`. */
  lemma {:induction false} ReplaceEachKeepsOut(s: string, rewrites: seq<(string, string)>, c: char)
    requires c !in s
    requires forall i :: 0 <= i < |rewrites| ==> c !in rewrites[i].1
    ensures c !in ReplaceEach(s, rewrites)
    decreases |rewrites|
  {
    if rewrites != [] {
      var last := rewrites[|rewrites| - 1];
      ReplaceEachKeepsOut(s, rewrites[..|rewrites| - 1], c);
      ReplaceFirstChars(ReplaceEach(s, rewrites[..|rewrites| - 1]), last.0, last.1, c);
    }
  }

  /** Rewrites whose patterns do not occur leave the string as it is. */
  lemma {:induction false} ReplaceEachAbsent(s: string, rewrites: seq<(string, string)>)
    requires forall i :: 0 <= i < |rewrites| ==> !Occurs(s, rewrites[i].0)
    ensures ReplaceEach(s, rewrites) == s
    decreases |rewrites|
  {
    if rewrites != [] {
      var last := rewrites[|rewrites| - 1];
      ReplaceEachAbsent(s, rewrites[..|rewrites| - 1]);
      ReplaceFirstAt(s, last.0, last.1);
    }
  }

  /** No label contains a `/`: the suffix replacements introduce none. */
  lemma LabelHasNoSlash(path: string)
    ensures '/' !in Label(path)
  {
    JoinSplitSlashes(DocsPart(path));
    ReplaceEachKeepsOut(Join(Split(DocsPart(path), "/"), " "), REWRITES, '/');
  }

  /**
   * A path with no `docs/`, no `/` and none of the four suffixes is shown
   * unchanged: the rewrite touches nothing else.
   */
  lemma LabelOfPlainPath(path: string)
    requires !Occurs(path, DOCS) && '/' !in path
    requires !Occurs(path, ".md") && !Occurs(path, ".detail")
    requires !Occurs(path, ".install") && !Occurs(path, " index")
    ensures Label(path) == path
  {
    DocsPartBetween(path);
    JoinSplitSlashes(path);
    assert SpacesForSlashes(path) == path;
    ReplaceEachAbsent(path, REWRITES);
  }
}
