/** What producers hand to the logger. */
module LogEntries {
  // The text one log line prints.
  type Line = string

  datatype Entry = Entry(producer: nat, line: Line)

  function Lines(es: seq<Entry>): seq<Line> {
    seq(|es|, i requires 0 <= i < |es| => es[i].line)
  }

  /** The lines of one producer, in the order of es. */
  function Project(es: seq<Entry>, p: nat): seq<Line> {
    if es == [] then [] else
    var last := es[|es| - 1];
    Project(es[..|es| - 1], p) + (if last.producer == p then [last.line] else [])
  }

  lemma ProjectSnoc(es: seq<Entry>, e: Entry, p: nat)
    ensures Project(es + [e], p) == Project(es, p) + (if e.producer == p then [e.line] else [])
  {
    assert (es + [e])[..|es|] == es;
  }

  lemma {:induction false} ProjectPrefix(es: seq<Entry>, n: nat, p: nat)
    requires n <= |es|
    ensures Project(es[..n], p) <= Project(es, p)
  {
    if n < |es| {
      ProjectPrefix(es[..|es| - 1], n, p);
      assert es[..|es| - 1][..n] == es[..n];
    } else {
      assert es[..n] == es;
    }
  }
}
