/** The log files on disk and the writer that rolls from one to the next. */
module FileWriters {
  import opened Common
  import opened LogEntries

  function Bytes(ls: seq<Line>): nat {
    if ls == [] then 0 else Bytes(ls[..|ls| - 1]) + |ls[|ls| - 1]|
  }

  lemma BytesSnoc(ls: seq<Line>, line: Line)
    ensures Bytes(ls + [line]) == Bytes(ls) + |line| && Bytes([]) == 0
  {
    assert (ls + [line])[..|ls|] == ls;
  }

  /** uint32_t arithmetic: the number of megabytes wraps, see EffectiveLimitIsDocumented. */
  function RollLimit(rollSizeMb: nat): nat {
    (Max(1, rollSizeMb) * 1024 * 1024) % UINT32
  }

  /** The roll limit is the documented number of megabytes exactly below 4096; from there it starts again. */
  lemma EffectiveLimitIsDocumented(rollSizeMb: nat)
    requires rollSizeMb < UINT32
    ensures RollLimit(rollSizeMb) == Max(1, rollSizeMb) * 1024 * 1024 <==> rollSizeMb < 4096
    ensures RollLimit(rollSizeMb) == Max(1, rollSizeMb) % 4096 * 1024 * 1024
  {
    var limit := Max(1, rollSizeMb) * 1024 * 1024;
    assert limit < UINT32 <==> rollSizeMb < 4096;
    assert limit % UINT32 < UINT32;
  }

  /** At 4096 megabytes every line would roll the file. */
  lemma LimitWraps()
    ensures RollLimit(4096) == 0
  {
  }

  /** Appending one line to the open file, the last one, and opening the next file once past the limit. */
  function AppendLine(limit: nat, files: seq<seq<Line>>, line: Line): seq<seq<Line>>
    requires files != []
  {
    var open := files[|files| - 1] + [line];
    var written := files[|files| - 1 := open];
    if Bytes(open) > limit then written + [[]] else written
  }

  /** A closed file is over the limit, and was not before its last line. */
  ghost predicate ClosedWell(limit: nat, file: seq<Line>) {
    file != [] && Bytes(file) > limit && Bytes(file[..|file| - 1]) <= limit
  }

  ghost predicate RolledWell(limit: nat, files: seq<seq<Line>>) {
    && files != []
    && (forall i | 0 <= i < |files| - 1 :: ClosedWell(limit, files[i]))
    && Bytes(files[|files| - 1]) <= limit
  }

  lemma AppendLineRolls(limit: nat, front: seq<seq<Line>>, last: seq<Line>, line: Line)
    requires RolledWell(limit, front + [last])
    ensures RolledWell(limit, AppendLine(limit, front + [last], line))
  {
    var files, open := front + [last], last + [line];
    assert open[..|open| - 1] == last;
    assert files[|files| - 1 := open] == front + [open];
    forall i | 0 <= i < |front| ensures ClosedWell(limit, front[i]) {
      assert files[i] == front[i];
    }
  }

  lemma AppendLineText(limit: nat, front: seq<seq<Line>>, last: seq<Line>, line: Line)
    ensures Flatten(AppendLine(limit, front + [last], line)) == Flatten(front + [last]) + [line]
  {
    var files, open := front + [last], last + [line];
    assert files[|files| - 1 := open] == front + [open];
    FlattenSnoc(front, last);
    FlattenSnoc(front, open);
    FlattenSnoc(front + [open], []);
    assert Flatten(front) + open == Flatten(front) + last + [line];
  }

  /** Whatever is written, the files in number order hold the old lines then the new one,
      and each closed file exceeds the limit only by its last line. */
  lemma AppendLineKeeps(limit: nat, files: seq<seq<Line>>, line: Line)
    requires RolledWell(limit, files)
    ensures RolledWell(limit, AppendLine(limit, files, line))
    ensures Flatten(AppendLine(limit, files, line)) == Flatten(files) + [line]
  {
    var front, last := files[..|files| - 1], files[|files| - 1];
    AppendLineRolls(limit, front, last, line);
    AppendLineText(limit, front, last, line);
    assert files == front + [last];
  }

  /** The last file of a sequence and what it holds. */
  predicate OpenFile(files: seq<seq<Line>>, bytes: nat) {
    files != [] && Bytes(files[|files| - 1]) == bytes
  }

  /** Appending as it is done: write to the open file, and open the next if that takes it past the limit. */
  lemma AppendSteps(limit: nat, files: seq<seq<Line>>, line: Line, bytes: nat)
    requires OpenFile(files, bytes)
    ensures var written := files[|files| - 1 := files[|files| - 1] + [line]];
      && OpenFile(written, bytes + |line|) && OpenFile(written + [[]], 0)
      && AppendLine(limit, files, line) == if bytes + |line| > limit then written + [[]] else written
  {
    BytesSnoc(files[|files| - 1], line);
    hide Bytes;
  }

  /** FileWriter with its counters; files holds the contents of file number 1, 2, ... */
  class FileWriter {
    var fileNumber: nat
    var bytesWritten: nat
    const limit: nat
    var files: seq<seq<Line>>

    ghost predicate Valid()
      reads this
    {
      RolledWell(limit, files) && fileNumber == |files| && OpenFile(files, bytesWritten)
    }

    constructor (rollSizeMb: nat)
      ensures Valid() && files == [[]] && limit == RollLimit(rollSizeMb)
    {
      limit := RollLimit(rollSizeMb);
      fileNumber := 0;
      files := [];
      bytesWritten := 0;
      new;
      RollFile();
    }

    method RollFile()
      modifies this
      ensures files == old(files) + [[]] && bytesWritten == 0
      ensures fileNumber == old(fileNumber) + 1
    {
      bytesWritten := 0;
      fileNumber := fileNumber + 1;
      files := files + [[]];
    }

    method Write(line: Line)
      requires Valid()
      modifies this
      ensures Valid() && files == AppendLine(limit, old(files), line)
      ensures Flatten(files) == Flatten(old(files)) + [line]
    {
      AppendLineKeeps(limit, files, line);
      AppendSteps(limit, files, line, bytesWritten);
      hide Bytes, RolledWell, Flatten, OpenFile, AppendLine;
      files := files[|files| - 1 := files[|files| - 1] + [line]];
      bytesWritten := bytesWritten + |line|;
      if bytesWritten > limit {
        RollFile();
      }
    }
  }
}
