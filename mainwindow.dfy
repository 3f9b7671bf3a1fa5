/** The sequential logic of mainwindow.cpp: the coordinate scanner
    get_nextInt, the plot-streaming loop do_plot, the transform assignment
    of handle_objectTransform and the effect of do_loadFile on the object
    list. Serialising a command (cmdPrint), its pacing time
    (cmdMM / cutterSpeed) and parsing a file are implemented in
    hpgl_obj.cpp, which is not part of this model; they are taken as
    uninterpreted function parameters. */
module MainWindowLogic {
  import opened HpglTypes
  import CString

  predicate IsDelimiter(c: char)
  {
    c == ',' || c == ';'
  }

  /** get_nextInt(input, &index): scans from index to the next ',' or ';'
      and returns atoi of the characters before it, together with the new
      index. The source reads past the end of the string when no
      delimiter follows, so one must. */
  method GetNextInt(input: string, index: int) returns (value: int, next: int)
    requires 0 <= index
    requires exists j :: index <= j < |input| && IsDelimiter(input[j])
    ensures index <= next < |input| && IsDelimiter(input[next])
    ensures forall j :: index <= j < next ==> !IsDelimiter(input[j])
    ensures value == CString.Atoi(input[index..next])
    ensures IsDelimiter(input[index]) ==> next == index && value == 0
  {
    next := index;
    var tmp := input[next];
    var buffer := "";
    while !IsDelimiter(tmp)
      invariant index <= next < |input| && tmp == input[next]
      invariant forall j :: index <= j < next ==> !IsDelimiter(input[j])
      invariant buffer == input[index..next]
      invariant exists j :: next <= j < |input| && IsDelimiter(input[j])
      decreases |input| - next
    {
      buffer := buffer + [tmp];
      next := next + 1;
      tmp := input[next];
    }
    value := CString.Atoi(buffer);
  }

  /** One command of one object, in streaming order. */
  datatype Job = Job(obj: HpglObj, index: nat)

  /** The commands of one object, in index order. */
  function CmdsOf(o: HpglObj): (js: seq<Job>)
    ensures |js| == |o.cmdList|
    ensures forall c :: 0 <= c < |js| ==> js[c] == Job(o, c)
  {
    seq(|o.cmdList|, c requires 0 <= c < |o.cmdList| => Job(o, c))
  }

  /** Every command of every object: object by object, then command by
      command. */
  function Jobs(objs: seq<HpglObj>): seq<Job>
  {
    if objs == [] then [] else Jobs(objs[..|objs| - 1]) + CmdsOf(objs[|objs| - 1])
  }

  /** The sentinel cmdPrint returns for a command with a negative coordinate. */
  const OOB: string := "OOB"

  /** How many commands from the front the stream writes: all of them up
      to the first one that prints as OOB. */
  function WrittenCount(js: seq<Job>, cmdPrint: (HpglObj, nat) -> string): (k: nat)
    ensures k <= |js|
    ensures forall j :: 0 <= j < k ==> cmdPrint(js[j].obj, js[j].index) != OOB
    ensures k < |js| ==> cmdPrint(js[k].obj, js[k].index) == OOB
  {
    if js == [] then 0
    else if cmdPrint(js[0].obj, js[0].index) == OOB then 0
    else 1 + WrittenCount(js[1..], cmdPrint)
  }

  predicate NoOOB(js: seq<Job>, cmdPrint: (HpglObj, nat) -> string)
  {
    forall j :: 0 <= j < |js| ==> cmdPrint(js[j].obj, js[j].index) != OOB
  }

  /** What the serial port records: a write of some text, or a flush. */
  datatype PortEvent = Written(data: string) | Flushed

  /** The port events for one streamed command: its text, then a flush
      when pacing is on. */
  function JobEvents(j: Job, cmdPrint: (HpglObj, nat) -> string, pacing: bool): seq<PortEvent>
  {
    [Written(cmdPrint(j.obj, j.index))] + (if pacing then [Flushed] else [])
  }

  /** The port events for a run of streamed commands. */
  function Trace(js: seq<Job>, cmdPrint: (HpglObj, nat) -> string, pacing: bool): seq<PortEvent>
  {
    if js == [] then []
    else Trace(js[..|js| - 1], cmdPrint, pacing) + JobEvents(js[|js| - 1], cmdPrint, pacing)
  }

  /** The pacing sleeps for a run of streamed commands: one for each
      command whose computed time is not zero, when pacing is on. */
  function Sleeps(js: seq<Job>, sleepTime: (HpglObj, nat) -> real, pacing: bool): seq<real>
  {
    if js == [] then []
    else
      var j := js[|js| - 1];
      Sleeps(js[..|js| - 1], sleepTime, pacing)
        + (if pacing && sleepTime(j.obj, j.index) != 0.0 then [sleepTime(j.obj, j.index)] else [])
  }

  /** The texts written, in order, leaving the flushes out. */
  function Writes(events: seq<PortEvent>): seq<string>
  {
    if events == [] then []
    else
      var e := events[|events| - 1];
      Writes(events[..|events| - 1]) + (if e.Written? then [e.data] else [])
  }

  /** The text cmdPrint gives each of a run of commands. */
  function Printed(js: seq<Job>, cmdPrint: (HpglObj, nat) -> string): (ps: seq<string>)
    ensures |ps| == |js|
    ensures forall j :: 0 <= j < |js| ==> ps[j] == cmdPrint(js[j].obj, js[j].index)
  {
    seq(|js|, j requires 0 <= j < |js| => cmdPrint(js[j].obj, js[j].index))
  }

  /** The outcome do_plot reports on the console. */
  datatype PlotStatus = CantPlot | OutOfBounds | Completed

  /** The serial port: an append-only log of what was written to it. */
  class SerialPort {
    var isOpen: bool
    var log: seq<PortEvent>

    constructor (open: bool)
      ensures isOpen == open && log == []
    {
      isOpen := open;
      log := [];
    }

    /** QIODevice::write: a closed device takes nothing. */
    method Write(data: string)
      modifies this
      ensures isOpen == old(isOpen)
      ensures log == if isOpen then old(log) + [Written(data)] else old(log)
    {
      if isOpen {
        log := log + [Written(data)];
      }
    }

    method Flush()
      modifies this
      ensures isOpen == old(isOpen)
      ensures log == if isOpen then old(log) + [Flushed] else old(log)
    {
      if isOpen {
        log := log + [Flushed];
      }
    }
  }

  /** The part of MainWindow's state the core uses. */
  class MainWindow {
    var objList: seq<HpglObj>
    var serialBuffer: SerialPort?

    constructor ()
      ensures objList == [] && serialBuffer == null
    {
      objList := [];
      serialBuffer := null;
    }

    /** do_plot(): streams every command of every object to the port and
        stops at the first one that prints as OOB. cutterSpeedChecked is
        the pacing check box; sleepTime(o, i) stands for
        o.cmdMM(i) / cutterSpeed. The non-zero sleep times requested
        are returned. */
    method DoPlot(cmdPrint: (HpglObj, nat) -> string, cutterSpeedChecked: bool,
                  sleepTime: (HpglObj, nat) -> real)
      returns (status: PlotStatus, sleeps: seq<real>)
      modifies serialBuffer
      ensures serialBuffer != null ==> serialBuffer.isOpen == old(serialBuffer.isOpen)
      ensures status == CantPlot <==>
                serialBuffer == null || !old(serialBuffer.isOpen) || objList == []
      ensures status == CantPlot ==> sleeps == [] && (serialBuffer != null ==> serialBuffer.log == old(serialBuffer.log))
      ensures status != CantPlot ==>
                var js := Jobs(objList);
                var k := WrittenCount(js, cmdPrint);
                && (status == OutOfBounds <==> k < |js|)
                && serialBuffer.log == old(serialBuffer.log) + Trace(js[..k], cmdPrint, cutterSpeedChecked)
                && sleeps == Sleeps(js[..k], sleepTime, cutterSpeedChecked)
    {
      sleeps := [];
      if serialBuffer == null || !serialBuffer.isOpen || |objList| == 0 {
        return CantPlot, sleeps;
      }
      var port := serialBuffer;
      ghost var log0 := port.log;
      ghost var sent: seq<Job> := [];
      var i := 0;
      while i < |objList|
        invariant 0 <= i <= |objList|
        invariant sent == Jobs(objList[..i])
        invariant port.isOpen
        invariant NoOOB(sent, cmdPrint)
        invariant port.log == log0 + Trace(sent, cmdPrint, cutterSpeedChecked)
        invariant sleeps == Sleeps(sent, sleepTime, cutterSpeedChecked)
      {
        var obj := objList[i];
        var cmdCount := |obj.cmdList|;
        ghost var done := sent;
        assert done + CmdsOf(obj)[..0] == done;
        for cmdIndex := 0 to cmdCount
          invariant sent == done + CmdsOf(obj)[..cmdIndex]
          invariant port.isOpen
          invariant NoOOB(sent, cmdPrint)
          invariant port.log == log0 + Trace(sent, cmdPrint, cutterSpeedChecked)
          invariant sleeps == Sleeps(sent, sleepTime, cutterSpeedChecked)
        {
          var printThis := cmdPrint(obj, cmdIndex);
          if printThis == OOB {
            StopAtOOB(objList, i, cmdIndex, sent, cmdPrint);
            return OutOfBounds, sleeps;
          }
          StreamStep(log0, port.log, sent, Job(obj, cmdIndex), cmdPrint, cutterSpeedChecked, sleepTime);
          CmdsOfStep(done, obj, cmdIndex);
          sent := sent + [Job(obj, cmdIndex)];
          port.Write(printThis);
          if cutterSpeedChecked {
            port.Flush();
            var time := sleepTime(obj, cmdIndex);
            if time == 0.0 {
              continue;
            }
            sleeps := sleeps + [time];
          }
        }
        NextObject(objList, i);
        i := i + 1;
      }
      StreamedAll(objList, sent, cmdPrint);
      return Completed, sleeps;
    }

    /** handle_objectTransform(): gives every object the same three
        transforms, built by Qt from the dialog's values. */
    method HandleObjectTransform(tScale: Transform, tRotate: Transform, tTranslate: Transform)
      modifies this
      ensures serialBuffer == old(serialBuffer)
      ensures objList == WithTransforms(old(objList), tScale, tRotate, tTranslate)
    {
      ghost var objs0 := objList;
      var i := 0;
      while i < |objList|
        invariant 0 <= i <= |objList| == |objs0|
        invariant serialBuffer == old(serialBuffer)
        invariant forall k :: 0 <= k < i ==> objList[k] == objs0[k].(cmdTransformScale := tScale, cmdTransformRotate := tRotate, cmdTransformTranslate := tTranslate)
        invariant forall k :: i <= k < |objList| ==> objList[k] == objs0[k]
      {
        objList := objList[i := objList[i].(cmdTransformScale := tScale)];
        objList := objList[i := objList[i].(cmdTransformRotate := tRotate)];
        objList := objList[i := objList[i].(cmdTransformTranslate := tTranslate)];
        i := i + 1;
      }
    }

    /** do_loadFile(): with a non-empty path, the object list becomes the
        one object parsed from the file's text. readAll(path) is the text
        the file yields (empty when it cannot be opened, since the source
        does not check); parse stands for the hpgl_obj(QString) constructor. */
    method DoLoadFile(filePath: string, readAll: string -> string, parse: string -> HpglObj)
      modifies this
      ensures serialBuffer == old(serialBuffer)
      ensures objList == if filePath == [] then old(objList) else [parse(readAll(filePath))]
    {
      if filePath == [] {
        return;
      }
      objList := [];
      var buffer := readAll(filePath);
      objList := objList + [parse(buffer)];
    }
  }

  /** The list after handle_objectTransform. */
  function WithTransforms(objs: seq<HpglObj>, tScale: Transform, tRotate: Transform, tTranslate: Transform): (r: seq<HpglObj>)
    ensures |r| == |objs|
    ensures forall k :: 0 <= k < |r| ==>
              r[k].cmdTransformScale == tScale && r[k].cmdTransformRotate == tRotate && r[k].cmdTransformTranslate == tTranslate
    ensures forall k :: 0 <= k < |r| ==>
              r[k].cmdList == objs[k].cmdList && r[k].lineListUp == objs[k].lineListUp &&
              r[k].lineListDown == objs[k].lineListDown && r[k].width == objs[k].width && r[k].height == objs[k].height
  {
    seq(|objs|, k requires 0 <= k < |objs| =>
      objs[k].(cmdTransformScale := tScale, cmdTransformRotate := tRotate, cmdTransformTranslate := tTranslate))
  }

  /** The streaming order: the commands of the first m objects are the
      front of the commands of all of them. */
  lemma {:induction false} JobsPrefix(objs: seq<HpglObj>, m: nat)
    requires m <= |objs|
    ensures Jobs(objs[..m]) <= Jobs(objs)
  {
    var n := |objs|;
    if m < n {
      JobsPrefix(objs[..n - 1], m);
      assert objs[..n - 1][..m] == objs[..m];
    } else {
      assert objs[..m] == objs;
    }
  }

  /** Streaming one more command extends the port log and the sleeps by
      that command's share. */
  lemma StreamStep(log0: seq<PortEvent>, logBefore: seq<PortEvent>, js: seq<Job>, j: Job,
                   cmdPrint: (HpglObj, nat) -> string, pacing: bool, sleepTime: (HpglObj, nat) -> real)
    requires logBefore == log0 + Trace(js, cmdPrint, pacing)
    requires NoOOB(js, cmdPrint) && cmdPrint(j.obj, j.index) != OOB
    ensures NoOOB(js + [j], cmdPrint)
    ensures log0 + Trace(js + [j], cmdPrint, pacing) ==
              logBefore + [Written(cmdPrint(j.obj, j.index))] + (if pacing then [Flushed] else [])
    ensures Sleeps(js + [j], sleepTime, pacing) ==
              Sleeps(js, sleepTime, pacing) + (if pacing && sleepTime(j.obj, j.index) != 0.0 then [sleepTime(j.obj, j.index)] else [])
  {
  }

  lemma CmdsOfStep(done: seq<Job>, o: HpglObj, c: nat)
    requires c < |o.cmdList|
    ensures done + CmdsOf(o)[..c + 1] == (done + CmdsOf(o)[..c]) + [Job(o, c)]
  {
  }

  /** After the last command of object i, the first i + 1 objects are done. */
  lemma NextObject(objs: seq<HpglObj>, i: nat)
    requires i < |objs|
    ensures Jobs(objs[..i + 1]) == Jobs(objs[..i]) + CmdsOf(objs[i])[..|objs[i].cmdList|]
  {
    assert objs[..i + 1][..i] == objs[..i];
    assert CmdsOf(objs[i])[..|objs[i].cmdList|] == CmdsOf(objs[i]);
  }

  /** The first command that prints as OOB is where the stream stops. */
  lemma StopAtOOB(objs: seq<HpglObj>, i: nat, c: nat, sent: seq<Job>, cmdPrint: (HpglObj, nat) -> string)
    requires i < |objs| && c < |objs[i].cmdList|
    requires sent == Jobs(objs[..i]) + CmdsOf(objs[i])[..c]
    requires NoOOB(sent, cmdPrint) && cmdPrint(objs[i], c) == OOB
    ensures WrittenCount(Jobs(objs), cmdPrint) == |sent| < |Jobs(objs)|
    ensures Jobs(objs)[..|sent|] == sent
  {
    var all := Jobs(objs);
    NextObject(objs, i);
    JobsPrefix(objs, i + 1);
    assert CmdsOf(objs[i])[..|objs[i].cmdList|] == CmdsOf(objs[i]);
    assert sent + [Job(objs[i], c)] <= Jobs(objs[..i + 1]);
    assert all[..|sent|] == sent && all[|sent|] == Job(objs[i], c);
    WrittenCountAtFirstOOB(all, |sent|, cmdPrint);
  }

  /** Without an OOB command, the stream writes everything. */
  lemma StreamedAll(objs: seq<HpglObj>, sent: seq<Job>, cmdPrint: (HpglObj, nat) -> string)
    requires sent == Jobs(objs[..|objs|]) && NoOOB(sent, cmdPrint)
    ensures WrittenCount(Jobs(objs), cmdPrint) == |Jobs(objs)|
    ensures Jobs(objs)[..|Jobs(objs)|] == sent
  {
    assert objs[..|objs|] == objs;
    WrittenCountAll(sent, cmdPrint);
  }

  lemma WrittenCountAtFirstOOB(js: seq<Job>, k: nat, cmdPrint: (HpglObj, nat) -> string)
    requires k < |js| && cmdPrint(js[k].obj, js[k].index) == OOB
    requires NoOOB(js[..k], cmdPrint)
    ensures WrittenCount(js, cmdPrint) == k
  {
  }

  lemma WrittenCountAll(js: seq<Job>, cmdPrint: (HpglObj, nat) -> string)
    requires NoOOB(js, cmdPrint)
    ensures WrittenCount(js, cmdPrint) == |js|
  {
  }

  /** Where each command sits in the stream: command c of object i comes
      right after all commands of the objects before it. */
  lemma JobsAt(objs: seq<HpglObj>, i: nat, c: nat)
    requires i < |objs| && c < |objs[i].cmdList|
    ensures |Jobs(objs[..i])| + c < |Jobs(objs)|
    ensures Jobs(objs)[|Jobs(objs[..i])| + c] == Job(objs[i], c)
  {
    NextObject(objs, i);
    JobsPrefix(objs, i + 1);
    assert CmdsOf(objs[i])[..|objs[i].cmdList|] == CmdsOf(objs[i]);
    assert Jobs(objs[..i + 1])[|Jobs(objs[..i])| + c] == Job(objs[i], c);
  }

  /** Pacing adds flushes but never changes which texts are written: with
      or without it, the writes are the printed commands, in order. */
  lemma {:induction false} PacingKeepsWrites(js: seq<Job>, cmdPrint: (HpglObj, nat) -> string, pacing: bool)
    ensures Writes(Trace(js, cmdPrint, pacing)) == Printed(js, cmdPrint)
  {
    if js != [] {
      var front := js[..|js| - 1];
      var j := js[|js| - 1];
      PacingKeepsWrites(front, cmdPrint, pacing);
      WritesAppend(Trace(front, cmdPrint, pacing), JobEvents(j, cmdPrint, pacing));
      assert Writes(JobEvents(j, cmdPrint, pacing)) == [cmdPrint(j.obj, j.index)] by {
        var w: seq<PortEvent> := [Written(cmdPrint(j.obj, j.index))];
        assert w[..0] == [];
        assert Writes(w) == [cmdPrint(j.obj, j.index)];
        if pacing {
          var e := JobEvents(j, cmdPrint, pacing);
          assert e[..1] == w && e[1] == Flushed;
          assert Writes(e) == Writes(w);
        } else {
          assert JobEvents(j, cmdPrint, pacing) == w;
        }
      }
      assert Printed(js, cmdPrint) == Printed(front, cmdPrint) + [cmdPrint(j.obj, j.index)];
    }
  }

  lemma {:induction false} WritesAppend(a: seq<PortEvent>, b: seq<PortEvent>)
    ensures Writes(a + b) == Writes(a) + Writes(b)
  {
    if b != [] {
      var b' := b[..|b| - 1];
      WritesAppend(a, b');
      assert (a + b)[..|a + b| - 1] == a + b';
    } else {
      assert a + b == a;
    }
  }

  /** When no command prints as OOB, do_plot writes every command of every
      object, object by object and command by command. */
  lemma PlotWritesAllWithoutOOB(objs: seq<HpglObj>, cmdPrint: (HpglObj, nat) -> string, pacing: bool)
    requires NoOOB(Jobs(objs), cmdPrint)
    ensures var js := Jobs(objs);
            Writes(Trace(js[..WrittenCount(js, cmdPrint)], cmdPrint, pacing)) == Printed(js, cmdPrint)
  {
    var js := Jobs(objs);
    WrittenCountAll(js, cmdPrint);
    assert js[..|js|] == js;
    PacingKeepsWrites(js, cmdPrint, pacing);
  }

  /** At the first command that prints as OOB, do_plot has written exactly
      the commands before it; neither it nor any later one is written. */
  lemma PlotStopsAtFirstOOB(js: seq<Job>, k: nat, cmdPrint: (HpglObj, nat) -> string, pacing: bool)
    requires k < |js| && cmdPrint(js[k].obj, js[k].index) == OOB
    requires NoOOB(js[..k], cmdPrint)
    ensures Writes(Trace(js[..WrittenCount(js, cmdPrint)], cmdPrint, pacing)) == Printed(js[..k], cmdPrint)
    ensures OOB !in Writes(Trace(js[..WrittenCount(js, cmdPrint)], cmdPrint, pacing))
  {
    WrittenCountAtFirstOOB(js, k, cmdPrint);
    PacingKeepsWrites(js[..k], cmdPrint, pacing);
  }

  /** Without pacing nothing sleeps; with it, one sleep per written command
      whose time is not zero, so commands with time 0 are skipped. */
  lemma {:induction false} SleepsOnlyNonZero(js: seq<Job>, sleepTime: (HpglObj, nat) -> real, pacing: bool)
    ensures !pacing ==> Sleeps(js, sleepTime, pacing) == []
    ensures |Sleeps(js, sleepTime, pacing)| <= |js|
    ensures forall t :: t in Sleeps(js, sleepTime, pacing) ==> t != 0.0
  {
    if js != [] {
      SleepsOnlyNonZero(js[..|js| - 1], sleepTime, pacing);
    }
  }

  /** handle_objectTransform is last-writer-wins: applying it twice is the
      same as applying only the second. */
  lemma TransformLastWriterWins(objs: seq<HpglObj>, s1: Transform, r1: Transform, t1: Transform,
                                s2: Transform, r2: Transform, t2: Transform)
    ensures WithTransforms(WithTransforms(objs, s1, r1, t1), s2, r2, t2) == WithTransforms(objs, s2, r2, t2)
  {
  }
}
