# localplot core, modelled in Dafny

localplot drives a pen plotter over a serial link. It loads HPGL plot files
and streams their commands to the device. This project models two
sequential parts of it.

- hpgllistmodel.dfy (module `HpglListModel`) is the document collection
  `hpglListModel`. It is a class `ListModel` whose field `entries` is the
  ordered vector of loaded files. Each entry holds a `FileUid` (file name,
  path, uid), its polygon item handles and its item group (position, flags,
  child items). `insertRows`, `removeRows`, the single-row updates and
  `constrainItems` are methods that reassign `entries`. Each is proved
  against a pure function of the old list (`InsertRowsSpec`,
  `RemoveRowsSpec`, `ConstrainAll`), and the uid and correction lemmas are
  proved about those functions. `data`, `dataGroup`, `dataItems`,
  `dataItemsGroup`, `index` and `rowCount` are read-only functions.
- mainwindow.dfy (module `MainWindowLogic`) holds four things:
  - the scanner `get_nextInt`, as a method with a loop;
  - the streaming loop `do_plot`, as a method over the object list that
    writes to a `SerialPort`, an append-only event log with an `isOpen` flag;
  - the transform assignment of `handle_objectTransform`;
  - the effect of `do_loadFile` on the object list.

  The common-sense meaning of `do_plot` is given by pure functions. `Jobs`
  lists every command of every object in order. `WrittenCount` finds the
  first command that prints as `"OOB"`. `Trace` and `Sleeps` give the
  resulting port events and pacing sleeps.
- atoi.dfy (module `CString`) is C's `atoi`: skip white space, an optional
  sign, the longest digit prefix, 0 without digits. It comes with a
  round-trip lemma against a decimal printer.
- `hpgl_obj.dfy` (module `HpglTypes`) holds the records of hpgl_obj.h:
  `HpglCmd {opcode, coordList, pen}` and `HpglObj`.

A new row's uid is not a running maximum. It is the uid of the **current
last row** plus 1, or 0 on an empty list (hpgllistmodel.cpp:177-184), so
uids can repeat. Two consequences are proved:

- Removing the last row and then appending reuses its uid whenever that
  uid is one more than the new last row's, or 0 when no row is left
  (`RemoveLastThenAppendReusesUid`).
- Inserting several rows before the end gives them all the same uid
  (`MidInsertRepeatsUid`).

`constrainItems` moves a group by `|rect.x|` (and `|rect.y|`), not by the
distance to the bound, so where the edge ends up depends on where it
started. With the bound at the origin the edge always ends inside
(`ConstrainFromOriginFits`). With other bounds it can fall short: a left
edge at 2 against a bound at 5 ends at 4 (`ConstrainShortOfNonZeroBound`).
It can also land exactly on the bound (2.5 against 5), or overshoot it
(-20 against -10 ends at 0).

`cmdPrint` (a command's wire text or `"OOB"`), `cmdMM(i) / cutterSpeed` and
the `hpgl_obj(QString)` parser live in hpgl_obj.cpp. hpgl_obj.cpp is not
part of this model, so these are function-valued parameters, with nothing
assumed about them. The one exception is `cmdCount()`: `DoPlot` takes it
to be the length of the object's `cmdList`. Likewise, reading the file is a
parameter `readAll`, and the transforms built by Qt are opaque `Transform`
values.

A model index is a row and a column. It is valid when both are
non-negative, as `QModelIndex::isValid()` tests. So `index(0, -1)` is an
index that `data()` refuses, while `setGroupFlag`, which tests only the
row, accepts it.

## Model

| member | source | states |
|---|---|---|
| HpglListModel.ListModel.constructor | hpgllistmodel.cpp:8-12 | a new model holds no rows |
| HpglListModel.ListModel.RowCount | hpgllistmodel.cpp:141-148 | under the invalid root, index(r, 0) is valid exactly for 0 <= r < rowCount; under a valid parent the count is 0 |
| HpglListModel.ListModel.Index | hpgllistmodel.cpp:132-139 | the index is valid iff the row exists and the column is non-negative; an existing row's index carries that row and column, any other row gives the invalid index |
| HpglListModel.ListModel.Data | hpgllistmodel.cpp:14-31 | a string comes back iff the index is valid, its row exists and the role is DisplayRole; it is that row's file name |
| HpglListModel.ListModel.DataGroup | hpgllistmodel.cpp:33-49 | the row's item group for a valid in-range index, none otherwise |
| HpglListModel.ListModel.DataItemsGroup | hpgllistmodel.cpp:51-67 | the row's group and item list for a valid in-range index, none otherwise |
| HpglListModel.ListModel.DataItems | hpgllistmodel.cpp:69-83 | the row's item list for a valid in-range index, none otherwise |
| HpglListModel.ListModel.SetData | hpgllistmodel.cpp:85-107 | succeeds iff the index is valid, in range and the role is DisplayRole; then only that row's file name changes, otherwise nothing changes |
| HpglListModel.ListModel.SetFileUid | hpgllistmodel.cpp:109-119 | for a valid index, file name and path of that row are replaced and its uid kept; nothing else changes |
| HpglListModel.ListModel.SetGroupFlag | hpgllistmodel.cpp:121-130 | succeeds iff the row is in range, whatever the column; then only that row's group flag changes |
| HpglListModel.ListModel.InsertRows | hpgllistmodel.cpp:160-191 | fails with no change iff count < 0, row < 0 or row > length; otherwise the list becomes InsertRowsSpec of the old list |
| HpglListModel.ListModel.RemoveRows | hpgllistmodel.cpp:193-211 | fails with no change iff count <= 0, row < 0 or row + count - 1 >= length; otherwise the list becomes RemoveRowsSpec of the old list |
| HpglListModel.ListModel.InsertRow | hpgllistmodel.cpp:150-153 | insertRows with count 1 |
| HpglListModel.ListModel.RemoveRow | hpgllistmodel.cpp:155-158 | removeRows with count 1 |
| HpglListModel.ListModel.AddPolygon | hpgllistmodel.cpp:213-223 | for a valid index, exactly one item is appended to that row's item list and to its group; nothing else changes |
| HpglListModel.ListModel.ConstrainItems | hpgllistmodel.cpp:225-265 | every entry is replaced by its own correction (ConstrainAll); the loop touches row i only |
| HpglListModel.NextUid | hpgllistmodel.cpp:177-184 | 0 on an empty list; when uids increase down the list, larger than every uid in it |
| HpglListModel.InsertedUid | hpgllistmodel.cpp:177-187 | never below NextUid, so fresh whenever the uids increase; every row inserted before the end gets last uid + 1, and the k-th appended row gets NextUid + k |
| HpglListModel.InsertRowsSpec | hpgllistmodel.cpp:166-190 | the length grows by count; rows before row and from row on are kept in order around count blank rows named "NA"/"NA" with no items, whose uids are InsertedUid |
| HpglListModel.RemoveRowsSpec | hpgllistmodel.cpp:200-210 | the length shrinks by count; rows before row are kept, and row k of the result is old row k + count after that |
| HpglListModel.NextUidDuringInsert | hpgllistmodel.cpp:177-187 | at each step of the insert loop, last()+1 (or 0 on an empty list) equals the uid InsertedUid promises |
| HpglListModel.AppendKeepsUidsIncreasing | hpgllistmodel.cpp:177-187 | appending rows to a list with strictly increasing uids keeps them strictly increasing |
| HpglListModel.InsertIntoEmptyNumbersFromZero | hpgllistmodel.cpp:177-184 | rows inserted into an empty list get uids 0, 1, 2, ... |
| HpglListModel.RemoveKeepsUidsIncreasing | hpgllistmodel.cpp:196-210 | removal keeps the surviving uids and their order, so strictly increasing stays strictly increasing |
| HpglListModel.MidInsertRepeatsUid | hpgllistmodel.cpp:181-184 | every row inserted before the end gets the same uid, one more than the last row's |
| HpglListModel.RemoveLastThenAppendReusesUid | hpgllistmodel.cpp:177-207 | removing the last row and appending one gives the removed row's uid again whenever that uid is the one the shorter list hands out, including a single row with uid 0 |
| HpglListModel.InsertRemoveAppendExample | hpgllistmodel.cpp:160-210 | three rows into an empty list, row 1 removed, one row appended: uids 0, 2, 3 |
| HpglListModel.RemoveUndoesInsert | hpgllistmodel.cpp:160-210 | removing the rows just inserted at the same place restores the list |
| HpglListModel.ConstrainPos | hpgllistmodel.cpp:242-258 | x never decreases; a left edge left of the bound ends at x >= 0, and likewise a bottom edge below it; when the bottom edge is not below bottomLeft.y, a top edge above topLeft.y is brought exactly onto it |
| HpglListModel.ConstrainAll | hpgllistmodel.cpp:229-264 | the number of entries is kept and entry k depends only on entry k and its rectangle |
| HpglListModel.ConstrainInsideUnchanged | hpgllistmodel.cpp:242-263 | a group with rect.x >= bottomLeft.x, bottomLeft.y <= rect.y and rect.y + height <= topLeft.y is not moved |
| HpglListModel.ConstrainX | hpgllistmodel.cpp:242-246 | x gains abs(rect.x) iff rect.x < bottomLeft.x, and is kept otherwise; there is no right-hand check |
| HpglListModel.ConstrainY | hpgllistmodel.cpp:248-258 | y gains abs(rect.y) if rect.y < bottomLeft.y, else loses the top overshoot if the top edge passes topLeft.y, else is kept |
| HpglListModel.ConstrainFromOriginFits | hpgllistmodel.cpp:242-258 | with bottomLeft at the origin and a group no taller than topLeft.y, the moved rectangle lies inside the bounds |
| HpglListModel.ConstrainShortOfNonZeroBound | hpgllistmodel.cpp:242-246 | with bottomLeft.x = 5 a left edge at 2 moves only to 4, still short of the bound |
| CString.Atoi | mainwindow.cpp:378 | a string of digits gives its decimal value, and a '-' followed by digits gives the negated value |
| CString.AtoiOfIntToString | mainwindow.cpp:378 | atoi reads back every integer printed in decimal |
| CString.AtoiSkipsLeadingSpace | mainwindow.cpp:378 | leading white space does not change atoi's result |
| CString.AtoiReadsDigitPrefix | mainwindow.cpp:378 | after white space, an optional '+' or '-' and digits d, reading stops at the first non-digit and the result is the value of d, negated after '-' |
| CString.AtoiExamples | mainwindow.cpp:378 | "12ab" gives 12 and "PD100" gives 0 |
| CString.AtoiWithoutDigits | mainwindow.cpp:378 | a string with no digit gives 0 |
| MainWindowLogic.GetNextInt | mainwindow.cpp:368-379 | given a ',' or ';' at or after the start, the new index is the first such position, and the value is atoi of exactly the characters between; a delimiter at the start gives the same index and 0 |
| MainWindowLogic.WrittenCount | mainwindow.cpp:569-576 | the index of the first command that prints as "OOB", or the number of commands when none does |
| MainWindowLogic.SerialPort.Write | mainwindow.cpp:577 | an open port logs the written text; a closed one takes nothing; the open flag is kept |
| MainWindowLogic.SerialPort.Flush | mainwindow.cpp:580 | an open port logs a flush; a closed one takes nothing; the open flag is kept |
| MainWindowLogic.MainWindow.DoPlot | mainwindow.cpp:546-594 | with a null or closed port or no objects, nothing is written and CantPlot comes back; otherwise the log gains exactly the events of the commands before the first "OOB", and OutOfBounds is reported iff there is one; the port stays open or closed as it was |
| MainWindowLogic.JobsPrefix | mainwindow.cpp:563-568 | the commands of the first m objects are the front of the stream |
| MainWindowLogic.JobsAt | mainwindow.cpp:563-568 | command c of object i comes right after all commands of objects 0 .. i - 1 |
| MainWindowLogic.WrittenCountAtFirstOOB | mainwindow.cpp:569-576 | the stream stops exactly at the first "OOB" command |
| MainWindowLogic.WrittenCountAll | mainwindow.cpp:563-577 | with no "OOB" command the stream covers every command |
| MainWindowLogic.PacingKeepsWrites | mainwindow.cpp:577-590 | with or without pacing, the texts written are the printed commands in order; pacing only adds flushes |
| MainWindowLogic.PlotWritesAllWithoutOOB | mainwindow.cpp:563-577 | when no command prints "OOB", the written texts are every cmdPrint(i), object by object and command by command |
| MainWindowLogic.PlotStopsAtFirstOOB | mainwindow.cpp:569-576 | at the first "OOB" command the written texts are exactly those of the earlier commands, and "OOB" is never written |
| MainWindowLogic.SleepsOnlyNonZero | mainwindow.cpp:578-590 | no sleep without pacing; with pacing at most one per written command, never for a time of 0 |
| MainWindowLogic.MainWindow.HandleObjectTransform | mainwindow.cpp:610-615 | the object list becomes WithTransforms of the old one; the port is untouched |
| MainWindowLogic.WithTransforms | mainwindow.cpp:610-615 | every object gets the same scale, rotate and translate transforms, and its commands, line lists and extents are unchanged |
| MainWindowLogic.TransformLastWriterWins | mainwindow.cpp:610-615 | assigning transforms twice equals assigning only the second triple |
| MainWindowLogic.MainWindow.DoLoadFile | mainwindow.cpp:520-539 | an empty path leaves the list alone; otherwise the list becomes the single object parsed from the file's text |

## Left out

- dialogsettings.cpp: the settings dialog and QSettings persistence. It is UI.
- The MainWindow constructor and its UI slots (`update_*`, serial-port
  enumeration and configuration, `handle_selectFileBtn`, `do_updatePens`).
  They are widget wiring.
- `do_drawView` and `do_drawDemoView` are left out. They render the scene
  with floating-point DPI factors.
- The contents of the Qt transforms are left out. They are floating-point
  affine maths in a library, so a `Transform` is an opaque value here.
- The pacing sleep is left out. It spawns an external `sleep` process with
  a floating-point duration, so the model records the requested times that
  are not zero and does not wait.
- The per-entry QMutex locks are no-ops. The model is sequential, so
  interleavings with a concurrent renderer are not captured.
- Qt's model notifications are left out. These are `beginInsertRows` /
  `endInsertRows`, `beginRemoveRows` / `endRemoveRows` and `dataChanged`:
  signal emission to views.
- Three details of the scene graph are left out: the persistent index
  stored in a new group (`setData(QMODELINDEX_KEY, …)`), `cutoutBox`, and
  the deletion of removed entries. They are Qt object ownership.
- sceneBoundingRect is computed by Qt, so `ConstrainItems` takes each
  row's bounding rectangle as an input. Positions and rectangles are reals,
  so double rounding is not modelled.
- hpgl_obj.cpp (parser, `gen_line_lists`, `cmdPrint`, `cmdMM`) is not part
  of this model. Those operations are uninterpreted parameters.
- Console messages and their time stamps are left out. `DoPlot` returns the
  outcome (`CantPlot`, `OutOfBounds`, `Completed`) instead of printing it.
- Two side effects of `do_loadFile` are left out: opening and closing
  `inputFile`, and saving the path to QSettings. Both are I/O. The redraw
  at the end of `do_loadFile` and `handle_objectTransform` is UI.
- HpglListModel.ListModel.DataGroup, `DataItems`, `DataItemsGroup`: the
  source hands out pointers into the entry (and the entry's mutex). The
  model returns the values, so a caller's later writes through those
  pointers are not captured.
- CString.AtoiOfIntToString: integers are unbounded. atoi's undefined
  behaviour outside the C `int` range is not modelled.
- MainWindowLogic.GetNextInt requires a ',' or ';' at or after the start
  index. Without one, the source reads past the end of the string.
- HpglListModel.ListModel.SetFileUid and `AddPolygon` require a valid
  index to name an existing row. The source then indexes the vector
  without checking the range.
- HpglListModel.ListModel.InsertRows, `RemoveRows`: integers are unbounded.
  The C++ `int` arithmetic in `row + count` and `uid + 1` can overflow, for
  example in `removeRows(2, INT_MAX)`. That is undefined behaviour in C++,
  and the model does not capture it.
- MainWindowLogic.MainWindow.DoPlot: the port log records each command's
  whole text. The source writes `printThis.toStdString().c_str()`, so the
  device receives the text's UTF-8 bytes up to the first NUL character. For
  a text with an embedded NUL or characters outside ASCII, the contract
  does not describe the bytes actually sent.
- MainWindowLogic.GetNextInt: a Dafny string counts Unicode scalar values,
  while a QString index counts UTF-16 code units. After a character outside
  the Basic Multilingual Plane, the model's `next` differs from the
  source's index.
- HpglListModel.ListModel.AddPolygon appends the item to the group's
  children. Qt's `addToGroup` re-parents the item: it first takes it out of
  any other group, and adds no duplicate if it is already a child. For an
  item shared between rows the model does not capture that.
- HpglListModel.ListModel.DataGroup, `DataItems`, `DataItemsGroup`,
  `AddPolygon` take a QPersistentModelIndex, which Qt moves on row inserts
  and removals and invalidates when its row goes. The model's index is a
  plain row and column that does neither.
- A model index also carries the model it belongs to. Every index here
  belongs to the one list model, so that part is left out.
- MainWindowLogic.MainWindow.DoPlot takes `cmdCount()` to be the length of
  the object's `cmdList`. The body of `cmdCount` is in hpgl_obj.cpp, which
  is not part of this model.
