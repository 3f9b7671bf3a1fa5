/** The document collection of hpgllistmodel.cpp: an ordered vector of
    loaded files, each with a uid, a file name and path, the polygon items
    drawn for it and the item group that positions them in the scene.
    The per-entry mutexes only serialise concurrent access; the model is
    sequential, so taking a lock is a no-op here. */
module HpglListModel {

  /** Qt::DisplayRole. */
  const DisplayRole: int := 0

  /** A QModelIndex (or QPersistentModelIndex) of this model: a row and a
      column. The default-constructed index is row -1, column -1. */
  datatype ModelIndex = ModelIndex(r: int, column: int)
  {
    /** QModelIndex::row(). */
    function Row(): int
    {
      r
    }

    /** QModelIndex::isValid(): both row and column are non-negative. */
    predicate IsValid()
    {
      r >= 0 && column >= 0
    }
  }

  /** QModelIndex(): the invalid index. */
  const NoIndex: ModelIndex := ModelIndex(-1, -1)

  /** A polygon item handle (a QGraphicsPolygonItem pointer). */
  type ItemHandle = nat

  /** QPointF and QRectF, on reals; floating-point rounding is not modelled. */
  datatype PointF = PointF(x: real, y: real)
  datatype RectF = RectF(x: real, y: real, width: real, height: real)

  /** What the model needs of a QGraphicsItemGroup: its position, the
      flags set through setGroupFlag and the items added to it. */
  datatype ItemGroup = ItemGroup(pos: PointF, flags: map<int, bool>, children: seq<ItemHandle>)

  /** file_uid: the name of a loaded file and its identifier. */
  datatype FileUid = FileUid(filename: string, path: string, uid: int)

  /** hpgl_file: one row of the model. */
  datatype Entry = Entry(name: FileUid, items: seq<ItemHandle>, group: ItemGroup)

  datatype Option<T> = None | Some(value: T)

  /** The value QVariant carries back from data(). */
  datatype Variant = NullVariant | StringVariant(s: string)

  /** A freshly inserted row: "NA" names, no items, a new group at the origin. */
  function BlankEntry(uid: int): Entry
  {
    Entry(FileUid("NA", "NA", uid), [], ItemGroup(PointF(0.0, 0.0), map[], []))
  }

  /** The uid insertRows gives a new row: one more than the uid of the
      current last row, or 0 when there is none. */
  function NextUid(s: seq<Entry>): (u: int)
    ensures s == [] ==> u == 0
    ensures StrictlyIncreasing(Uids(s)) ==> forall k :: 0 <= k < |s| ==> s[k].name.uid < u
  {
    if |s| == 0 then 0 else s[|s| - 1].name.uid + 1
  }

  /** The uid of the k-th of the rows that insertRows(row, ...) adds to s.
      Only when appending does the last row change during the loop. */
  function InsertedUid(s: seq<Entry>, row: int, k: nat): (u: int)
    ensures u >= NextUid(s)
    ensures 0 <= row < |s| ==> u == s[|s| - 1].name.uid + 1
    ensures row >= |s| ==> u == NextUid(s) + k
  {
    if row < |s| then NextUid(s) else NextUid(s) + k
  }

  function InsertedBlock(s: seq<Entry>, row: int, n: nat): (b: seq<Entry>)
    ensures |b| == n
    ensures forall k :: 0 <= k < n ==> b[k] == BlankEntry(InsertedUid(s, row, k))
  {
    seq(n, k requires 0 <= k < n => BlankEntry(InsertedUid(s, row, k)))
  }

  /** An entry renamed by setData. */
  function Renamed(e: Entry, filename: string): Entry
  {
    e.(name := e.name.(filename := filename))
  }

  /** An entry after setFileUid: new file name and path, same uid. */
  function Relocated(e: Entry, f: FileUid): Entry
  {
    e.(name := e.name.(filename := f.filename, path := f.path))
  }

  /** An entry after setGroupFlag: one flag of its group set. */
  function Flagged(e: Entry, flag: int, flagValue: bool): Entry
  {
    e.(group := e.group.(flags := e.group.flags[flag := flagValue]))
  }

  /** An entry after addPolygon: the item joins its list and its group. */
  function WithPolygon(e: Entry, poly: ItemHandle): Entry
  {
    e.(items := e.items + [poly], group := e.group.(children := e.group.children + [poly]))
  }

  /** The list after a successful insertRows(row, count). */
  function InsertRowsSpec(s: seq<Entry>, row: nat, count: nat): (r: seq<Entry>)
    requires row <= |s|
    ensures |r| == |s| + count
    ensures r[..row] == s[..row] && r[row + count..] == s[row..]
    ensures forall k :: row <= k < row + count ==> r[k] == BlankEntry(InsertedUid(s, row, k - row))
  {
    s[..row] + InsertedBlock(s, row, count) + s[row..]
  }

  /** The list after a successful removeRows(row, count). */
  function RemoveRowsSpec(s: seq<Entry>, row: nat, count: nat): (r: seq<Entry>)
    requires row + count <= |s|
    ensures |r| == |s| - count
    ensures forall k :: 0 <= k < row ==> r[k] == s[k]
    ensures forall k :: row <= k < |r| ==> r[k] == s[k + count]
  {
    s[..row] + s[row + count..]
  }

  /** The argument checks of insertRows and removeRows. */
  predicate InsertArgsOk(len: int, row: int, count: int)
  {
    !(count < 0 || row < 0 || row > len)
  }

  predicate RemoveArgsOk(len: int, row: int, count: int)
  {
    !(count <= 0 || row < 0 || row + count - 1 >= len)
  }

  /** The uids of s, in row order. */
  function Uids(s: seq<Entry>): (u: seq<int>)
    ensures |u| == |s| && forall k :: 0 <= k < |s| ==> u[k] == s[k].name.uid
  {
    seq(|s|, k requires 0 <= k < |s| => s[k].name.uid)
  }

  ghost predicate StrictlyIncreasing(u: seq<int>)
  {
    forall i, j :: 0 <= i < j < |u| ==> u[i] < u[j]
  }

  /** constrainItems' correction of one group position, given the group's
      scene bounding rectangle: x gains |rect.x| when the left edge is left
      of bottomLeft.x; y gains |rect.y| when the bottom edge is below
      bottomLeft.y, and otherwise loses the overshoot of the top edge. */
  function ConstrainPos(pos: PointF, rect: RectF, bottomLeft: PointF, topLeft: PointF): (p: PointF)
    ensures p.x >= pos.x
    ensures rect.x < bottomLeft.x ==> rect.x + (p.x - pos.x) >= 0.0
    ensures rect.y < bottomLeft.y ==> rect.y + (p.y - pos.y) >= 0.0
    ensures rect.y >= bottomLeft.y && rect.y + rect.height > topLeft.y ==>
              rect.y + (p.y - pos.y) + rect.height == topLeft.y
  {
    var x := if rect.x < bottomLeft.x then pos.x + Abs(rect.x) else pos.x;
    var y := if rect.y < bottomLeft.y then pos.y + Abs(rect.y)
             else if rect.y + rect.height > topLeft.y then pos.y - (rect.y + rect.height - topLeft.y)
             else pos.y;
    PointF(x, y)
  }

  function Abs(v: real): (a: real)
    ensures a >= 0.0 && (a == v || a == -v)
  {
    if v < 0.0 then -v else v
  }

  /** One entry after constrainItems: only its group position changes. */
  function ConstrainEntry(e: Entry, rect: RectF, bottomLeft: PointF, topLeft: PointF): Entry
  {
    e.(group := e.group.(pos := ConstrainPos(e.group.pos, rect, bottomLeft, topLeft)))
  }

  /** The list after constrainItems, entry by entry. */
  function ConstrainAll(s: seq<Entry>, rects: seq<RectF>, bottomLeft: PointF, topLeft: PointF): (r: seq<Entry>)
    requires |rects| == |s|
    ensures |r| == |s|
    ensures forall k :: 0 <= k < |s| ==> r[k] == ConstrainEntry(s[k], rects[k], bottomLeft, topLeft)
  {
    seq(|s|, k requires 0 <= k < |s| => ConstrainEntry(s[k], rects[k], bottomLeft, topLeft))
  }

  /** hpglListModel. */
  class ListModel {
    /** hpglData. */
    var entries: seq<Entry>

    constructor ()
      ensures entries == []
    {
      entries := [];
    }

    predicate InRange(row: int)
      reads this
    {
      0 <= row < |entries|
    }

    /** rowCount(parent): under the invalid root, the number of rows for
        which index() hands out a valid index; a list has no children, so
        0 under a valid parent. */
    function RowCount(parent: ModelIndex): (n: int)
      reads this
      ensures parent.IsValid() ==> n == 0
      ensures !parent.IsValid() ==> n >= 0 && forall r :: Index(r, 0).IsValid() <==> 0 <= r < n
    {
      if parent.IsValid() then 0 else |entries|
    }

    /** index(row, column): createIndex(row, column) for an existing row,
        the invalid index otherwise. createIndex does not check the column,
        so a negative column yields an index that is not valid. */
    function Index(row: int, column: int): (i: ModelIndex)
      reads this
      ensures i.IsValid() <==> InRange(row) && column >= 0
      ensures InRange(row) ==> i.Row() == row && i.column == column
      ensures !InRange(row) ==> i == NoIndex
    {
      if 0 <= row < |entries| then ModelIndex(row, column) else NoIndex
    }

    /** data(index, role): the row's file name for DisplayRole, otherwise
        an empty QVariant. */
    function Data(index: ModelIndex, role: int): (v: Variant)
      reads this
      ensures v.StringVariant? <==> index.IsValid() && InRange(index.Row()) && role == DisplayRole
      ensures v.StringVariant? ==> v.s == entries[index.Row()].name.filename
    {
      if !index.IsValid() then NullVariant
      else if index.Row() >= |entries| || index.Row() < 0 then NullVariant
      else if role == DisplayRole then StringVariant(entries[index.Row()].name.filename)
      else NullVariant
    }

    /** dataGroup(index, locker, group): the row's item group, or None. */
    function DataGroup(index: ModelIndex): (g: Option<ItemGroup>)
      reads this
      ensures g.Some? <==> index.IsValid() && InRange(index.Row())
      ensures g.Some? ==> g.value == entries[index.Row()].group
    {
      if !index.IsValid() then None
      else if index.Row() >= |entries| || index.Row() < 0 then None
      else Some(entries[index.Row()].group)
    }

    /** dataItems(index, locker, items): the row's item list, or None. */
    function DataItems(index: ModelIndex): (items: Option<seq<ItemHandle>>)
      reads this
      ensures items.Some? <==> index.IsValid() && InRange(index.Row())
      ensures items.Some? ==> items.value == entries[index.Row()].items
    {
      if !index.IsValid() then None
      else if index.Row() >= |entries| || index.Row() < 0 then None
      else Some(entries[index.Row()].items)
    }

    /** dataItemsGroup(index, locker, group, items): both, or None. */
    function DataItemsGroup(index: ModelIndex): (gi: Option<(ItemGroup, seq<ItemHandle>)>)
      reads this
      ensures gi.Some? <==> index.IsValid() && InRange(index.Row())
      ensures gi.Some? ==> gi.value == (entries[index.Row()].group, entries[index.Row()].items)
    {
      if !index.IsValid() then None
      else if index.Row() >= |entries| || index.Row() < 0 then None
      else Some((entries[index.Row()].group, entries[index.Row()].items))
    }

    /** setData(index, value, role): renames the row for DisplayRole only. */
    method SetData(index: ModelIndex, value: string, role: int) returns (ok: bool)
      modifies this
      ensures ok <==> index.IsValid() && old(InRange(index.Row())) && role == DisplayRole
      ensures ok ==> entries == old(entries)[index.Row() := Renamed(old(entries)[index.Row()], value)]
      ensures !ok ==> entries == old(entries)
    {
      if !index.IsValid() {
        return false;
      }
      if index.Row() >= |entries| || index.Row() < 0 {
        return false;
      }
      if role == DisplayRole {
        entries := entries[index.Row() := Renamed(entries[index.Row()], value)];
        return true;
      }
      return false;
    }

    /** setFileUid(index, name): copies file name and path, keeps the uid.
        The source checks only that the index is valid and then indexes
        the vector, so a valid index must name an existing row. */
    method SetFileUid(index: ModelIndex, filename: FileUid) returns (ok: bool)
      requires index.IsValid() ==> InRange(index.Row())
      modifies this
      ensures ok <==> index.IsValid()
      ensures ok ==> entries == old(entries)[index.Row() := Relocated(old(entries)[index.Row()], filename)]
      ensures ok ==> entries[index.Row()].name.uid == old(entries)[index.Row()].name.uid
      ensures !ok ==> entries == old(entries)
    {
      if index.IsValid() {
        entries := entries[index.Row() := Relocated(entries[index.Row()], filename)];
        return true;
      }
      return false;
    }

    /** setGroupFlag(index, flag, value): checks the row range only, not
        isValid(), so an index with a negative column is accepted. */
    method SetGroupFlag(index: ModelIndex, flag: int, flagValue: bool) returns (ok: bool)
      modifies this
      ensures ok <==> old(InRange(index.Row()))
      ensures ok ==> entries == old(entries)[index.Row() := Flagged(old(entries)[index.Row()], flag, flagValue)]
      ensures !ok ==> entries == old(entries)
    {
      if index.Row() >= 0 && index.Row() < |entries| {
        entries := entries[index.Row() := Flagged(entries[index.Row()], flag, flagValue)];
        return true;
      }
      return false;
    }

    /** insertRows(row, count): count blank rows before row. */
    method InsertRows(row: int, count: int) returns (ok: bool)
      modifies this
      ensures ok <==> InsertArgsOk(old(|entries|), row, count)
      ensures ok ==> entries == InsertRowsSpec(old(entries), row, count)
      ensures !ok ==> entries == old(entries)
    {
      if count < 0 || row < 0 || row > |entries| {
        return false;
      }
      ghost var s0 := entries;
      var i := row;
      while i < row + count
        invariant row <= i <= row + count
        invariant entries == s0[..row] + InsertedBlock(s0, row, i - row) + s0[row..]
      {
        var uid: int;
        if |entries| == 0 {
          uid := 0;
        } else {
          uid := entries[|entries| - 1].name.uid + 1;
        }
        var newFile := BlankEntry(uid);
        InsertStep(s0, row, i, entries, newFile);
        entries := entries[..i] + [newFile] + entries[i..];
        i := i + 1;
      }
      return true;
    }

    /** removeRows(row, count): drops rows row .. row + count - 1, last first. */
    method RemoveRows(row: int, count: int) returns (ok: bool)
      modifies this
      ensures ok <==> RemoveArgsOk(old(|entries|), row, count)
      ensures ok ==> entries == RemoveRowsSpec(old(entries), row, count)
      ensures !ok ==> entries == old(entries)
    {
      if count <= 0 || row < 0 || row + count - 1 >= |entries| {
        return false;
      }
      ghost var s0 := entries;
      var i := row + count - 1;
      while i >= row
        invariant row - 1 <= i <= row + count - 1
        invariant entries == s0[..i + 1] + s0[row + count..]
      {
        entries := entries[..i] + entries[i + 1..];
        i := i - 1;
      }
      return true;
    }

    method InsertRow(row: int) returns (ok: bool)
      modifies this
      ensures ok <==> InsertArgsOk(old(|entries|), row, 1)
      ensures ok ==> entries == InsertRowsSpec(old(entries), row, 1)
      ensures !ok ==> entries == old(entries)
    {
      ok := InsertRows(row, 1);
    }

    method RemoveRow(row: int) returns (ok: bool)
      modifies this
      ensures ok <==> RemoveArgsOk(old(|entries|), row, 1)
      ensures ok ==> entries == RemoveRowsSpec(old(entries), row, 1)
      ensures !ok ==> entries == old(entries)
    {
      ok := RemoveRows(row, 1);
    }

    /** addPolygon(index, poly): appends poly to the row's item list and to
        its group. Like setFileUid it trusts a valid index. */
    method AddPolygon(index: ModelIndex, poly: ItemHandle)
      requires index.IsValid() ==> InRange(index.Row())
      modifies this
      ensures !index.IsValid() ==> entries == old(entries)
      ensures index.IsValid() ==> entries == old(entries)[index.Row() := WithPolygon(old(entries)[index.Row()], poly)]
    {
      if !index.IsValid() {
        return;
      }
      entries := entries[index.Row() := WithPolygon(entries[index.Row()], poly)];
    }

    /** constrainItems(bottomLeft, topLeft): moves each group back towards
        the bounds; rects[i] is row i's scene bounding rectangle. */
    method ConstrainItems(bottomLeft: PointF, topLeft: PointF, rects: seq<RectF>)
      requires |rects| == |entries|
      modifies this
      ensures entries == ConstrainAll(old(entries), rects, bottomLeft, topLeft)
    {
      ghost var s0 := entries;
      var i := 0;
      while i < |entries|
        invariant 0 <= i <= |entries| == |s0|
        invariant forall k :: 0 <= k < i ==> entries[k] == ConstrainEntry(s0[k], rects[k], bottomLeft, topLeft)
        invariant forall k :: i <= k < |entries| ==> entries[k] == s0[k]
      {
        var modCount := 0;
        var e := entries[i];
        var pos := e.group.pos;
        var rect := rects[i];
        if rect.x < bottomLeft.x {
          modCount := modCount + 1;
          pos := pos.(x := pos.x + Abs(rect.x));
        }
        if rect.y < bottomLeft.y {
          modCount := modCount + 1;
          pos := pos.(y := pos.y + Abs(rect.y));
        } else if rect.y + rect.height > topLeft.y {
          modCount := modCount + 1;
          pos := pos.(y := pos.y - (rect.y + rect.height - topLeft.y));
        }
        if modCount != 0 {
          entries := entries[i := e.(group := e.group.(pos := pos))];
        }
        i := i + 1;
      }
    }
  }

  /** The proof step for insertRows' loop: the last row seen by the k-th
      iteration gives the uid InsertedUid promises. */
  lemma NextUidDuringInsert(s: seq<Entry>, row: nat, k: nat)
    requires row <= |s|
    ensures NextUid(s[..row] + InsertedBlock(s, row, k) + s[row..]) == InsertedUid(s, row, k)
  {
  }

  /** One iteration of insertRows' loop: the row built from the current
      last row's uid, inserted at i, extends the block by one row. */
  lemma InsertStep(s: seq<Entry>, row: nat, i: nat, cur: seq<Entry>, newFile: Entry)
    requires row <= |s| && row <= i
    requires cur == s[..row] + InsertedBlock(s, row, i - row) + s[row..]
    requires newFile == BlankEntry(NextUid(cur))
    ensures cur[..i] + [newFile] + cur[i..] == s[..row] + InsertedBlock(s, row, i + 1 - row) + s[row..]
  {
    NextUidDuringInsert(s, row, i - row);
    assert InsertedBlock(s, row, i + 1 - row) == InsertedBlock(s, row, i - row) + [newFile];
    assert cur[..i] == s[..row] + InsertedBlock(s, row, i - row);
    assert cur[i..] == s[row..];
  }

  /** Appending rows keeps uids strictly increasing. */
  lemma AppendKeepsUidsIncreasing(s: seq<Entry>, count: nat)
    requires StrictlyIncreasing(Uids(s))
    ensures StrictlyIncreasing(Uids(InsertRowsSpec(s, |s|, count)))
  {
  }

  /** Rows inserted into an empty list are numbered 0, 1, 2, ... */
  lemma InsertIntoEmptyNumbersFromZero(count: nat)
    ensures forall k :: 0 <= k < count ==> InsertRowsSpec([], 0, count)[k].name.uid == k
  {
  }

  /** Removing rows keeps the surviving uids in order. */
  lemma RemoveKeepsUidsIncreasing(s: seq<Entry>, row: nat, count: nat)
    requires row + count <= |s|
    requires StrictlyIncreasing(Uids(s))
    ensures StrictlyIncreasing(Uids(RemoveRowsSpec(s, row, count)))
  {
  }

  /** Inserting several rows before the end gives them all the same uid,
      one more than the last row's, since the last row does not change. */
  lemma MidInsertRepeatsUid(s: seq<Entry>, row: nat, count: nat, k: nat)
    requires row < |s| && k < count
    ensures InsertRowsSpec(s, row, count)[row + k].name.uid == s[|s| - 1].name.uid + 1
  {
  }

  /** Removing the last row and appending one reuses the removed uid
      whenever it was the uid the shorter list would hand out (always so
      for a single row, whose uid is 0). */
  lemma RemoveLastThenAppendReusesUid(s: seq<Entry>)
    requires |s| >= 1 && s[|s| - 1].name.uid == NextUid(s[..|s| - 1])
    ensures var t := RemoveRowsSpec(s, |s| - 1, 1);
            InsertRowsSpec(t, |t|, 1)[|t|].name.uid == s[|s| - 1].name.uid
  {
  }

  /** Three rows inserted into an empty list, then row 1 removed, then one
      row appended: the uids are 0, 2, 3. */
  lemma InsertRemoveAppendExample()
    ensures var a := InsertRowsSpec([], 0, 3);
            var b := RemoveRowsSpec(a, 1, 1);
            Uids(InsertRowsSpec(b, |b|, 1)) == [0, 2, 3]
  {
  }

  /** removeRows undoes insertRows at the same place. */
  lemma RemoveUndoesInsert(s: seq<Entry>, row: nat, count: nat)
    requires row <= |s|
    ensures RemoveRowsSpec(InsertRowsSpec(s, row, count), row, count) == s
  {
  }

  /** An entry whose group already lies inside the bounds is not moved. */
  lemma ConstrainInsideUnchanged(pos: PointF, rect: RectF, bottomLeft: PointF, topLeft: PointF)
    requires rect.x >= bottomLeft.x && bottomLeft.y <= rect.y && rect.y + rect.height <= topLeft.y
    ensures ConstrainPos(pos, rect, bottomLeft, topLeft) == pos
  {
  }

  /** x moves right by |rect.x| exactly when the left edge is too far left;
      there is no check against a right-hand bound. */
  lemma ConstrainX(pos: PointF, rect: RectF, bottomLeft: PointF, topLeft: PointF)
    ensures var p := ConstrainPos(pos, rect, bottomLeft, topLeft);
            (rect.x < bottomLeft.x ==> p.x == pos.x + Abs(rect.x)) &&
            (rect.x >= bottomLeft.x ==> p.x == pos.x)
  {
  }

  /** y moves up by |rect.y| when the bottom edge is too low, otherwise
      down by the overshoot when the top edge is too high. */
  lemma ConstrainY(pos: PointF, rect: RectF, bottomLeft: PointF, topLeft: PointF)
    ensures var p := ConstrainPos(pos, rect, bottomLeft, topLeft);
            (rect.y < bottomLeft.y ==> p.y == pos.y + Abs(rect.y)) &&
            (rect.y >= bottomLeft.y && rect.y + rect.height > topLeft.y ==>
               p.y == pos.y - (rect.y + rect.height - topLeft.y)) &&
            (rect.y >= bottomLeft.y && rect.y + rect.height <= topLeft.y ==> p.y == pos.y)
  {
  }

  /** With the lower bound at the origin, moving a group that fits the
      height by the correction puts its rectangle inside the bounds. */
  lemma ConstrainFromOriginFits(pos: PointF, rect: RectF, topLeft: PointF)
    requires 0.0 <= rect.height <= topLeft.y
    ensures var p := ConstrainPos(pos, rect, PointF(0.0, 0.0), topLeft);
            var moved := RectF(rect.x + (p.x - pos.x), rect.y + (p.y - pos.y), rect.width, rect.height);
            moved.x >= 0.0 && moved.y >= 0.0 && moved.y + moved.height <= topLeft.y
  {
  }

  /** With a lower bound away from the origin, the |rect.x| shift can fall
      short: a left edge at 2 against a bound at 5 ends at 4. */
  lemma ConstrainShortOfNonZeroBound()
    ensures var rect := RectF(2.0, 0.0, 1.0, 1.0);
            var p := ConstrainPos(PointF(0.0, 0.0), rect, PointF(5.0, 0.0), PointF(0.0, 10.0));
            rect.x + p.x == 4.0 && rect.x + p.x < 5.0
  {
  }
}
