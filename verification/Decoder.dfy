/** decode.py: the record loop and the attribution of a caller's address to a mapped library. */
module Decoder {
  import opened TraceRecord
  import opened Words

  /** One output line: microseconds are computed from `since`, the time elapsed since the first record. */
  datatype Row = Row(since: int, record: Rec)

  function DecodeAll(log: seq<byte>): (recs: seq<Rec>)
    ensures |recs| == |log| / REC_SIZE
  {
    if |log| < REC_SIZE then [] else [DecodeRec(log[..REC_SIZE])] + DecodeAll(log[REC_SIZE..])
  }

  predicate AllFit(recs: seq<Rec>) {
    forall i | 0 <= i < |recs| :: Fits(recs[i])
  }

  /** The bytes of an append-only log. */
  function LogBytes(recs: seq<Rec>): (b: seq<byte>)
    requires AllFit(recs)
    ensures |b| == REC_SIZE * |recs|
  {
    if recs == [] then [] else RecBytes(recs[0]) + LogBytes(recs[1..])
  }

  /** Line `i` shows the record stored at byte offset 80i. */
  lemma {:induction false} RecordAt(log: seq<byte>, i: nat)
    requires REC_SIZE * i + REC_SIZE <= |log|
    ensures DecodeAll(log)[i] == DecodeRec(log[REC_SIZE * i..REC_SIZE * i + REC_SIZE])
  {
    hide DecodeRec;
    if i > 0 {
      RecordAt(log[REC_SIZE..], i - 1);
      SliceTail(log, REC_SIZE * (i - 1));
    } else {
      assert log[0..REC_SIZE] == log[..REC_SIZE];
    }
  }

  /** So its fields are the bytes at fixed distances from there. */
  lemma RowFields(log: seq<byte>, i: nat)
    requires 80 * i + 80 <= |log|
    ensures var r, at := DecodeAll(log)[i], 80 * i;
            && r.ts == Magnitude(log[at..at + 8]) && r.tid == Signed(log[at + 8..at + 12])
            && r.rc == Signed(log[at + 12..at + 16]) && r.errno == Signed(log[at + 16..at + 20])
            && r.pad == Signed(log[at + 20..at + 24]) && r.newSp == Magnitude(log[at + 24..at + 32])
            && r.newSize == Magnitude(log[at + 32..at + 40]) && r.newFlags == Signed(log[at + 40..at + 44])
            && r.newPresent == Signed(log[at + 44..at + 48]) && r.oldSp == Magnitude(log[at + 48..at + 56])
            && r.oldSize == Magnitude(log[at + 56..at + 64]) && r.oldFlags == Signed(log[at + 64..at + 68])
            && r.oldPresent == Signed(log[at + 68..at + 72]) && r.caller == Magnitude(log[at + 72..at + 80])
  {
    hide DecodeRec, DecodeAll, Magnitude, Signed;
    RecordAt(log, i);
    RecFields(log[80 * i..80 * i + 80]);
    SliceOfSlice(log, 80 * i, 0, 8);
    SliceOfSlice(log, 80 * i, 8, 12);
    SliceOfSlice(log, 80 * i, 12, 16);
    SliceOfSlice(log, 80 * i, 16, 20);
    SliceOfSlice(log, 80 * i, 20, 24);
    SliceOfSlice(log, 80 * i, 24, 32);
    SliceOfSlice(log, 80 * i, 32, 40);
    SliceOfSlice(log, 80 * i, 40, 44);
    SliceOfSlice(log, 80 * i, 44, 48);
    SliceOfSlice(log, 80 * i, 48, 56);
    SliceOfSlice(log, 80 * i, 56, 64);
    SliceOfSlice(log, 80 * i, 64, 68);
    SliceOfSlice(log, 80 * i, 68, 72);
    SliceOfSlice(log, 80 * i, 72, 80);
  }

  lemma SliceOfSlice(log: seq<byte>, at: nat, lo: nat, hi: nat)
    requires at + 80 <= |log| && lo <= hi <= 80
    ensures log[at..at + 80][lo..hi] == log[at + lo..at + hi]
  {
    var record := log[at..at + 80];
    assert forall k | 0 <= k < 80 :: record[k] == log[at + k];
    assert |record[lo..hi]| == |log[at + lo..at + hi]|;
    assert forall k | 0 <= k < hi - lo :: record[lo..hi][k] == log[at + lo..at + hi][k];
  }

  lemma SliceTail(log: seq<byte>, at: nat)
    requires REC_SIZE + at + REC_SIZE <= |log|
    ensures log[REC_SIZE..][at..at + REC_SIZE] == log[REC_SIZE + at..REC_SIZE + at + REC_SIZE]
  {
  }

  /** The body of `main`: `n = len(log) // 80` records, read with `unpack_from` at multiples of 80. */
  method DecodeLog(log: seq<byte>) returns (rows: seq<Row>)
    ensures |rows| == |log| / REC_SIZE
    ensures forall i | 0 <= i < |rows| :: rows[i].record == DecodeAll(log)[i]
    ensures forall i | 0 <= i < |rows| ::
              var r, at := rows[i].record, 80 * i;
              && r.ts == Magnitude(log[at..at + 8]) && r.tid == Signed(log[at + 8..at + 12])
              && r.rc == Signed(log[at + 12..at + 16]) && r.errno == Signed(log[at + 16..at + 20])
              && r.pad == Signed(log[at + 20..at + 24]) && r.newSp == Magnitude(log[at + 24..at + 32])
              && r.newSize == Magnitude(log[at + 32..at + 40]) && r.newFlags == Signed(log[at + 40..at + 44])
              && r.newPresent == Signed(log[at + 44..at + 48]) && r.oldSp == Magnitude(log[at + 48..at + 56])
              && r.oldSize == Magnitude(log[at + 56..at + 64]) && r.oldFlags == Signed(log[at + 64..at + 68])
              && r.oldPresent == Signed(log[at + 68..at + 72]) && r.caller == Magnitude(log[at + 72..at + 80])
    ensures forall i | 0 <= i < |rows| :: rows[i].since == rows[i].record.ts - rows[0].record.ts
  {
    hide DecodeRec, DecodeAll;
    var n := |log| / REC_SIZE;
    var started, t0 := false, 0;
    rows := [];
    for i := 0 to n
      invariant |rows| == i
      invariant started <==> i > 0
      invariant started ==> t0 == DecodeAll(log)[0].ts
      invariant forall j | 0 <= j < i :: rows[j].record == DecodeAll(log)[j]
      invariant forall j | 0 <= j < i :: rows[j].since == DecodeAll(log)[j].ts - DecodeAll(log)[0].ts
    {
      RecordAt(log, i);
      var record := DecodeRec(log[i * REC_SIZE..i * REC_SIZE + REC_SIZE]);
      if !started {
        started, t0 := true, record.ts;
      }
      rows := rows + [Row(record.ts - t0, record)];
    }
    forall i | 0 <= i < |rows|
      ensures var r, at := rows[i].record, 80 * i;
              && r.ts == Magnitude(log[at..at + 8]) && r.tid == Signed(log[at + 8..at + 12])
              && r.rc == Signed(log[at + 12..at + 16]) && r.errno == Signed(log[at + 16..at + 20])
              && r.pad == Signed(log[at + 20..at + 24]) && r.newSp == Magnitude(log[at + 24..at + 32])
              && r.newSize == Magnitude(log[at + 32..at + 40]) && r.newFlags == Signed(log[at + 40..at + 44])
              && r.newPresent == Signed(log[at + 44..at + 48]) && r.oldSp == Magnitude(log[at + 48..at + 56])
              && r.oldSize == Magnitude(log[at + 56..at + 64]) && r.oldFlags == Signed(log[at + 64..at + 68])
              && r.oldPresent == Signed(log[at + 68..at + 72]) && r.caller == Magnitude(log[at + 72..at + 80])
    {
      RowFields(log, i);
    }
  }

  /** Decoding an appended log, with any torn record at its end, gives back exactly the records appended. */
  lemma {:induction false} LogRoundTrip(recs: seq<Rec>, tail: seq<byte>)
    requires AllFit(recs) && |tail| < REC_SIZE
    ensures DecodeAll(LogBytes(recs) + tail) == recs
  {
    hide DecodeRec, RecBytes, Fits;
    if recs == [] {
      assert LogBytes(recs) + tail == tail;
    } else {
      var rest := LogBytes(recs[1..]) + tail;
      RecRoundTrip(recs[0]);
      LogRoundTrip(recs[1..], tail);
      SplitFirst(RecBytes(recs[0]), LogBytes(recs[1..]), tail);
      assert recs == [recs[0]] + recs[1..];
    }
  }

  lemma SplitFirst(first: seq<byte>, rest: seq<byte>, tail: seq<byte>)
    requires |first| == REC_SIZE
    ensures (first + rest + tail)[..REC_SIZE] == first && (first + rest + tail)[REC_SIZE..] == rest + tail
  {
  }

  /** Conversely no whole record is lost or altered: encoding what was decoded gives the log's bytes back. */
  lemma {:induction false} BytesPreserved(log: seq<byte>)
    ensures AllFit(DecodeAll(log))
    ensures LogBytes(DecodeAll(log)) == log[..|log| / REC_SIZE * REC_SIZE]
  {
    hide DecodeRec, RecBytes, Fits;
    if |log| >= REC_SIZE {
      BytesRoundTrip(log[..REC_SIZE]);
      BytesPreserved(log[REC_SIZE..]);
      ConsFits(DecodeRec(log[..REC_SIZE]), DecodeAll(log[REC_SIZE..]));
      WholeRecords(log);
    }
  }

  lemma ConsFits(r: Rec, recs: seq<Rec>)
    requires Fits(r) && AllFit(recs)
    ensures AllFit([r] + recs) && LogBytes([r] + recs) == RecBytes(r) + LogBytes(recs)
  {
    hide Fits, RecBytes;
    var all := [r] + recs;
    assert all[0] == r && all[1..] == recs;
    forall i | 0 <= i < |all| ensures Fits(all[i]) {
      assert i > 0 ==> all[i] == recs[i - 1];
    }
  }

  lemma WholeRecords(log: seq<byte>)
    requires |log| >= REC_SIZE
    ensures var rest := log[REC_SIZE..];
            log[..REC_SIZE] + rest[..|rest| / REC_SIZE * REC_SIZE] == log[..|log| / REC_SIZE * REC_SIZE]
  {
  }

  // ------------------------------------------------------------------ attribution

  /** A line of the maps file: addresses lo up to but excluding hi belong to `name`. */
  datatype MapRow = MapRow(lo: int, hi: int, name: string)

  datatype Attribution = Unknown | In(row: nat, offset: int)

  predicate SortedRows(maps: seq<MapRow>) {
    forall i, j | 0 <= i < j < |maps| :: maps[i].lo <= maps[j].lo
  }

  predicate DisjointRows(maps: seq<MapRow>) {
    forall i, j | 0 <= i < j < |maps| :: maps[i].hi <= maps[j].lo
  }

  predicate Contains(r: MapRow, pc: int) {
    r.lo <= pc < r.hi
  }

  /** The reference: look at every row from the first. */
  function Scan(maps: seq<MapRow>, pc: int, from: nat): Attribution
    requires from <= |maps|
    decreases |maps| - from
  {
    if from == |maps| then Unknown
    else if Contains(maps[from], pc) then In(from, pc - maps[from].lo)
    else Scan(maps, pc, from + 1)
  }

  /** `bisect.bisect_right` */
  method BisectRight(a: seq<int>, x: int) returns (lo: nat)
    requires forall i, j | 0 <= i < j < |a| :: a[i] <= a[j]
    ensures lo <= |a|
    ensures forall i | 0 <= i < lo :: a[i] <= x
    ensures forall i | lo <= i < |a| :: x < a[i]
  {
    lo := 0;
    var hi := |a|;
    while lo < hi
      invariant lo <= hi <= |a|
      invariant forall i | 0 <= i < lo :: a[i] <= x
      invariant forall i | hi <= i < |a| :: x < a[i]
    {
      var mid := (lo + hi) / 2;
      if x < a[mid] {
        hi := mid;
      } else {
        lo := mid + 1;
      }
    }
  }

  /** What `attr` finds: the last of the first `n` rows to start at or below `pc`, if it contains `pc`. */
  function Lookup(maps: seq<MapRow>, pc: int, n: nat): Attribution
    requires n <= |maps|
  {
    if n == 0 then Unknown
    else if pc < maps[n - 1].lo then Lookup(maps, pc, n - 1)
    else if Contains(maps[n - 1], pc) then In(n - 1, pc - maps[n - 1].lo)
    else Unknown
  }

  lemma {:induction false} LookupSkips(maps: seq<MapRow>, pc: int, n: nat, right: nat)
    requires right <= n <= |maps| && forall k | right <= k < n :: pc < maps[k].lo
    ensures Lookup(maps, pc, n) == Lookup(maps, pc, right)
    decreases n
  {
    if right < n {
      LookupSkips(maps, pc, n - 1, right);
    }
  }

  /** `attr`, for any sorted table. */
  method Attr(maps: seq<MapRow>, pc: int) returns (found: Attribution)
    requires SortedRows(maps)
    ensures found == Lookup(maps, pc, |maps|)
    ensures found.In? ==>
              && found.row < |maps| && maps[found.row].lo <= pc < maps[found.row].hi
              && found.offset == pc - maps[found.row].lo && forall k | found.row < k < |maps| :: pc < maps[k].lo
    ensures found.Unknown? ==>
              forall i | 0 <= i < |maps| && maps[i].lo <= pc < maps[i].hi ::
                exists j :: i < j < |maps| && maps[j].lo <= pc
  {
    LookupLast(maps, pc, |maps|);
    assert forall i | 0 <= i < |maps| :: Contains(maps[i], pc) <==> maps[i].lo <= pc < maps[i].hi;
    if maps == [] {
      return Unknown;
    }
    var los := seq(|maps|, k requires 0 <= k < |maps| => maps[k].lo);
    var right := BisectRight(los, pc);
    assert forall k | 0 <= k < |maps| :: los[k] == maps[k].lo;
    LookupSkips(maps, pc, |maps|, right);
    var i := right as int - 1;
    if i < 0 || pc >= maps[i].hi {
      return Unknown;
    }
    return In(i, pc - maps[i].lo);
  }

  /** No row that starts at or below `pc` comes after one that contains it. */
  predicate Unshadowed(maps: seq<MapRow>, pc: int) {
    forall i, j | 0 <= i < j < |maps| && Contains(maps[i], pc) :: pc < maps[j].lo
  }

  /** On a sorted table the bisect lookup agrees with the linear scan exactly at the addresses that are not shadowed,
    * and finds nothing it should not. */
  lemma LookupExact(maps: seq<MapRow>, pc: int)
    requires SortedRows(maps)
    ensures Lookup(maps, pc, |maps|) == Scan(maps, pc, 0) <==> Unshadowed(maps, pc)
    ensures var found := Lookup(maps, pc, |maps|);
            found.In? ==> found.row < |maps| && Contains(maps[found.row], pc) && found.offset == pc - maps[found.row].lo
  {
    hide Lookup, Scan;
    ScanMisses(maps, pc, 0);
    LookupLast(maps, pc, |maps|);
    var found, scanned := Lookup(maps, pc, |maps|), Scan(maps, pc, 0);
    forall i | 0 <= i < |maps| && Contains(maps[i], pc)
      ensures scanned.In? && 0 <= scanned.row <= i && Contains(maps[scanned.row], pc)
      ensures scanned.offset == pc - maps[scanned.row].lo
    {
      ScanFirst(maps, pc, 0, i);
    }
    if found == scanned {
      forall i, j | 0 <= i < j < |maps| && Contains(maps[i], pc) ensures pc < maps[j].lo {
        assert scanned.row <= i;
      }
    } else {
      if found.In? {
        assert scanned.row < found.row;
      } else {
        assert Contains(maps[scanned.row], pc);
      }
    }
  }

  /** What a lookup found is the last row starting at or below the address; what it missed contains it nowhere late. */
  lemma {:induction false} LookupLast(maps: seq<MapRow>, pc: int, n: nat)
    requires n <= |maps|
    ensures var found := Lookup(maps, pc, n);
            if found.In? then
              && found.row < n && Contains(maps[found.row], pc) && found.offset == pc - maps[found.row].lo
              && forall k | found.row < k < n :: pc < maps[k].lo
            else forall i | 0 <= i < n && Contains(maps[i], pc) :: exists j :: i < j < n && maps[j].lo <= pc
    decreases n
  {
    if n > 0 && pc < maps[n - 1].lo {
      LookupLast(maps, pc, n - 1);
      var found := Lookup(maps, pc, n - 1);
      if found.Unknown? {
        forall i | 0 <= i < n && Contains(maps[i], pc) ensures exists j :: i < j < n && maps[j].lo <= pc {
          var j :| i < j < n - 1 && maps[j].lo <= pc;
        }
      }
    }
  }

  /** The scan stops at or before any row that contains the address. */
  lemma {:induction false} ScanFirst(maps: seq<MapRow>, pc: int, from: nat, i: nat)
    requires from <= i < |maps| && Contains(maps[i], pc)
    ensures var found := Scan(maps, pc, from);
            found.In? && from <= found.row <= i && Contains(maps[found.row], pc) &&
            found.offset == pc - maps[found.row].lo
    decreases i - from
  {
    if from < i && !Contains(maps[from], pc) {
      ScanFirst(maps, pc, from + 1, i);
    }
  }

  /** Nothing is shadowed among the disjoint rows of an address space: there the lookup is the scan everywhere, and
    * fails exactly when no row contains the address. */
  lemma DisjointLookup(maps: seq<MapRow>, pc: int)
    requires SortedRows(maps) && DisjointRows(maps)
    ensures Lookup(maps, pc, |maps|) == Scan(maps, pc, 0)
    ensures Lookup(maps, pc, |maps|).Unknown? <==>
              forall i | 0 <= i < |maps| :: !(maps[i].lo <= pc < maps[i].hi)
    ensures forall i | 0 <= i < |maps| && maps[i].lo <= pc < maps[i].hi ::
              Lookup(maps, pc, |maps|) == In(i, pc - maps[i].lo)
  {
    hide Lookup, Scan;
    LookupExact(maps, pc);
    ScanMisses(maps, pc, 0);
    forall i, j | 0 <= i < j < |maps| && Contains(maps[i], pc) ensures pc < maps[j].lo {
      assert maps[i].hi <= maps[j].lo;
    }
    forall i | 0 <= i < |maps| && Contains(maps[i], pc) ensures Lookup(maps, pc, |maps|) == In(i, pc - maps[i].lo) {
      LookupLast(maps, pc, |maps|);
    }
    assert forall i | 0 <= i < |maps| :: Contains(maps[i], pc) <==> maps[i].lo <= pc < maps[i].hi;
  }

  lemma {:induction false} ScanMisses(maps: seq<MapRow>, pc: int, from: nat)
    requires from <= |maps|
    ensures Scan(maps, pc, from).Unknown? <==> forall k | from <= k < |maps| :: !Contains(maps[k], pc)
    decreases |maps| - from
  {
    if from < |maps| && !Contains(maps[from], pc) {
      ScanMisses(maps, pc, from + 1);
    }
  }

  /** A nested row hides its parent: the scan finds the outer row, `attr` reports nothing. */
  lemma OverlapDiffers()
    ensures var maps := [MapRow(0, 100, "a"), MapRow(10, 20, "b")];
            SortedRows(maps) && Scan(maps, 50, 0) == In(0, 50) && Lookup(maps, 50, |maps|) == Unknown
  {
    var maps := [MapRow(0, 100, "a"), MapRow(10, 20, "b")];
    assert Contains(maps[0], 50) && !Contains(maps[1], 50);
  }
}
