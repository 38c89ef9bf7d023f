/** The comparison of two snapshot files and the INCOMPLETE marker
  (ectest/internal/snapshot/snapshot.go). */
module SnapshotDiff {
  import opened Wrappers
  import opened Text
  import opened Snapshot

  // ---- comparison ------------------------------------------------------------------------

  const CURVES: seq<(int, int)> := [(0x10, 0x28), (0x30, 0x39), (0x70, 0x82)]

  predicate InCurves(o: int) {
    0x10 <= o < 0x28 || 0x30 <= o < 0x39 || 0x70 <= o < 0x82
  }

  /** Dump 1 has every byte. */
  predicate Complete(f: File) {
    forall o :: 0 <= o < 256 ==> o in DumpOf(f, 1)
  }

  predicate Differs(a: File, b: File, o: int)
    requires Complete(a) && Complete(b) && 0 <= o < 256
  {
    DumpOf(a, 1)[o] != DumpOf(b, 1)[o]
  }

  predicate Unknown(a: File, b: File, o: int)
    requires Complete(a) && Complete(b) && 0 <= o < 256
  {
    DumpOf(a, 1)[o] == UNKNOWN || DumpOf(b, 1)[o] == UNKNOWN
  }

  datatype Code = Identical | Changed | Incomplete

  /** The exit code of a comparison. */
  function DiffCode(a: File, b: File): Code {
    if !Complete(a) || !Complete(b) || a.incomplete != "" || b.incomplete != "" then Incomplete
    else if exists o :: 0 <= o < 256 && InCurves(o) && Unknown(a, b, o) then Incomplete
    else if exists o :: 0 <= o < 256 && InCurves(o) && Differs(a, b, o) then Changed
    else Identical
  }

  /** The bytes of the curve tables: 0x10-0x27, 0x30-0x38 and 0x70-0x81 of dump 1. */
  predicate CurveByte(o: int) {
    0x10 <= o <= 0x27 || 0x30 <= o <= 0x38 || 0x70 <= o <= 0x81
  }

  /** Both files can be compared: each has all 256 bytes of dump 1, no INCOMPLETE reason, and knows every
    byte of the curve tables. */
  predicate Comparable(f: File) {
    && (forall o :: 0 <= o < 256 ==> o in DumpOf(f, 1))
    && f.incomplete == ""
    && forall o :: 0 <= o < 256 && CurveByte(o) ==> DumpOf(f, 1)[o] != UNKNOWN
  }

  /** Two files: identical if and only if both can be compared and no byte of the curve tables differs,
    changed if and only if both can be compared and one does. */
  lemma DiffExact(a: File, b: File)
    ensures DiffCode(a, b) == Identical <==>
              Comparable(a) && Comparable(b)
              && forall o :: 0 <= o < 256 && CurveByte(o) ==> DumpOf(a, 1)[o] == DumpOf(b, 1)[o]
    ensures DiffCode(a, b) == Changed <==>
              Comparable(a) && Comparable(b)
              && exists o :: 0 <= o < 256 && CurveByte(o) && DumpOf(a, 1)[o] != DumpOf(b, 1)[o]
    ensures DiffCode(a, b) == Incomplete <==> !Comparable(a) || !Comparable(b)
  {
    assert forall o :: InCurves(o) <==> CurveByte(o);
    if Complete(a) && Complete(b) {
      assert (exists o :: 0 <= o < 256 && InCurves(o) && Unknown(a, b, o)) <==>
             !(forall o :: 0 <= o < 256 && CurveByte(o) ==> DumpOf(a, 1)[o] != UNKNOWN && DumpOf(b, 1)[o] != UNKNOWN);
    }
  }

  method IsComplete(f: File) returns (c: bool)
    ensures c == Complete(f)
  {
    var n: nat := 0;
    for o := 0 to 256
      invariant n <= o && (n == o <==> forall k :: 0 <= k < o ==> k in DumpOf(f, 1))
    {
      if o in DumpOf(f, 1) {
        n := n + 1;
      }
    }
    c := n >= 256;
  }

  /** Compares the curve tables of two snapshots, region by region. */
  method Diff(a: File, b: File) returns (code: Code)
    ensures code == DiffCode(a, b)
  {
    var ca := IsComplete(a);
    var cb := IsComplete(b);
    if !ca || !cb {
      return Incomplete;
    }
    var changed, unknown := false, false;
    for r := 0 to |CURVES|
      invariant unknown <==> exists o :: 0 <= o < 256 && InCurves(o) && (r > 0 && o < CURVES[r-1].1) && Unknown(a, b, o)
      invariant changed <==> exists o :: 0 <= o < 256 && InCurves(o) && (r > 0 && o < CURVES[r-1].1) && Differs(a, b, o)
    {
      var u, c := DiffRegion(a, b, CURVES[r].0, CURVES[r].1);
      unknown, changed := unknown || u, changed || c;
    }
    if a.incomplete != "" || b.incomplete != "" || unknown {
      return Incomplete;
    }
    return if changed then Changed else Identical;
  }

  method DiffRegion(a: File, b: File, from: int, to: int) returns (unknown: bool, changed: bool)
    requires Complete(a) && Complete(b) && 0 <= from <= to <= 256
    ensures unknown <==> exists o :: from <= o < to && Unknown(a, b, o)
    ensures changed <==> exists o :: from <= o < to && Differs(a, b, o)
  {
    unknown, changed := false, false;
    for o := from to to
      invariant unknown <==> exists k :: from <= k < o && Unknown(a, b, k)
      invariant changed <==> exists k :: from <= k < o && Differs(a, b, k)
    {
      unknown := unknown || Unknown(a, b, o);
      changed := changed || Differs(a, b, o);
    }
  }

  /** A file compared with itself is identical exactly when it is complete, not marked, and knows
    every curve byte. */
  lemma SelfDiffExact(f: File)
    ensures DiffCode(f, f) == Identical <==>
              && Complete(f) && f.incomplete == ""
              && forall o :: 0 <= o < 256 && InCurves(o) ==> DumpOf(f, 1)[o] != UNKNOWN
    ensures DiffCode(f, f) != Changed
  {
  }

  // ---- the INCOMPLETE marker ---------------------------------------------------------------

  predicate IsMark(l: string) {
    HasPrefix(l, INCOMPLETE)
  }

  function ReasonOf(l: string): string
    requires IsMark(l)
  {
    l[|INCOMPLETE|..]
  }

  predicate Blank(s: string) {
    forall i :: 0 <= i < |s| ==> IsSpace(s[i])
  }

  /** The last marker line has a reason. */
  predicate Marked(ls: seq<string>) {
    exists i :: 0 <= i < |ls| && IsMark(ls[i]) && !Blank(ReasonOf(ls[i])) && forall j :: i < j < |ls| ==> !IsMark(ls[j])
  }

  /** The trimmed reason of the last marker line, None without such a line. */
  function LastReason(ls: seq<string>): Option<string>
    decreases |ls|
  {
    if ls == [] then None
    else if LastReason(ls[1..]).Some? then LastReason(ls[1..])
    else if IsMark(ls[0]) then Some(TrimSpace(ReasonOf(ls[0])))
    else None
  }

  lemma MarkStep(sc: Scan, l: string)
    ensures LineStep(sc, l).file.incomplete == if IsMark(l) then TrimSpace(ReasonOf(l)) else sc.file.incomplete
  {
    if IsMark(l) {
      assert l[0] == l[..|INCOMPLETE|][0] == 'R';
      NoPrefix(l, BEGIN_ECRAM);
      NoPrefix(l, END_ECRAM);
      NoPrefix(l, BEGIN_I2EC);
      NoPrefix(l, END_I2EC);
    }
  }

  lemma {:induction false} ScannedReason(sc: Scan, ls: seq<string>)
    ensures Scanned(sc, ls).file.incomplete == if LastReason(ls).Some? then LastReason(ls).value else sc.file.incomplete
    decreases |ls|
  {
    if ls != [] {
      MarkStep(sc, ls[0]);
      ScannedReason(LineStep(sc, ls[0]), ls[1..]);
    }
  }

  lemma {:induction false} TrimBlank(s: string)
    ensures TrimLeft(s) == "" <==> Blank(s)
    ensures TrimLeft(s) != "" ==> !IsSpace(TrimLeft(s)[0])
  {
    if s != "" && IsSpace(s[0]) {
      TrimBlank(s[1..]);
    }
  }

  lemma {:induction false} TrimRightKeeps(s: string)
    requires s != "" && !IsSpace(s[0])
    ensures TrimRight(s) != ""
  {
    if IsSpace(s[|s|-1]) {
      TrimRightKeeps(s[..|s|-1]);
    }
  }

  lemma TrimSpaceBlank(s: string)
    ensures TrimSpace(s) == "" <==> Blank(s)
  {
    TrimBlank(s);
    if TrimLeft(s) != "" {
      TrimRightKeeps(TrimLeft(s));
    }
  }

  lemma {:induction false} LastReasonExact(ls: seq<string>)
    ensures LastReason(ls).None? <==> forall i :: 0 <= i < |ls| ==> !IsMark(ls[i])
    ensures LastReason(ls).Some? && LastReason(ls).value != "" <==> Marked(ls)
    decreases |ls|
  {
    if ls != [] {
      var rest := ls[1..];
      LastReasonExact(rest);
      if IsMark(ls[0]) {
        TrimSpaceBlank(ReasonOf(ls[0]));
      }
      MarkedFirst(ls);
    }
  }

  lemma MarkedFirst(ls: seq<string>)
    requires ls != []
    ensures Marked(ls) <==>
              || Marked(ls[1..])
              || (IsMark(ls[0]) && !Blank(ReasonOf(ls[0])) && forall i :: 0 <= i < |ls[1..]| ==> !IsMark(ls[1..][i]))
    ensures Marked(ls[1..]) ==> exists i :: 0 <= i < |ls[1..]| && IsMark(ls[1..][i])
  {
    var rest := ls[1..];
    assert forall i :: 0 <= i < |rest| ==> rest[i] == ls[i+1];
    if Marked(rest) {
      var i :| 0 <= i < |rest| && IsMark(rest[i]) && !Blank(ReasonOf(rest[i]))
               && forall j :: i < j < |rest| ==> !IsMark(rest[j]);
      forall j | i + 1 < j < |ls|
        ensures !IsMark(ls[j])
      {
        assert ls[j] == rest[j-1];
      }
      assert IsMark(ls[i+1]);
    }
    if Marked(ls) {
      var i :| 0 <= i < |ls| && IsMark(ls[i]) && !Blank(ReasonOf(ls[i])) && forall j :: i < j < |ls| ==> !IsMark(ls[j]);
      if i > 0 {
        assert rest[i-1] == ls[i];
      }
    }
  }

  /** For every text: the parsed mark is the trimmed reason of its last marker line, so the file is
    treated as marked if and only if that line has a reason that is not blank. */
  lemma MarkOfText(text: string)
    ensures Parsed(text).incomplete
            == if LastReason(ScanLines(text)).Some? then LastReason(ScanLines(text)).value else ""
    ensures Parsed(text).incomplete != "" <==> Marked(ScanLines(text))
  {
    ScannedReason(EMPTY, ScanLines(text));
    LastReasonExact(ScanLines(text));
  }

  /** A marker line without a reason is not only lost, it also erases the reason of an earlier one. */
  lemma MarkWithoutReason(sc: Scan)
    ensures LineStep(sc, INCOMPLETE) == sc.(file := sc.file.(incomplete := ""))
  {
    NoPrefix(INCOMPLETE, BEGIN_ECRAM);
    NoPrefix(INCOMPLETE, END_ECRAM);
    assert INCOMPLETE[|INCOMPLETE|..] == "";
  }

  /** For every text: compared with itself it is identical if and only if its first dump is
    complete, no curve byte of it is ??, and its last marker line, if any, has no reason. */
  lemma SelfDiffOfText(text: string)
    ensures var f := Parsed(text);
            DiffCode(f, f) == Identical <==>
              && Complete(f) && !Marked(ScanLines(text))
              && forall o :: 0 <= o < 256 && InCurves(o) ==> DumpOf(f, 1)[o] != UNKNOWN
  {
    MarkOfText(text);
    SelfDiffExact(Parsed(text));
  }

  // ---- ... of printed files ------------------------------------------------------------------

  /** The last printed dump of number 1. */
  function LastDump(secs: seq<Section>): Option<seq<string>>
    decreases |secs|
  {
    if secs == [] then None
    else if LastDump(secs[1..]).Some? then LastDump(secs[1..])
    else if secs[0].EcRamDump? && secs[0].n == 1 then Some(secs[0].data)
    else None
  }

  predicate NoMarks(secs: seq<Section>) {
    forall i :: 0 <= i < |secs| ==> !secs[i].IncompleteMark?
  }

  lemma {:induction false} StoredMarks(f: File, secs: seq<Section>)
    ensures StoredAll(f, secs).incomplete == "" <==> NoMarks(secs) && f.incomplete == ""
    decreases |secs|
  {
    if secs != [] {
      StoredMarks(Stored(f, secs[0]), secs[1..]);
      assert NoMarks(secs) <==> !secs[0].IncompleteMark? && NoMarks(secs[1..]) by {
        assert forall i :: 0 <= i < |secs[1..]| ==> secs[1..][i] == secs[i+1];
        if NoMarks(secs[1..]) && !secs[0].IncompleteMark? {
          forall i | 0 <= i < |secs|
            ensures !secs[i].IncompleteMark?
          {
            if i > 0 {
              assert secs[1..][i-1] == secs[i];
            }
          }
        }
      }
    }
  }

  /** The bytes of dump 1 that a file has, as the printed dumps determine them. */
  predicate HasDump(f: File, dump: Option<seq<string>>) {
    if dump.None? then DumpOf(f, 1) == map[]
    else |dump.value| == 256 && DumpOf(f, 1) == map o | 0 <= o < 256 :: dump.value[o]
  }

  lemma DumpStored(f: File, data: seq<string>, before: Option<seq<string>>)
    requires Printable(EcRamDump(1, data)) && HasDump(f, before)
    ensures HasDump(Stored(f, EcRamDump(1, data)), Some(data))
  {
    var got := Put(DumpOf(f, 1), 0, data);
    forall a: int
      ensures a in got <==> 0 <= a < 256
      ensures 0 <= a < 256 ==> got[a] == data[a]
    {
      PutExact(DumpOf(f, 1), 0, data, a);
      if 0 <= a < 256 {
        assert Printed(data[a]);
      }
    }
    assert got == map o | 0 <= o < 256 :: data[o];
  }

  lemma {:induction false} DumpsStored(f: File, secs: seq<Section>, before: Option<seq<string>>)
    requires AllPrintable(secs) && HasDump(f, before)
    ensures HasDump(StoredAll(f, secs), if LastDump(secs).Some? then LastDump(secs) else before)
    decreases |secs|
  {
    if secs != [] {
      if secs[0].EcRamDump? && secs[0].n == 1 {
        DumpStored(f, secs[0].data, before);
        DumpsStored(Stored(f, secs[0]), secs[1..], Some(secs[0].data));
      } else {
        assert DumpOf(Stored(f, secs[0]), 1) == DumpOf(f, 1);
        DumpsStored(Stored(f, secs[0]), secs[1..], before);
      }
    }
  }

  lemma DumpDecides(f: File, dump: Option<seq<string>>)
    requires HasDump(f, dump)
    ensures Complete(f) <==> dump.Some?
    ensures dump.Some? ==> |dump.value| == 256 && forall o :: 0 <= o < 256 ==>
            o in DumpOf(f, 1) && DumpOf(f, 1)[o] == dump.value[o]
  {
    if dump.None? {
      assert 0 !in DumpOf(f, 1);
    }
  }

  /** Some curve byte of a dump timed out. */
  predicate TimedOut(dump: seq<string>) {
    exists o :: 0 <= o < |dump| && InCurves(o) && dump[o] == UNKNOWN
  }

  /** A printed file compared with itself is identical if and only if it has a dump 1, no curve byte
    of the last one timed out, and the file carries no INCOMPLETE line. */
  lemma PrintedDiffExact(secs: seq<Section>)
    requires AllPrintable(secs)
    ensures var f := Parsed(JoinLines(DocumentLines(secs)));
            DiffCode(f, f) == Identical <==> LastDump(secs).Some? && !TimedOut(LastDump(secs).value) && NoMarks(secs)
  {
    var f := Parsed(JoinLines(DocumentLines(secs)));
    ParsePrinted(secs);
    StoredMarks(EMPTY.file, secs);
    DumpsStored(EMPTY.file, secs, None);
    DumpDecides(f, LastDump(secs));
    SelfDiffExact(f);
  }
}
