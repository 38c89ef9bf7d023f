/** Snapshot files: the printers of the EC RAM and I2EC sections, the parser and the comparison
  (ectest/internal/snapshot/snapshot.go). */
module Snapshot {
  import opened Wrappers
  import opened Decimal
  import opened Text

  const UNKNOWN := "??"
  const BEGIN_ECRAM := "=== BEGIN EC_RAM "
  const END_ECRAM := "=== END EC_RAM "
  const MARKER_END := " ==="
  const BEGIN_I2EC := "=== BEGIN I2EC ==="
  const END_I2EC := "=== END I2EC ==="
  const INCOMPLETE := "RESULT: INCOMPLETE"
  const ROW := 16

  // ---- printing ------------------------------------------------------------------------

  function Min(a: nat, b: nat): nat {
    if a < b then a else b
  }

  /** One row: the address in `width` digits and the values. */
  function RowLine(address: nat, width: nat, values: seq<string>): string {
    Hex(address, width) + ":" + Spaced(values)
  }

  /** Values from an address on, 16 to a row. */
  function RowLines(address: nat, width: nat, values: seq<string>): seq<string>
    decreases |values|
  {
    if values == [] then []
    else
      var n := Min(ROW, |values|);
      [RowLine(address, width, values[..n])] + RowLines(address + ROW, width, values[n..])
  }

  function EcRamLines(n: int, data: seq<string>): seq<string> {
    [BEGIN_ECRAM + Itoa(n) + MARKER_END] + RowLines(0, 2, data) + [END_ECRAM + Itoa(n) + MARKER_END]
  }

  function I2ecLines(base: nat, data: seq<nat>): seq<string> {
    [BEGIN_I2EC] + RowLines(base, 4, HexBytes(data)) + [END_I2EC]
  }

  /** One row, value by value. */
  method RowText(address: nat, width: nat, values: seq<string>) returns (row: string)
    ensures row == RowLine(address, width, values)
  {
    row := Hex(address, width) + ":";
    for i := 0 to |values|
      invariant row == Hex(address, width) + ":" + Spaced(values[..i])
    {
      SpacedSnoc(values[..i], values[i]);
      assert values[..i+1] == values[..i] + [values[i]];
      row := row + " " + values[i];
    }
    assert values[..|values|] == values;
  }

  lemma RowPrinted(s: string, address: nat, width: nat, values: seq<string>)
    requires values != []
    ensures var n := Min(ROW, |values|);
            s + JoinLines(RowLines(address, width, values))
            == s + RowLine(address, width, values[..n]) + [NL] + JoinLines(RowLines(address + ROW, width, values[n..]))
  {
  }

  method Rows(address: nat, width: nat, values: seq<string>) returns (s: string)
    ensures s == JoinLines(RowLines(address, width, values))
  {
    s := "";
    var a: nat, rest := address, values;
    while rest != []
      invariant s + JoinLines(RowLines(a, width, rest)) == JoinLines(RowLines(address, width, values))
      decreases |rest|
    {
      var n := Min(ROW, |rest|);
      RowPrinted(s, a, width, rest);
      var row := RowText(a, width, rest[..n]);
      s := s + row + [NL];
      a, rest := a + ROW, rest[n..];
    }
  }

  /** Bytes as rows of 16. */
  method I2ECRows(base: nat, data: seq<nat>) returns (s: string)
    ensures s == JoinLines(RowLines(base, 4, HexBytes(data)))
  {
    s := Rows(base, 4, HexBytes(data));
  }

  /** A dump of the EC RAM between its markers. */
  method ECRAMSection(n: int, data: seq<string>) returns (s: string)
    ensures s == JoinLines(EcRamLines(n, data))
  {
    var first, last := BEGIN_ECRAM + Itoa(n) + MARKER_END, END_ECRAM + Itoa(n) + MARKER_END;
    var rows := Rows(0, 2, data);
    s := first + [NL] + rows + last + [NL];
    JoinOfSum([first], RowLines(0, 2, data));
    JoinOfSum([first] + RowLines(0, 2, data), [last]);
    JoinOne(first);
    JoinOne(last);
  }

  lemma JoinOne(l: string)
    ensures JoinLines([l]) == l + [NL]
  {
  }

  lemma {:induction false} SpacedSnoc(words: seq<string>, w: string)
    ensures Spaced(words + [w]) == Spaced(words) + " " + w
  {
    if words == [] {
      assert words + [w] == [w];
      assert [w][1..] == [];
    } else {
      assert (words + [w])[1..] == words[1..] + [w];
      SpacedSnoc(words[1..], w);
    }
  }

  // ---- parsing ---------------------------------------------------------------------------

  datatype File = File(ecram: map<int, map<int, string>>, i2ec: map<int, string>, incomplete: string)

  /** The scanner: the dump it is in (0: none) and whether it is in the I2EC section. */
  datatype Scan = Scan(dump: int, inI2ec: bool, file: File)

  const EMPTY := Scan(0, false, File(map[], map[], ""))

  predicate IsHexAddr(s: string, digits: nat) {
    |s| == digits + 1 && s[digits] == ':' && ParseHex(s[..digits], 0xffff_ffff).Some?
  }

  /** Values stored from an address on, in lower case. */
  function Put(m: map<int, string>, address: int, values: seq<string>): map<int, string>
    decreases |values|
  {
    if values == [] then m else Put(m[address := ToLower(values[0])], address + 1, values[1..])
  }

  function DumpOf(f: File, n: int): map<int, string> {
    if n in f.ecram then f.ecram[n] else map[]
  }

  function BeginDump(sc: Scan, l: string): Scan {
    if |l| < |BEGIN_ECRAM| + |MARKER_END| then sc
    else
      var n := Atoi(l[|BEGIN_ECRAM|..|l|-|MARKER_END|]);
      if n.None? then sc
      else sc.(dump := n.value, file := sc.file.(ecram := sc.file.ecram[n.value := DumpOf(sc.file, n.value)]))
  }

  function Row(sc: Scan, words: seq<string>): Scan {
    if words == [] then sc
    else if sc.dump > 0 && IsHexAddr(words[0], 2) then
      var base := HexValue(words[0][..2]).value;
      sc.(file := sc.file.(ecram := sc.file.ecram[sc.dump := Put(DumpOf(sc.file, sc.dump), base, words[1..])]))
    else if sc.inI2ec && IsHexAddr(words[0], 4) then
      sc.(file := sc.file.(i2ec := Put(sc.file.i2ec, HexValue(words[0][..4]).value, words[1..])))
    else sc
  }

  function LineStep(sc: Scan, l: string): Scan {
    if HasPrefix(l, BEGIN_ECRAM) && HasSuffix(l, MARKER_END) then BeginDump(sc, l)
    else if HasPrefix(l, END_ECRAM) then sc.(dump := 0)
    else if l == BEGIN_I2EC then sc.(inI2ec := true)
    else if l == END_I2EC then sc.(inI2ec := false)
    else if HasPrefix(l, INCOMPLETE) then sc.(file := sc.file.(incomplete := TrimSpace(l[|INCOMPLETE|..])))
    else Row(sc, Fields(l))
  }

  function Scanned(sc: Scan, ls: seq<string>): Scan
    decreases |ls|
  {
    if ls == [] then sc else Scanned(LineStep(sc, ls[0]), ls[1..])
  }

  function Parsed(text: string): File {
    Scanned(EMPTY, ScanLines(text)).file
  }

  method PutRow(m: map<int, string>, address: int, values: seq<string>) returns (r: map<int, string>)
    ensures r == Put(m, address, values)
  {
    r := m;
    for i := 0 to |values|
      invariant Put(r, address + i, values[i..]) == Put(m, address, values)
    {
      r := r[address + i := ToLower(values[i])];
      assert values[i..][1..] == values[i+1..];
    }
  }

  /** Reads a snapshot line by line. */
  method Parse(text: string) returns (f: File)
    ensures f == Parsed(text)
  {
    var lines, sc := ScanLines(text), EMPTY;
    for k := 0 to |lines|
      invariant Scanned(sc, lines[k..]) == Scanned(EMPTY, lines)
    {
      assert lines[k..][1..] == lines[k+1..];
      sc := ParseLine(sc, lines[k]);
    }
    f := sc.file;
  }

  method ParseLine(sc: Scan, l: string) returns (r: Scan)
    ensures r == LineStep(sc, l)
  {
    if HasPrefix(l, BEGIN_ECRAM) && HasSuffix(l, MARKER_END) {
      return BeginDump(sc, l);
    }
    if HasPrefix(l, END_ECRAM) {
      return sc.(dump := 0);
    }
    if l == BEGIN_I2EC || l == END_I2EC {
      return sc.(inI2ec := l == BEGIN_I2EC);
    }
    if HasPrefix(l, INCOMPLETE) {
      return sc.(file := sc.file.(incomplete := TrimSpace(l[|INCOMPLETE|..])));
    }
    var words := Fields(l);
    if words == [] {
      return sc;
    }
    if sc.dump > 0 && IsHexAddr(words[0], 2) {
      var m := PutRow(DumpOf(sc.file, sc.dump), HexValue(words[0][..2]).value, words[1..]);
      return sc.(file := sc.file.(ecram := sc.file.ecram[sc.dump := m]));
    }
    if sc.inI2ec && IsHexAddr(words[0], 4) {
      var m := PutRow(sc.file.i2ec, HexValue(words[0][..4]).value, words[1..]);
      return sc.(file := sc.file.(i2ec := m));
    }
    return sc;
  }

  // ---- printed rows are read back ------------------------------------------------------------

  /** A value as the printers produce it: two lower-case digits, or ?? after a timeout. */
  predicate Printed(v: string) {
    Word(v) && Line(v) && ToLower(v) == v
  }

  predicate AllPrinted(values: seq<string>) {
    forall i :: 0 <= i < |values| ==> Printed(values[i])
  }

  /** Where a row belongs: a dump of the EC RAM or the I2EC section. */
  predicate Reads(sc: Scan, width: nat) {
    (width == 2 && sc.dump > 0) || (width == 4 && sc.dump == 0 && sc.inI2ec)
  }

  function WithRow(sc: Scan, width: nat, address: int, values: seq<string>): Scan {
    if width == 2
    then sc.(file := sc.file.(ecram := sc.file.ecram[sc.dump := Put(DumpOf(sc.file, sc.dump), address, values)]))
    else sc.(file := sc.file.(i2ec := Put(sc.file.i2ec, address, values)))
  }

  /** The addresses a row can show in its digits. */
  function Limit(width: nat): nat {
    if width == 2 then 0x100 else 0x1_0000
  }

  lemma LimitIsPower(width: nat)
    requires width == 2 || width == 4
    ensures Power16(width) == Limit(width)
  {
  }

  lemma RowFields(address: nat, width: nat, values: seq<string>)
    requires width == 2 || width == 4
    requires address < Power16(width) && AllPrinted(values)
    ensures Fields(RowLine(address, width, values)) == [Hex(address, width) + ":"] + values
    ensures IsHexAddr(Hex(address, width) + ":", width)
    ensures HexValue((Hex(address, width) + ":")[..width]) == Some(address)
  {
    HexRoundTrip(address, width);
    var head := Hex(address, width) + ":";
    assert head[..width] == Hex(address, width);
    HexIsWord(Hex(address, width));
    FieldsOfFirst(head, values);
    FieldsOfSpaced(values);
    LimitIsPower(width);
  }

  /** A row begins with a digit, so it is no marker. */
  lemma RowIsNoMarker(address: nat, width: nat, values: seq<string>)
    requires width >= 1 && address < Power16(width)
    ensures var l := RowLine(address, width, values);
            !HasPrefix(l, BEGIN_ECRAM) && !HasPrefix(l, END_ECRAM) && l != BEGIN_I2EC && l != END_I2EC
                && !HasPrefix(l, INCOMPLETE)
  {
    HexRoundTrip(address, width);
    var l := RowLine(address, width, values);
    assert l[0] == Hex(address, width)[0];
    NoPrefix(l, BEGIN_ECRAM);
    NoPrefix(l, END_ECRAM);
    NoPrefix(l, BEGIN_I2EC);
    NoPrefix(l, END_I2EC);
    NoPrefix(l, INCOMPLETE);
  }

  lemma NoPrefix(l: string, p: string)
    requires l != "" && p != "" && l[0] != p[0]
    ensures !HasPrefix(l, p) && l != p
  {
  }

  lemma RowRead(sc: Scan, width: nat, address: nat, values: seq<string>)
    requires Reads(sc, width) && address < Limit(width) && AllPrinted(values)
    ensures LineStep(sc, RowLine(address, width, values)) == WithRow(sc, width, address, values)
  {
    LimitIsPower(width);
    RowIsNoMarker(address, width, values);
    RowFields(address, width, values);
    assert ([Hex(address, width) + ":"] + values)[1..] == values;
    if width == 4 {
      HexRoundTrip(address, width);
    }
  }

  lemma {:induction false} PutSum(m: map<int, string>, address: int, a: seq<string>, b: seq<string>)
    ensures Put(m, address, a + b) == Put(Put(m, address, a), address + |a|, b)
    decreases |a|
  {
    if a == [] {
      assert a + b == b;
    } else {
      assert (a + b)[1..] == a[1..] + b;
      PutSum(m[address := ToLower(a[0])], address + 1, a[1..], b);
    }
  }

  lemma TwoRows(sc: Scan, width: nat, address: int, a: seq<string>, b: seq<string>)
    requires Reads(sc, width)
    ensures WithRow(WithRow(sc, width, address, a), width, address + |a|, b) == WithRow(sc, width, address, a + b)
  {
    PutSum(if width == 2 then DumpOf(sc.file, sc.dump) else sc.file.i2ec, address, a, b);
  }

  lemma FirstRowRead(sc: Scan, width: nat, address: nat, values: seq<string>)
    requires Reads(sc, width) && values != []
    requires address < Limit(width) && AllPrinted(values)
    ensures var n := Min(ROW, |values|);
            Scanned(sc, RowLines(address, width, values))
            == Scanned(WithRow(sc, width, address, values[..n]), RowLines(address + ROW, width, values[n..]))
  {
    RowsFirst(address, width, values);
    RowRead(sc, width, address, values[..Min(ROW, |values|)]);
    ScannedFirst(sc, RowLines(address, width, values));
  }

  lemma LastRowRead(sc: Scan, width: nat, address: nat, values: seq<string>)
    requires Reads(sc, width) && 0 < |values| <= ROW
    requires address < Limit(width) && AllPrinted(values)
    ensures Scanned(sc, RowLines(address, width, values)) == WithRow(sc, width, address, values)
  {
    FirstRowRead(sc, width, address, values);
    assert values[..|values|] == values && values[|values|..] == [];
  }

  lemma MoreRowsRead(sc: Scan, width: nat, address: nat, row: seq<string>, rest: seq<string>)
    requires Reads(sc, width) && |row| == ROW && rest != []
    requires address < Limit(width) && AllPrinted(row + rest)
    requires Scanned(WithRow(sc, width, address, row), RowLines(address + ROW, width, rest))
             == WithRow(WithRow(sc, width, address, row), width, address + ROW, rest)
    ensures Scanned(sc, RowLines(address, width, row + rest)) == WithRow(sc, width, address, row + rest)
  {
    FirstRowRead(sc, width, address, row + rest);
    assert (row + rest)[..ROW] == row && (row + rest)[ROW..] == rest;
    TwoRows(sc, width, address, row, rest);
  }

  /** All rows of a section are read back into their place. */
  lemma {:induction false} RowsRead(sc: Scan, width: nat, address: nat, values: seq<string>)
    requires Reads(sc, width) && values != []
    requires address + |values| <= Limit(width) && AllPrinted(values)
    ensures Scanned(sc, RowLines(address, width, values)) == WithRow(sc, width, address, values)
    decreases |values|
  {
    if |values| <= ROW {
      LastRowRead(sc, width, address, values);
    } else {
      var row, rest := values[..ROW], values[ROW..];
      RowsRead(WithRow(sc, width, address, row), width, address + ROW, rest);
      assert row + rest == values;
      MoreRowsRead(sc, width, address, row, rest);
    }
  }

  lemma ScannedFirst(sc: Scan, ls: seq<string>)
    requires ls != []
    ensures Scanned(sc, ls) == Scanned(LineStep(sc, ls[0]), ls[1..])
  {
  }

  lemma RowsFirst(address: nat, width: nat, values: seq<string>)
    requires values != []
    ensures var n := Min(ROW, |values|);
            var ls := RowLines(address, width, values);
            ls != [] && ls[0] == RowLine(address, width, values[..n])
                && ls[1..] == RowLines(address + ROW, width, values[n..])
  {
  }

  lemma {:induction false} ScannedSum(sc: Scan, a: seq<string>, b: seq<string>)
    ensures Scanned(sc, a + b) == Scanned(Scanned(sc, a), b)
    decreases |a|
  {
    if a == [] {
      assert a + b == b;
    } else {
      assert (a + b)[1..] == a[1..] + b;
      ScannedSum(LineStep(sc, a[0]), a[1..], b);
    }
  }

  // ---- sections and files ----------------------------------------------------------------

  datatype Section =
    | EcRamDump(n: int, data: seq<string>)
    | I2ecBytes(base: nat, bytes: seq<nat>)
    | IncompleteMark(reason: string)

  /** What the printers are given: a whole dump of EC RAM, bytes at addresses of four digits, or a
    reason of one line. */
  predicate Printable(sec: Section) {
    match sec
    case EcRamDump(n, data) => 1 <= n <= MAX_INT && |data| == 256 && AllPrinted(data)
    case I2ecBytes(base, data) => base + |data| <= 0x1_0000 && forall i :: 0 <= i < |data| ==> data[i] < 256
    case IncompleteMark(reason) => forall i :: 0 <= i < |reason| ==> reason[i] != NL
  }

  function MarkLine(reason: string): string {
    INCOMPLETE + " (" + reason + ")"
  }

  function SectionLines(sec: Section): seq<string> {
    match sec
    case EcRamDump(n, data) => EcRamLines(n, data)
    case I2ecBytes(base, data) => I2ecLines(base, data)
    case IncompleteMark(reason) => [MarkLine(reason)]
  }

  /** The file with the bytes of one more section. */
  function Stored(f: File, sec: Section): File {
    match sec
    case EcRamDump(n, data) => f.(ecram := f.ecram[n := Put(DumpOf(f, n), 0, data)])
    case I2ecBytes(base, data) => f.(i2ec := Put(f.i2ec, base, HexBytes(data)))
    case IncompleteMark(reason) => f.(incomplete := "(" + reason + ")")
  }

  lemma BytesPrinted(data: seq<nat>)
    requires forall i :: 0 <= i < |data| ==> data[i] < 256
    ensures AllPrinted(HexBytes(data))
  {
    BytesAreWords(data);
  }

  lemma BeginRead(f: File, n: int)
    requires 1 <= n <= MAX_INT
    ensures LineStep(Scan(0, false, f), BEGIN_ECRAM + Itoa(n) + MARKER_END) ==
            Scan(n, false, f.(ecram := f.ecram[n := DumpOf(f, n)]))
  {
    var l := BEGIN_ECRAM + Itoa(n) + MARKER_END;
    AtoiItoa(n);
    assert l[..|BEGIN_ECRAM|] == BEGIN_ECRAM && l[|l|-|MARKER_END|..] == MARKER_END;
    assert l[|BEGIN_ECRAM|..|l|-|MARKER_END|] == Itoa(n);
  }

  lemma EndRead(sc: Scan, n: int)
    ensures LineStep(sc, END_ECRAM + Itoa(n) + MARKER_END) == sc.(dump := 0)
  {
    var l := END_ECRAM + Itoa(n) + MARKER_END;
    assert l[..|END_ECRAM|] == END_ECRAM;
    assert l[4] == 'E';
    NotAt(l, BEGIN_ECRAM, 4);
  }

  lemma NotAt(l: string, p: string, k: nat)
    requires k < |l| && k < |p| && l[k] != p[k]
    ensures !HasPrefix(l, p)
  {
  }

  lemma MarkersRead(sc: Scan)
    ensures LineStep(sc, BEGIN_I2EC) == sc.(inI2ec := true)
    ensures LineStep(sc, END_I2EC) == sc.(inI2ec := false)
  {
    NotAt(BEGIN_I2EC, BEGIN_ECRAM, 10);
    NotAt(END_I2EC, BEGIN_ECRAM, 4);
    NotAt(BEGIN_I2EC, END_ECRAM, 4);
    NotAt(END_I2EC, END_ECRAM, 8);
  }

  /** The lines between two markers. */
  lemma Framed(sc: Scan, first: string, rows: seq<string>, last: string)
    ensures Scanned(sc, [first] + rows + [last]) == LineStep(Scanned(LineStep(sc, first), rows), last)
  {
    ScannedSum(sc, [first] + rows, [last]);
    ScannedSum(sc, [first], rows);
    ScannedFirst(sc, [first]);
    ScannedFirst(Scanned(LineStep(sc, first), rows), [last]);
    assert [first][1..] == [] && [last][1..] == [];
  }

  lemma DumpRead(f: File, n: int, data: seq<string>)
    requires Printable(EcRamDump(n, data))
    ensures Scanned(Scan(0, false, f), EcRamLines(n, data)) == Scan(0, false, Stored(f, EcRamDump(n, data)))
  {
    var begun := Scan(n, false, f.(ecram := f.ecram[n := DumpOf(f, n)]));
    BeginRead(f, n);
    RowsRead(begun, 2, 0, data);
    EndRead(WithRow(begun, 2, 0, data), n);
    Framed(Scan(0, false, f), BEGIN_ECRAM + Itoa(n) + MARKER_END, RowLines(0, 2, data),
           END_ECRAM + Itoa(n) + MARKER_END);
    assert f.ecram[n := DumpOf(f, n)][n := Put(DumpOf(f, n), 0, data)] == f.ecram[n := Put(DumpOf(f, n), 0, data)];
  }

  lemma BytesRead(f: File, base: nat, data: seq<nat>)
    requires Printable(I2ecBytes(base, data))
    ensures Scanned(Scan(0, false, f), I2ecLines(base, data)) == Scan(0, false, Stored(f, I2ecBytes(base, data)))
  {
    var begun := Scan(0, true, f);
    MarkersRead(Scan(0, false, f));
    BytesPrinted(data);
    if data != [] {
      RowsRead(begun, 4, base, HexBytes(data));
      MarkersRead(WithRow(begun, 4, base, HexBytes(data)));
    } else {
      assert HexBytes(data) == [];
      MarkersRead(begun);
    }
    Framed(Scan(0, false, f), BEGIN_I2EC, RowLines(base, 4, HexBytes(data)), END_I2EC);
  }

  lemma MarkRead(sc: Scan, reason: string)
    ensures Scanned(sc, [MarkLine(reason)]) == sc.(file := sc.file.(incomplete := "(" + reason + ")"))
  {
    var l, rest := MarkLine(reason), " (" + reason + ")";
    assert l == INCOMPLETE + rest;
    NoPrefix(l, BEGIN_ECRAM);
    NoPrefix(l, END_ECRAM);
    NoPrefix(l, BEGIN_I2EC);
    NoPrefix(l, END_I2EC);
    assert l[..|INCOMPLETE|] == INCOMPLETE && l[|INCOMPLETE|..] == rest;
    TrimReason(reason);
    ScannedFirst(sc, [l]);
    assert [l][1..] == [];
  }

  lemma TrimReason(reason: string)
    ensures TrimSpace(" (" + reason + ")") == "(" + reason + ")"
  {
    var inner := "(" + reason + ")";
    assert " (" + reason + ")" == " " + inner;
    assert (" " + inner)[1..] == inner;
    NothingToTrim(inner);
  }

  lemma SectionRead(f: File, sec: Section)
    requires Printable(sec)
    ensures Scanned(Scan(0, false, f), SectionLines(sec)) == Scan(0, false, Stored(f, sec))
  {
    match sec
    case EcRamDump(n, data) => DumpRead(f, n, data);
    case I2ecBytes(base, data) => BytesRead(f, base, data);
    case IncompleteMark(reason) => MarkRead(Scan(0, false, f), reason);
  }

  function DocumentLines(secs: seq<Section>): seq<string> {
    if secs == [] then [] else SectionLines(secs[0]) + DocumentLines(secs[1..])
  }

  function StoredAll(f: File, secs: seq<Section>): File
    decreases |secs|
  {
    if secs == [] then f else StoredAll(Stored(f, secs[0]), secs[1..])
  }

  predicate AllPrintable(secs: seq<Section>) {
    forall i :: 0 <= i < |secs| ==> Printable(secs[i])
  }

  lemma {:induction false} DocumentRead(f: File, secs: seq<Section>)
    requires AllPrintable(secs)
    ensures Scanned(Scan(0, false, f), DocumentLines(secs)) == Scan(0, false, StoredAll(f, secs))
    decreases |secs|
  {
    if secs != [] {
      SectionRead(f, secs[0]);
      ScannedSum(Scan(0, false, f), SectionLines(secs[0]), DocumentLines(secs[1..]));
      DocumentRead(Stored(f, secs[0]), secs[1..]);
    }
  }

  predicate AllLines(ls: seq<string>) {
    forall i :: 0 <= i < |ls| ==> Line(ls[i])
  }

  lemma {:induction false} SpacedIsLine(values: seq<string>)
    requires AllPrinted(values)
    ensures forall i :: 0 <= i < |Spaced(values)| ==> Spaced(values)[i] != NL
    ensures Line(Spaced(values))
  {
    if values != [] {
      SpacedIsLine(values[1..]);
      var rest := Spaced(values[1..]);
      assert Spaced(values) == (" " + values[0]) + rest;
    }
  }

  lemma RowIsLine(address: nat, width: nat, values: seq<string>)
    requires (width == 2 || width == 4) && address < Limit(width) && AllPrinted(values)
    ensures Line(RowLine(address, width, values))
  {
    LimitIsPower(width);
    HexRoundTrip(address, width);
    HexIsWord(Hex(address, width));
    SpacedIsLine(values);
    assert RowLine(address, width, values) == (Hex(address, width) + ":") + Spaced(values);
  }

  lemma {:induction false} RowsAreLines(address: nat, width: nat, values: seq<string>)
    requires (width == 2 || width == 4) && address + |values| <= Limit(width) && AllPrinted(values)
    ensures AllLines(RowLines(address, width, values))
    decreases |values|
  {
    if values != [] {
      var n := Min(ROW, |values|);
      RowsFirst(address, width, values);
      RowIsLine(address, width, values[..n]);
      if n < |values| {
        RowsAreLines(address + ROW, width, values[n..]);
      }
    }
  }

  lemma NumberIsLine(n: int)
    requires 1 <= n
    ensures Line(BEGIN_ECRAM + Itoa(n) + MARKER_END) && Line(END_ECRAM + Itoa(n) + MARKER_END)
  {
    DigitsValue(n);
    var a, b := BEGIN_ECRAM + Itoa(n) + MARKER_END, END_ECRAM + Itoa(n) + MARKER_END;
    assert a[|a|-1] == '=' && b[|b|-1] == '=';
  }

  lemma FramedLines(first: string, rows: seq<string>, last: string)
    requires Line(first) && AllLines(rows) && Line(last)
    ensures AllLines([first] + rows + [last])
  {
  }

  lemma SectionIsLines(sec: Section)
    requires Printable(sec)
    ensures AllLines(SectionLines(sec))
  {
    match sec
    case EcRamDump(n, data) =>
      NumberIsLine(n);
      RowsAreLines(0, 2, data);
      FramedLines(BEGIN_ECRAM + Itoa(n) + MARKER_END, RowLines(0, 2, data), END_ECRAM + Itoa(n) + MARKER_END);
    case I2ecBytes(base, bytes) =>
      BytesPrinted(bytes);
      RowsAreLines(base, 4, HexBytes(bytes));
      FramedLines(BEGIN_I2EC, RowLines(base, 4, HexBytes(bytes)), END_I2EC);
    case IncompleteMark(reason) =>
      var l := MarkLine(reason);
      assert l == INCOMPLETE + (" (" + reason + ")") && l[|l|-1] == ')';
  }

  lemma {:induction false} DocumentIsLines(secs: seq<Section>)
    requires AllPrintable(secs)
    ensures AllLines(DocumentLines(secs))
  {
    if secs != [] {
      SectionIsLines(secs[0]);
      DocumentIsLines(secs[1..]);
    }
  }

  /** Printer and parser undo each other: parsing any sequence of printed sections gives exactly
    their bytes; a later section of the same dump or address replaces an earlier one. */
  lemma ParsePrinted(secs: seq<Section>)
    requires AllPrintable(secs)
    ensures Parsed(JoinLines(DocumentLines(secs))) == StoredAll(EMPTY.file, secs)
  {
    DocumentIsLines(secs);
    ScanJoined(DocumentLines(secs));
    DocumentRead(EMPTY.file, secs);
  }

  /** What is stored: the values at their addresses, and nothing else is changed. */
  lemma {:induction false} PutExact(m: map<int, string>, address: int, values: seq<string>, a: int)
    ensures a in Put(m, address, values) <==> a in m || address <= a < address + |values|
    ensures address <= a < address + |values| ==> Put(m, address, values)[a] == ToLower(values[a - address])
    ensures a in m && !(address <= a < address + |values|) ==> Put(m, address, values)[a] == m[a]
    decreases |values|
  {
    if values != [] {
      PutExact(m[address := ToLower(values[0])], address + 1, values[1..], a);
    }
  }

  /** One printed dump gives back its 256 bytes. */
  lemma DumpRoundTrip(n: int, data: seq<string>)
    requires Printable(EcRamDump(n, data))
    ensures var f := Parsed(JoinLines(EcRamLines(n, data)));
            f.ecram == map[n := map a | 0 <= a < 256 :: data[a]]
  {
    var secs := [EcRamDump(n, data)];
    assert secs[1..] == [];
    assert DocumentLines(secs) == EcRamLines(n, data) + [];
    ParsePrinted(secs);
    var got: map<int, string> := Put(map[], 0, data);
    forall a: int
      ensures a in got <==> 0 <= a < 256
      ensures 0 <= a < 256 ==> got[a] == data[a]
    {
      PutExact(map[], 0, data, a);
      if 0 <= a < 256 {
        assert Printed(data[a]);
      }
    }
    assert got == map a | 0 <= a < 256 :: data[a];
    assert EcRamLines(n, data) + [] == EcRamLines(n, data);
  }
}
