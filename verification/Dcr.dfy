/** The dump of the duty registers (DCR in go/n5/n5driver/n5driver.go): its printed form and the
  parser, which also takes longer dumps and partial lines. */
module Dcr {
  import opened Wrappers
  import opened Text
  import SpecRules

  const BASE := 0x1800
  const SIZE := 16

  /** The bytes read so far and which of them were. */
  datatype Dump = Dump(bytes: seq<nat>, seen: seq<bool>)

  const NONE := Dump([0, 0, 0, 0, 0, 0, 0, 0, 0, 0, 0, 0, 0, 0, 0, 0],
                     [false, false, false, false, false, false, false, false, false, false, false, false, false, false,
                      false, false])

  predicate Sized(d: Dump) {
    |d.bytes| == |d.seen| == SIZE
  }

  // ---- registers and channels -------------------------------------------------------------

  /** The register of a pwm channel. */
  function ChannelDcr(pwm: int): Option<nat> {
    if 1 <= pwm <= 3 then Some(pwm) else if pwm == 4 then Some(5) else None
  }

  /** DCRn is byte 2 + n of the block. */
  function RegOffset(n: nat): nat {
    2 + n
  }

  /** The register of a channel is the primary one judged for it, and a dump that is accepted has
    read it. */
  lemma ChannelIsCovered(pwm: int, d: Dump)
    requires 1 <= pwm <= 4 && Sized(d) && Covered(d)
    ensures ChannelDcr(pwm) == Some(SpecRules.JudgedRegs(pwm)[0])
    ensures d.seen[RegOffset(ChannelDcr(pwm).value)]
  {
  }

  // ---- printing ----------------------------------------------------------------------------

  function Printed(d: seq<nat>): string {
    "1800" + (":" + Spaced(HexBytes(d)))
  }

  // ---- parsing -----------------------------------------------------------------------------

  /** The bytes of a line, from an offset on; what lies beyond the block is not read. None: a bad
    byte. */
  function Fill(d: Dump, off: nat, words: seq<string>): (r: Option<Dump>)
    requires Sized(d)
    ensures r.Some? ==> Sized(r.value)
    decreases |words|
  {
    if words == [] || off >= SIZE then Some(d)
    else
      var v := ParseHex(words[0], 255);
      if v.None? then None
      else Fill(Dump(d.bytes[off := v.value], d.seen[off := true]), off + 1, words[1..])
  }

  /** The offset a line of the block begins at. */
  function OffsetOf(address: string): Option<nat> {
    var a := ParseHex(TrimSpace(address), 0xffff);
    if a.None? || a.value < BASE || a.value >= BASE + SIZE then None else Some(a.value - BASE)
  }

  /** The parts before and after the first colon. */
  function Cut(l: string): Option<(string, string)> {
    var i := IndexOf(l, ':');
    if i == |l| then None else Some((l[..i], l[i+1..]))
  }

  /** The offset and the words of a line of the block. */
  function LineOf(line: string): Option<(nat, seq<string>)> {
    var parts := Cut(TrimSpace(line));
    if parts.None? || OffsetOf(parts.value.0).None? then None
    else Some((OffsetOf(parts.value.0).value, Fields(parts.value.1)))
  }

  function FillLine(d: Dump, line: string): (r: Option<Dump>)
    requires Sized(d)
    ensures r.Some? ==> Sized(r.value)
  {
    var l := LineOf(line);
    if l.None? then Some(d) else Fill(d, l.value.0, l.value.1)
  }

  function FillAll(d: Dump, lines: seq<string>): (r: Option<Dump>)
    requires Sized(d)
    ensures r.Some? ==> Sized(r.value)
    decreases |lines|
  {
    if lines == [] then Some(d)
    else
      var n := FillLine(d, lines[0]);
      if n.None? then None else FillAll(n.value, lines[1..])
  }

  /** DCR1..DCR5 were read. */
  predicate Covered(d: Dump)
    requires Sized(d)
  {
    forall off :: 3 <= off <= 7 ==> d.seen[off]
  }

  /** The registers a dump text gives. */
  function Parsed(s: string): Option<seq<nat>> {
    var d := FillAll(NONE, Split(s));
    if d.None? || !Covered(d.value) then None else Some(d.value.bytes)
  }

  /** Reads the file format, line by line and byte by byte. */
  method ParseDCR(s: string) returns (r: Option<seq<nat>>)
    ensures r == Parsed(s)
  {
    var lines, d := Split(s), NONE;
    for k := 0 to |lines|
      invariant Sized(d) && FillAll(d, lines[k..]) == FillAll(NONE, lines)
    {
      assert lines[k..][1..] == lines[k+1..];
      var n := ParseLine(d, lines[k]);
      if n.None? {
        return None;
      }
      d := n.value;
    }
    for off := 3 to 8
      invariant forall k :: 3 <= k < off ==> d.seen[k]
    {
      if !d.seen[off] {
        return None;
      }
    }
    return Some(d.bytes);
  }

  method ParseLine(d: Dump, line: string) returns (r: Option<Dump>)
    requires Sized(d)
    ensures r == FillLine(d, line)
  {
    var l := LineOf(line);
    if l.None? {
      return Some(d);
    }
    var off: nat, words, out := l.value.0, l.value.1, d;
    while words != [] && off < SIZE
      invariant Sized(out) && Fill(out, off, words) == Fill(d, l.value.0, l.value.1)
      decreases |words|
    {
      var v := ParseHex(words[0], 255);
      if v.None? {
        return None;
      }
      out := Dump(out.bytes[off := v.value], out.seen[off := true]);
      off, words := off + 1, words[1..];
    }
    return Some(out);
  }

  // ---- round trip -----------------------------------------------------------------------------

  /** The dump with bytes from an offset to its end. */
  predicate Filled(d: Dump, r: Dump, off: nat, data: seq<nat>)
    requires Sized(d) && Sized(r) && off + |data| == SIZE
  {
    && (forall k :: 0 <= k < off ==> r.bytes[k] == d.bytes[k] && r.seen[k] == d.seen[k])
    && (forall k :: 0 <= k < |data| ==> r.bytes[off + k] == data[k] && r.seen[off + k])
  }

  lemma {:induction false} FillPrinted(d: Dump, off: nat, data: seq<nat>)
    requires Sized(d) && off + |data| == SIZE && forall i :: 0 <= i < |data| ==> data[i] < 256
    ensures Fill(d, off, HexBytes(data)).Some? && Filled(d, Fill(d, off, HexBytes(data)).value, off, data)
    decreases |data|
  {
    if data != [] {
      assert Power16(2) == 256 by {
        assert Power16(1) == 16;
      }
      HexRoundTrip(data[0], 2);
      assert HexBytes(data)[1..] == HexBytes(data[1..]);
      var d1 := Dump(d.bytes[off := data[0]], d.seen[off := true]);
      FillPrinted(d1, off + 1, data[1..]);
      FilledOn(d, d1, Fill(d1, off + 1, HexBytes(data[1..])).value, off, data);
    }
  }

  lemma FilledOn(d: Dump, d1: Dump, r: Dump, off: nat, data: seq<nat>)
    requires Sized(d) && Sized(r) && off + |data| == SIZE && data != []
    requires d1 == Dump(d.bytes[off := data[0]], d.seen[off := true]) && Filled(d1, r, off + 1, data[1..])
    ensures Filled(d, r, off, data)
  {
    assert r.bytes[off] == d1.bytes[off] && r.seen[off] == d1.seen[off];
    forall k | 0 < k < |data|
      ensures r.bytes[off + k] == data[k] && r.seen[off + k]
    {
      assert r.bytes[off + 1 + (k - 1)] == data[1..][k-1] && r.seen[off + 1 + (k - 1)];
    }
  }

  lemma {:induction false} SpacedIsPlain(words: seq<string>)
    requires forall i :: 0 <= i < |words| ==> Word(words[i]) && Line(words[i])
    ensures forall i :: 0 <= i < |Spaced(words)| ==> Spaced(words)[i] != NL
    ensures words != [] ==> Spaced(words) != "" && !IsSpace(Spaced(words)[|Spaced(words)|-1])
  {
    if words != [] {
      SpacedIsPlain(words[1..]);
      var rest := Spaced(words[1..]);
      assert Spaced(words) == (" " + words[0]) + rest;
    }
  }

  lemma AddressRead()
    ensures OffsetOf("1800") == Some(0)
  {
    NothingToTrim("1800");
    assert HexValue("") == Some(0);
    HexValueStep("", 1);
    HexValueStep("1", 8);
    HexValueStep("18", 0);
    HexValueStep("180", 0);
    assert "" + [HexDigit(1)] == "1" && "1" + [HexDigit(8)] == "18" && "18" + [HexDigit(0)] == "180"
           && "180" + [HexDigit(0)] == "1800";
  }

  lemma CutAt(a: string, rest: string)
    requires forall i :: 0 <= i < |a| ==> a[i] != ':'
    ensures Cut(a + (":" + rest)) == Some((a, rest))
  {
    var l := a + (":" + rest);
    IndexAfter(a, ":" + rest, ':');
    assert l[..|a|] == a && l[|a|+1..] == rest;
  }

  /** A line that begins with a digit and ends with one. */
  lemma PlainLine(a: string, rest: string)
    requires Word(a) && (forall i :: 0 <= i < |a| ==> a[i] != NL)
    requires rest != "" && !IsSpace(rest[|rest|-1]) && forall i :: 0 <= i < |rest| ==> rest[i] != NL
    ensures var s := a + (":" + rest); Split(s) == [s] && TrimSpace(s) == s
  {
  }

  /** The text behind the address of a dump that is not empty. */
  predicate Tail(rest: string) {
    rest != "" && !IsSpace(rest[|rest|-1]) && forall i :: 0 <= i < |rest| ==> rest[i] != NL
  }

  lemma BlockLine(rest: string)
    requires Tail(rest)
    ensures Split("1800" + (":" + rest)) == ["1800" + (":" + rest)]
    ensures LineOf("1800" + (":" + rest)) == Some((0, Fields(rest)))
  {
    AddressRead();
    PlainLine("1800", rest);
    CutAt("1800", rest);
  }

  lemma PrintedTail(d: seq<nat>)
    requires |d| == SIZE && forall i :: 0 <= i < SIZE ==> d[i] < 256
    ensures Tail(Spaced(HexBytes(d))) && Fields(Spaced(HexBytes(d))) == HexBytes(d)
  {
    BytesAreWords(d);
    SpacedIsPlain(HexBytes(d));
    FieldsOfSpaced(HexBytes(d));
  }

  lemma PrintedLine(d: seq<nat>)
    requires |d| == SIZE && forall i :: 0 <= i < SIZE ==> d[i] < 256
    ensures Split(Printed(d)) == [Printed(d)]
    ensures LineOf(Printed(d)) == Some((0, HexBytes(d)))
  {
    PrintedTail(d);
    BlockLine(Spaced(HexBytes(d)));
  }

  lemma FilledWhole(d: Dump, r: Dump, data: seq<nat>)
    requires Sized(d) && Sized(r) && |data| == SIZE && Filled(d, r, 0, data)
    ensures r.bytes == data && Covered(r)
  {
    forall k | 0 <= k < SIZE
      ensures r.bytes[k] == data[k] && r.seen[k]
    {
      assert r.bytes[0 + k] == data[k] && r.seen[0 + k];
    }
  }

  /** Parsing a printed dump gives it back. */
  lemma ParsePrinted(d: seq<nat>)
    requires |d| == SIZE && forall i :: 0 <= i < SIZE ==> d[i] < 256
    ensures Parsed(Printed(d)) == Some(d)
  {
    PrintedLine(d);
    FillPrinted(NONE, 0, d);
    var full := Fill(NONE, 0, HexBytes(d)).value;
    FilledWhole(NONE, full, d);
    assert [Printed(d)][1..] == [];
    assert FillAll(full, []) == Some(full);
    assert FillAll(NONE, [Printed(d)]) == Some(full);
  }
}
