/** The single write path of the tool (ectest/internal/pwmw/pwmw.go) and the restores that go
  through it (restoreFromState and checkRestoreValue in ectest/cmd/n5-ectest/guardian.go,
  liveEnv.Restore in ectest/cmd/n5-ectest/validate.go).

  A panic is an outcome here, so that it can be proved never to occur. */
module PwmWriter {
  import opened Wrappers
  import opened Decimal
  import opened SpecRules
  import WT = WorkerTrace

  datatype Attr = Duty | Enable

  datatype Outcome = Written | Refused | Panic

  /** One write of an attribute that reached the driver. */
  datatype Write = Write(ch: int, attr: Attr, v: int)

  /** What may ever be written: a duty from 100 to 255, manual or automatic mode. */
  predicate SafeWrite(w: Write) {
    1 <= w.ch <= 4 && if w.attr == Duty then MIN_DUTY <= w.v <= MAX_DUTY else w.v == 1 || w.v == 2
  }

  /** The writes the tool dies on instead of sending them. */
  predicate PanicsOn(w: Write) {
    w.ch < 1 || w.ch > 4 || (w.attr == Duty && w.v < MIN_DUTY) || (w.attr == Enable && w.v != 1 && w.v != 2)
  }

  /** The write a command of a run asks for. */
  function WriteOf(ch: int, cmd: WT.Cmd): Write {
    match cmd
    case Manual => Write(ch, Enable, 1)
    case Duty(d) => Write(ch, Duty, d)
    case EcAuto => Write(ch, Enable, 2)
  }

  /** Every command of an allowed trace asks for a safe write, on a channel that exists: in a whole
    run the write path is never asked for anything it would panic on. */
  lemma {:induction false} CommandsNeverPanic(c: int, tr: WT.Trace, p: WT.Trace)
    requires WT.Allowed(c, tr) && WT.Prefix(p, tr) && p.Then? && p.step.Commanded?
    ensures SafeWrite(WriteOf(p.step.ch, p.step.cmd)) && !PanicsOn(WriteOf(p.step.ch, p.step.cmd))
  {
    if p != tr {
      CommandsNeverPanic(c, tr.before, p);
    }
  }

  const AUTO := "auto"
  const PCIE_RESTORE := "255"

  // ---- restore values --------------------------------------------------------------------

  datatype Target = ToAuto | ToDuty(duty: int)

  /** What a restore value stands for: "auto" or a duty from 100 to 255. */
  function TargetOf(value: string): Option<Target> {
    if value == AUTO then Some(ToAuto)
    else
      var d := Atoi(value);
      if d.None? || d.value < MIN_DUTY || d.value > MAX_DUTY then None else Some(ToDuty(d.value))
  }

  /** The writes that put a channel into a restore value. */
  function WritesOf(ch: int, t: Target): seq<Write> {
    match t
    case ToAuto => [Write(ch, Enable, 2)]
    case ToDuty(d) => [Write(ch, Enable, 1), Write(ch, Duty, d)]
  }

  /** The writes since `before` are a beginning of ws, and all of it when done. */
  predicate Sends(before: seq<Write>, after: seq<Write>, ws: seq<Write>, done: bool) {
    before <= after <= before + ws && (done ==> after == before + ws)
  }

  /** What a restore value writes: one automatic command, or manual mode and its duty, or nothing when
    it is neither "auto" nor a number from 100 to 255. */
  ghost predicate PutsBack(ch: int, value: string, before: seq<Write>, after: seq<Write>, o: Outcome) {
    && o != Panic
    && (value == "auto" ==> Sends(before, after, [Write(ch, Enable, 2)], o == Written))
    && (forall d :: 100 <= d <= 255 && Atoi(value) == Some(d) ==>
          Sends(before, after, [Write(ch, Enable, 1), Write(ch, Duty, d)], o == Written))
    && (value != "auto" && !(exists d :: 100 <= d <= 255 && Atoi(value) == Some(d)) ==> o == Refused && after == before)
  }

  /** ... which a printed duty is read back as. */
  lemma PrintedPutsBack(ch: int, d: int, before: seq<Write>, after: seq<Write>, o: Outcome)
    requires 100 <= d <= 255 && PutsBack(ch, Itoa(d), before, after, o)
    ensures Sends(before, after, [Write(ch, Enable, 1), Write(ch, Duty, d)], o == Written)
  {
    AtoiItoa(d);
  }

  /** The value a channel is really put back to: the EC has no automatic for pwm4. */
  function RestoreValue(ch: int, value: string): string {
    if ch == PCIE_CHANNEL then PCIE_RESTORE else if value == "" then AUTO else value
  }

  lemma PcieGoesTo255(value: string)
    ensures TargetOf(RestoreValue(PCIE_CHANNEL, value)) == Some(ToDuty(255))
    ensures Atoi("255") == Some(255)
  {
    AtoiItoa(255);
    assert Itoa(255) == PCIE_RESTORE by {
      assert Digits(2) == "2" && Digits(25) == "25" && Digits(255) == "255";
    }
  }

  // ---- the device ----------------------------------------------------------------------

  /** The pwm attributes of the driver. A write may fail, also after it reached the driver; the
    device may be gone or another one. */
  class Device {
    ghost var asked: seq<Write>      // what the device was looked up for
    ghost var written: seq<Write>

    constructor ()
      ensures asked == written == []
    {
      asked, written := [], [];
    }

    /** Whether the device is the one recorded at the start and shows the attribute. */
    method Resolve(ghost w: Write) returns (same: bool)
      modifies this`asked
      ensures asked == old(asked) + [w]
    {
      asked := asked + [w];
      same := *;
    }

    method Put(w: Write) returns (ok: bool)
      modifies this`written
      ensures written == old(written) + [w]
    {
      written := written + [w];
      ok := *;
    }
  }

  /** A write on the channel was tried since `before`. */
  predicate Asked(before: seq<Write>, after: seq<Write>, ch: int) {
    exists i :: |before| <= i < |after| && after[i].ch == ch
  }

  class Writer {
    const dev: Device

    constructor (dev: Device)
      ensures this.dev == dev
    {
      this.dev := dev;
    }

    /** Writes one attribute. It panics exactly on a channel that does not exist, a duty below 100 and
      a mode that is neither manual nor automatic; a duty above 255 and another device are errors. */
    method Put(ch: int, attr: Attr, v: int) returns (o: Outcome)
      modifies dev
      ensures o == Panic <==> PanicsOn(Write(ch, attr, v))
      ensures (attr == Duty && v < 100) || (attr == Enable && v != 1 && v != 2) || ch < 1 || ch > 4 ==> o == Panic
      ensures attr == Duty && !(100 <= v <= 255) ==> o != Written && dev.written == old(dev.written)
      ensures dev.written == old(dev.written)
              || (SafeWrite(Write(ch, attr, v)) && dev.written == old(dev.written) + [Write(ch, attr, v)])
      ensures o == Written ==> dev.written == old(dev.written) + [Write(ch, attr, v)]
      ensures dev.asked == if SafeWrite(Write(ch, attr, v)) then old(dev.asked) + [Write(ch, attr, v)]
              else old(dev.asked)
    {
      if ch < 1 || ch > 4 {
        return Panic;
      }
      match attr {
        case Duty =>
          if v < MIN_DUTY {
            return Panic;
          }
          if v > MAX_DUTY {
            return Refused;
          }
        case Enable =>
          if v != 1 && v != 2 {
            return Panic;
          }
      }
      var same := dev.Resolve(Write(ch, attr, v));
      if !same {
        return Refused;
      }
      var ok := dev.Put(Write(ch, attr, v));
      return if ok then Written else Refused;
    }

    /** Puts a channel into a restore value. No string makes it panic; one that is no restore value
      writes nothing. */
    method RestoreTo(ch: int, value: string) returns (o: Outcome)
      requires 1 <= ch <= 4
      modifies dev
      ensures PutsBack(ch, value, old(dev.written), dev.written, o)
      ensures old(dev.asked) <= dev.asked && (TargetOf(value).Some? ==> Asked(old(dev.asked), dev.asked, ch))
    {
      if value == AUTO {
        o := Put(ch, Enable, 2);
        assert dev.asked[|old(dev.asked)|].ch == ch;
        return;
      }
      var d := Atoi(value);
      if d.None? || d.value < MIN_DUTY || d.value > MAX_DUTY {
        return Refused;
      }
      o := Put(ch, Enable, 1);
      assert dev.asked[|old(dev.asked)|].ch == ch;
      if o != Written {
        return;
      }
      ghost var w := dev.written;
      assert w == old(dev.written) + [Write(ch, Enable, 1)];
      o := Put(ch, Duty, d.value);
      assert dev.asked[|old(dev.asked)|].ch == ch;
    }

    /** The restore of a run: the configured value, the automatic when there is none, and 255 for pwm4. */
    method Restore(ch: int, value: string) returns (o: Outcome)
      requires 1 <= ch <= 4
      modifies dev
      ensures ch == 4 ==>
                && o != Panic
                && Sends(old(dev.written), dev.written, [Write(4, Enable, 1), Write(4, Duty, 255)], o == Written)
      ensures ch != 4 ==> PutsBack(ch, if value == "" then "auto" else value, old(dev.written), dev.written, o)
      ensures ch == 4 || TargetOf(value).Some? ==> Asked(old(dev.asked), dev.asked, ch)
    {
      PcieGoesTo255(value);
      o := RestoreTo(ch, RestoreValue(ch, value));
    }
  }

  // ---- the state file --------------------------------------------------------------------

  /** The check of a restore value before it is written. */
  function CheckRestoreValue(v: string): bool {
    v == AUTO || (Atoi(v).Some? && Atoi(v).value <= 255 && Atoi(v).value >= MIN_DUTY)
  }

  /** It accepts exactly the values RestoreTo takes. */
  lemma CheckExact(v: string)
    ensures CheckRestoreValue(v) <==> TargetOf(v).Some?
  {
  }

  /** The channel a key of the state file names. */
  function ChannelOf(key: string): Option<int> {
    var ch := Atoi(key);
    if ch.None? || ch.value < 1 || ch.value > 4 then None else ch
  }

  /** The value the state file has for a channel, "" when its key is written in another way. */
  function StateValue(channels: map<string, string>, ch: int): string {
    if Itoa(ch) in channels then channels[Itoa(ch)] else ""
  }

  /** ... and the one it is put back to. */
  function PutBackValue(channels: map<string, string>, ch: int): string {
    if ch == PCIE_CHANNEL then PCIE_RESTORE else StateValue(channels, ch)
  }

  predicate Sorted(v: seq<int>) {
    forall i, j :: 0 <= i < j < |v| ==> v[i] <= v[j]
  }

  lemma InsertedIsSorted(v: seq<int>, x: int, j: nat)
    requires Sorted(v) && j <= |v|
    requires forall i :: 0 <= i < j ==> v[i] <= x
    requires forall i :: j <= i < |v| ==> x < v[i]
    ensures Sorted(v[..j] + [x] + v[j..])
    ensures multiset(v[..j] + [x] + v[j..]) == multiset(v) + multiset{x}
  {
    var r := v[..j] + [x] + v[j..];
    forall a, b | 0 <= a < b < |r|
      ensures r[a] <= r[b]
    {
      assert r[a] == if a < j then v[a] else if a == j then x else v[a-1];
      assert r[b] == if b < j then v[b] else if b == j then x else v[b-1];
    }
    assert v == v[..j] + v[j..];
  }

  /** Inserts x into a sorted list, by moving it left past larger entries. */
  method InsertSorted(v: seq<int>, x: int) returns (r: seq<int>)
    requires Sorted(v)
    ensures Sorted(r) && multiset(r) == multiset(v) + multiset{x}
  {
    var j := |v|;
    while j > 0 && x < v[j-1]
      invariant 0 <= j <= |v| && forall i :: j <= i < |v| ==> x < v[i]
    {
      j := j - 1;
    }
    InsertedIsSorted(v, x, j);
    r := v[..j] + [x] + v[j..];
  }

  /** The channels a state file names, in ascending order; false when a key names none. */
  method Channels(keys: set<string>) returns (chans: seq<int>, ok: bool)
    ensures Sorted(chans)
    ensures ok <==> forall k :: k in keys ==> ChannelOf(k).Some?
    ensures forall ch :: ch in multiset(chans) ==> exists k :: k in keys && ChannelOf(k) == Some(ch)
    ensures forall k :: k in keys && ChannelOf(k).Some? ==> ChannelOf(k).value in multiset(chans)
  {
    chans, ok := [], true;
    var rest, seen: set<string> := keys, {};
    while rest != {}
      invariant forall k :: k in keys <==> k in rest || k in seen
      invariant Sorted(chans)
      invariant ok <==> forall k :: k in seen ==> ChannelOf(k).Some?
      invariant forall ch :: ch in multiset(chans) ==> exists k :: k in seen && ChannelOf(k) == Some(ch)
      invariant forall k :: k in seen && ChannelOf(k).Some? ==> ChannelOf(k).value in multiset(chans)
      decreases |rest|
    {
      var k :| k in rest;
      rest, seen := rest - {k}, seen + {k};
      if ChannelOf(k).Some? {
        chans := InsertSorted(chans, ChannelOf(k).value);
      } else {
        ok := false;
      }
    }
  }

  /** Every write of a restore is safe, and pwm4 is set to 255 and nothing else. */
  ghost predicate SafeRestore(before: seq<Write>, after: seq<Write>) {
    && before <= after
    && forall i :: |before| <= i < |after| ==>
         && SafeWrite(after[i])
         && (after[i].ch == PCIE_CHANNEL ==> after[i] == Write(4, Enable, 1) || after[i] == Write(4, Duty, 255))
  }

  /** The channel can be put back to the value of the state file. */
  predicate Restorable(channels: map<string, string>, ch: int) {
    TargetOf(PutBackValue(channels, ch)).Some?
  }

  /** The writes of the value of every channel that can be put back. */
  function StateBlocks(channels: map<string, string>): map<int, seq<Write>> {
    map ch | 1 <= ch <= 4 && Restorable(channels, ch) :: WritesOf(ch, TargetOf(PutBackValue(channels, ch)).value)
  }

  /** The writes of a restore of all these channels. */
  function AllWrites(blocks: map<int, seq<Write>>, chans: seq<int>): seq<Write>
    requires forall i :: 0 <= i < |chans| ==> chans[i] in blocks
  {
    if chans == [] then [] else AllWrites(blocks, chans[..|chans|-1]) + blocks[chans[|chans|-1]]
  }

  /** The writes on one channel, in order. */
  function WritesTo(ws: seq<Write>, ch: int): seq<Write> {
    if ws == [] then []
    else WritesTo(ws[..|ws|-1], ch) + if ws[|ws|-1].ch == ch then [ws[|ws|-1]] else []
  }

  lemma {:induction false} WritesToSum(a: seq<Write>, b: seq<Write>, ch: int)
    ensures WritesTo(a + b, ch) == WritesTo(a, ch) + WritesTo(b, ch)
  {
    if b == [] {
      assert a + b == a;
    } else {
      assert (a + b)[..|a + b|-1] == a + b[..|b|-1];
      WritesToSum(a, b[..|b|-1], ch);
    }
  }

  /** ws is a block of writes once or several times. */
  predicate Blocks(ws: seq<Write>, block: seq<Write>) {
    && block != [] && |ws| >= |block| && ws[|ws|-|block|..] == block
    && (ws[..|ws|-|block|] == [] || Blocks(ws[..|ws|-|block|], block))
  }

  lemma BlocksStep(ws: seq<Write>, block: seq<Write>)
    requires block != [] && (ws == [] || Blocks(ws, block))
    ensures Blocks(ws + block, block)
  {
    assert (ws + block)[..|ws|] == ws && (ws + block)[|ws|..] == block;
  }

  /** All of them are on one channel. */
  predicate OnChannel(ws: seq<Write>, c: int) {
    forall i :: 0 <= i < |ws| ==> ws[i].ch == c
  }

  lemma {:induction false} WritesToBlock(ws: seq<Write>, c: int, ch: int)
    requires OnChannel(ws, c)
    ensures WritesTo(ws, ch) == if c == ch then ws else []
  {
    if ws != [] {
      WritesToBlock(ws[..|ws|-1], c, ch);
      assert ws == ws[..|ws|-1] + [ws[|ws|-1]];
    }
  }

  /** The writes on a channel: its block for every time it is listed. */
  predicate ListedBlocks(ws: seq<Write>, listed: bool, block: seq<Write>) {
    if listed then Blocks(ws, block) else ws == []
  }

  lemma ListedStep(ws: seq<Write>, listed: bool, block: seq<Write>, again: bool)
    requires ListedBlocks(ws, listed, block) && block != []
    ensures ListedBlocks(ws + if again then block else [], listed || again, block)
  {
    if again {
      BlocksStep(ws, block);
    } else {
      assert ws + [] == ws;
    }
  }

  /** The channel was put to a value and to nothing else. */
  predicate OnlyBlock(before: seq<Write>, after: seq<Write>, ch: int, block: seq<Write>) {
    before <= after && Blocks(WritesTo(after[|before|..], ch), block)
  }

  /** The blocks of a channel are writes on it. */
  predicate OnTheirChannels(blocks: map<int, seq<Write>>) {
    forall c :: c in blocks ==> blocks[c] != [] && OnChannel(blocks[c], c)
  }

  lemma {:induction false} AllWritesTo(blocks: map<int, seq<Write>>, chans: seq<int>, ch: int)
    requires OnTheirChannels(blocks) && ch in blocks && forall i :: 0 <= i < |chans| ==> chans[i] in blocks
    ensures ListedBlocks(WritesTo(AllWrites(blocks, chans), ch), ch in chans, blocks[ch])
  {
    if chans != [] {
      var init, last := chans[..|chans|-1], chans[|chans|-1];
      assert chans == init + [last];
      AllWritesTo(blocks, init, ch);
      WritesToSum(AllWrites(blocks, init), blocks[last], ch);
      WritesToBlock(blocks[last], last, ch);
      ListedStep(WritesTo(AllWrites(blocks, init), ch), ch in init, blocks[ch], last == ch);
    }
  }

  lemma ChannelRestored(before: seq<Write>, after: seq<Write>, blocks: map<int, seq<Write>>, chans: seq<int>, ch: int)
    requires OnTheirChannels(blocks) && ch in chans && forall i :: 0 <= i < |chans| ==> chans[i] in blocks
    requires after == before + AllWrites(blocks, chans)
    ensures ch in blocks && OnlyBlock(before, after, ch, blocks[ch])
  {
    assert after[|before|..] == AllWrites(blocks, chans);
    AllWritesTo(blocks, chans, ch);
  }

  lemma StateBlocksOnTheirChannels(channels: map<string, string>)
    ensures OnTheirChannels(StateBlocks(channels))
  {
  }

  lemma KeyOf(ch: int)
    requires 1 <= ch <= 4
    ensures ChannelOf(Itoa(ch)) == Some(ch)
  {
    AtoiItoa(ch);
  }

  /** What a complete restore from the state file did: pwm4 went to 255 if any key names it; a channel
    with the value "auto" got the automatic command, one with a number its duty, and nothing else. */
  ghost predicate StateRestored(before: seq<Write>, after: seq<Write>, channels: map<string, string>) {
    && ((exists k :: k in channels && ChannelOf(k) == Some(4)) ==>
          OnlyBlock(before, after, 4, [Write(4, Enable, 1), Write(4, Duty, 255)]))
    && AutosRestored(before, after, channels)
    && DutiesRestored(before, after, channels)
  }

  ghost predicate AutosRestored(before: seq<Write>, after: seq<Write>, channels: map<string, string>) {
    forall ch :: 1 <= ch <= 3 && Itoa(ch) in channels && channels[Itoa(ch)] == "auto" ==>
                   OnlyBlock(before, after, ch, [Write(ch, Enable, 2)])
  }

  ghost predicate DutiesRestored(before: seq<Write>, after: seq<Write>, channels: map<string, string>) {
    forall ch :: 1 <= ch <= 3 && Itoa(ch) in channels && Atoi(channels[Itoa(ch)]).Some? ==>
                   DutyIsBack(before, after, ch, Atoi(channels[Itoa(ch)]).value)
  }

  ghost predicate DutyIsBack(before: seq<Write>, after: seq<Write>, ch: int, d: int) {
    100 <= d <= 255 && OnlyBlock(before, after, ch, [Write(ch, Enable, 1), Write(ch, Duty, d)])
  }

  /** The block of a channel, from the text of the state file. */
  lemma BlockOfPcie(channels: map<string, string>)
    requires 4 in StateBlocks(channels)
    ensures StateBlocks(channels)[4] == [Write(4, Enable, 1), Write(4, Duty, 255)]
  {
    PcieGoesTo255("");
  }

  lemma BlockOfAuto(channels: map<string, string>, ch: int)
    requires ch != 4 && ch in StateBlocks(channels) && Itoa(ch) in channels && channels[Itoa(ch)] == "auto"
    ensures StateBlocks(channels)[ch] == [Write(ch, Enable, 2)]
  {
  }

  lemma BlockOfDuty(channels: map<string, string>, ch: int, d: int)
    requires ch != 4 && ch in StateBlocks(channels) && Itoa(ch) in channels && Atoi(channels[Itoa(ch)]) == Some(d)
    ensures 100 <= d <= 255 && StateBlocks(channels)[ch] == [Write(ch, Enable, 1), Write(ch, Duty, d)]
  {
    assert TargetOf(channels[Itoa(ch)]) == Some(ToDuty(d)) by {
      assert Atoi("auto").None?;
    }
  }

  /** All channels the keys name were put back. */
  predicate CompleteRestore(before: seq<Write>, after: seq<Write>, channels: map<string, string>, chans: seq<int>) {
    && AllWritten(before, after, StateBlocks(channels), chans)
    && forall k :: k in channels && ChannelOf(k).Some? ==> ChannelOf(k).value in chans
  }

  lemma KeyRestored(before: seq<Write>, after: seq<Write>, channels: map<string, string>, chans: seq<int>, k: string)
    requires CompleteRestore(before, after, channels, chans) && k in channels && ChannelOf(k).Some?
    ensures var ch := ChannelOf(k).value;
            ch in StateBlocks(channels) && OnlyBlock(before, after, ch, StateBlocks(channels)[ch])
  {
    StateBlocksOnTheirChannels(channels);
    ChannelRestored(before, after, StateBlocks(channels), chans, ChannelOf(k).value);
  }

  lemma AutoRestored(before: seq<Write>, after: seq<Write>, channels: map<string, string>, chans: seq<int>, ch: int)
    requires CompleteRestore(before, after, channels, chans)
    requires 1 <= ch <= 3 && Itoa(ch) in channels && channels[Itoa(ch)] == "auto"
    ensures OnlyBlock(before, after, ch, [Write(ch, Enable, 2)])
  {
    KeyOf(ch);
    KeyRestored(before, after, channels, chans, Itoa(ch));
    BlockOfAuto(channels, ch);
  }

  lemma DutyRestored(before: seq<Write>, after: seq<Write>, channels: map<string, string>, chans: seq<int>, ch: int,
                     d: int)
    requires CompleteRestore(before, after, channels, chans)
    requires 1 <= ch <= 3 && Itoa(ch) in channels && Atoi(channels[Itoa(ch)]) == Some(d)
    ensures DutyIsBack(before, after, ch, d)
  {
    KeyOf(ch);
    KeyRestored(before, after, channels, chans, Itoa(ch));
    BlockOfDuty(channels, ch, d);
  }

  lemma PcieRestored(before: seq<Write>, after: seq<Write>, channels: map<string, string>, chans: seq<int>, k: string)
    requires CompleteRestore(before, after, channels, chans) && k in channels && ChannelOf(k) == Some(4)
    ensures OnlyBlock(before, after, 4, [Write(4, Enable, 1), Write(4, Duty, 255)])
  {
    KeyRestored(before, after, channels, chans, k);
    BlockOfPcie(channels);
  }

  /** The channels were put back to the values of the state file, and to nothing else. */
  lemma CompleteRestores(before: seq<Write>, after: seq<Write>, channels: map<string, string>, chans: seq<int>)
    requires CompleteRestore(before, after, channels, chans)
    ensures StateRestored(before, after, channels)
  {
    forall k | k in channels && ChannelOf(k) == Some(4)
      ensures OnlyBlock(before, after, 4, [Write(4, Enable, 1), Write(4, Duty, 255)])
    {
      PcieRestored(before, after, channels, chans, k);
    }
    AllAutosRestored(before, after, channels, chans);
    AllDutiesRestored(before, after, channels, chans);
  }

  lemma AllAutosRestored(before: seq<Write>, after: seq<Write>, channels: map<string, string>, chans: seq<int>)
    requires CompleteRestore(before, after, channels, chans)
    ensures AutosRestored(before, after, channels)
  {
    forall ch | 1 <= ch <= 3 && Itoa(ch) in channels && channels[Itoa(ch)] == "auto"
      ensures OnlyBlock(before, after, ch, [Write(ch, Enable, 2)])
    {
      AutoRestored(before, after, channels, chans, ch);
    }
  }

  lemma AllDutiesRestored(before: seq<Write>, after: seq<Write>, channels: map<string, string>, chans: seq<int>)
    requires CompleteRestore(before, after, channels, chans)
    ensures DutiesRestored(before, after, channels)
  {
    forall ch | 1 <= ch <= 3 && Itoa(ch) in channels && Atoi(channels[Itoa(ch)]).Some?
      ensures DutyIsBack(before, after, ch, Atoi(channels[Itoa(ch)]).value)
    {
      DutyRestored(before, after, channels, chans, ch, Atoi(channels[Itoa(ch)]).value);
    }
  }

  lemma SafeRestoreOn(a: seq<Write>, b: seq<Write>, c: seq<Write>)
    requires SafeRestore(a, b) && SafeRestore(b, c)
    ensures SafeRestore(a, c)
  {
  }

  /** The writes so far are those of the channels so far, all of which can be put back. */
  predicate AllWritten(before: seq<Write>, after: seq<Write>, blocks: map<int, seq<Write>>, chans: seq<int>) {
    (forall i :: 0 <= i < |chans| ==> chans[i] in blocks) && after == before + AllWrites(blocks, chans)
  }

  lemma AllWrittenOn(a: seq<Write>, b: seq<Write>, c: seq<Write>, blocks: map<int, seq<Write>>, chans: seq<int>,
                     ch: int)
    requires AllWritten(a, b, blocks, chans) && ch in blocks && c == b + blocks[ch]
    ensures AllWritten(a, c, blocks, chans + [ch])
  {
    assert (chans + [ch])[..|chans|] == chans;
    assert (a + AllWrites(blocks, chans)) + blocks[ch] == a + (AllWrites(blocks, chans) + blocks[ch]);
  }

  /** Every channel with a usable value was tried. */
  predicate AllAsked(before: seq<Write>, after: seq<Write>, blocks: map<int, seq<Write>>, chans: seq<int>) {
    before <= after && forall i :: 0 <= i < |chans| && chans[i] in blocks ==> Asked(before, after, chans[i])
  }

  lemma AllAskedOn(a: seq<Write>, b: seq<Write>, c: seq<Write>, blocks: map<int, seq<Write>>, chans: seq<int>, ch: int)
    requires AllAsked(a, b, blocks, chans) && b <= c && (ch in blocks ==> Asked(b, c, ch))
    ensures AllAsked(a, c, blocks, chans + [ch])
  {
    forall x | Asked(a, b, x)
      ensures Asked(a, c, x)
    {
      var i :| |a| <= i < |b| && b[i].ch == x;
      assert c[i] == b[i];
    }
  }

  /** Restores channel by channel; a failure goes on with the next one, so every channel with a usable
    value is tried. */
  method RestoreChannels(w: Writer, channels: map<string, string>, list: seq<int>) returns (ok: bool, panicked: bool)
    requires forall i :: 0 <= i < |list| ==> 1 <= list[i] <= 4
    modifies w.dev
    ensures !panicked
    ensures SafeRestore(old(w.dev.written), w.dev.written)
    ensures ok ==> AllWritten(old(w.dev.written), w.dev.written, StateBlocks(channels), list)
    ensures AllAsked(old(w.dev.asked), w.dev.asked, StateBlocks(channels), list)
  {
    ok, panicked := true, false;
    ghost var start, asked, blocks := w.dev.written, w.dev.asked, StateBlocks(channels);
    for i := 0 to |list|
      invariant !panicked && SafeRestore(start, w.dev.written)
      invariant ok ==> AllWritten(start, w.dev.written, blocks, list[..i])
      invariant AllAsked(asked, w.dev.asked, blocks, list[..i])
    {
      ghost var before, askedBefore := w.dev.written, w.dev.asked;
      var restored, p := RestoreChannel(w, list[i], channels);
      SafeRestoreOn(start, before, w.dev.written);
      if ok && restored {
        AllWrittenOn(start, before, w.dev.written, blocks, list[..i], list[i]);
      }
      assert list[..i+1] == list[..i] + [list[i]];
      AllAskedOn(asked, askedBefore, w.dev.asked, blocks, list[..i], list[i]);
      ok, panicked := ok && restored, panicked || p;
    }
    assert list[..|list|] == list;
  }

  /** The state file's values are written channel by channel. It is complete only when every key
    names a channel and every channel took its value; no content of the file makes it panic, write
    an unsafe value, or set pwm4 to anything but 255. */
  method RestoreFromState(w: Writer, channels: map<string, string>)
    returns (ok: bool, panicked: bool, ghost chans: seq<int>)
    modifies w.dev
    ensures !panicked
    ensures SafeRestore(old(w.dev.written), w.dev.written)
    ensures Sorted(chans) && forall k :: k in channels && ChannelOf(k).Some? ==> ChannelOf(k).value in chans
    ensures ok ==> AllWritten(old(w.dev.written), w.dev.written, StateBlocks(channels), chans)
    ensures ok ==> forall k :: k in channels ==> ChannelOf(k).Some?
    ensures ok ==> StateRestored(old(w.dev.written), w.dev.written, channels)
    ensures forall k :: k in channels && ChannelOf(k).Some? && ChannelOf(k).value in StateBlocks(channels) ==>
              Asked(old(w.dev.asked), w.dev.asked, ChannelOf(k).value)
  {
    var list, valid;
    list, valid := Channels(channels.Keys);
    chans := list;
    assert forall i :: 0 <= i < |list| ==> list[i] in multiset(list);
    assert forall ch :: ch in multiset(list) ==> ch in list;
    ok, panicked := RestoreChannels(w, channels, list);
    if ok {
      CompleteRestores(old(w.dev.written), w.dev.written, channels, list);
    }
    ok := ok && valid;
  }

  method RestoreChannel(w: Writer, ch: int, channels: map<string, string>) returns (restored: bool, panicked: bool)
    requires 1 <= ch <= 4
    modifies w.dev
    ensures !panicked
    ensures SafeRestore(old(w.dev.written), w.dev.written)
    ensures restored ==> ch in StateBlocks(channels) && w.dev.written == old(w.dev.written) + StateBlocks(channels)[ch]
    ensures ch !in StateBlocks(channels) ==> !restored && w.dev.written == old(w.dev.written)
    ensures old(w.dev.asked) <= w.dev.asked
    ensures ch in StateBlocks(channels) ==> Asked(old(w.dev.asked), w.dev.asked, ch)
  {
    var val := PutBackValue(channels, ch);
    PcieGoesTo255(val);
    CheckExact(val);
    if !CheckRestoreValue(val) {
      return false, false;
    }
    var o := w.RestoreTo(ch, val);
    return o == Written, o == Panic;
  }
}
