/** Where the restore values of a run come from: the --restore arguments, the configuration of
  n5-fangov, or the defaults (ectest/internal/runner/restorevals.go). The configuration is taken
  after it was decoded. */
module RestoreValues {
  import opened Wrappers
  import opened Decimal
  import opened Text
  import opened SpecRules
  import opened PwmWriter

  /** A value in the form in which it is kept: "auto", or a duty from 100 to 255 as printed. */
  predicate Canonical(v: string) {
    v == AUTO || exists d :: MIN_DUTY <= d <= MAX_DUTY && v == Itoa(d)
  }

  lemma CanonicalIsTarget(v: string)
    requires Canonical(v)
    ensures TargetOf(v).Some? && CheckRestoreValue(v)
  {
    if v != AUTO {
      var d :| MIN_DUTY <= d <= MAX_DUTY && v == Itoa(d);
      AtoiItoa(d);
    }
  }

  // ---- --restore pwmN=V ---------------------------------------------------------------

  const PWM := "pwm"

  /** The channel and value of a --restore argument. */
  function ParseRestoreArg(arg: string): Option<(int, string)> {
    var s := TrimSpace(arg);
    var i := IndexOf(s, '=');
    if i == |s| then None
    else
      var k, v := s[..i], s[i+1..];
      if !HasPrefix(k, PWM) || ChannelOf(k[|PWM|..]).None? then None else ParseValue(ChannelOf(k[|PWM|..]).value, v)
  }

  /** The value part, for a channel. */
  function ParseValue(ch: int, v: string): Option<(int, string)> {
    if ch == PCIE_CHANNEL && v != PCIE_RESTORE then None
    else if v == AUTO then Some((ch, v))
    else
      var d := Atoi(v);
      if d.None? || d.value > 255 || d.value < MIN_DUTY then None else Some((ch, Itoa(d.value)))
  }

  lemma Itoa255()
    ensures Itoa(255) == PCIE_RESTORE
  {
  }

  /** Only safe values come out, in their printed form; pwm4 only with 255. */
  lemma ParsedIsSafe(arg: string)
    ensures var r := ParseRestoreArg(arg);
            r.Some? ==>
              && 1 <= r.value.0 <= 4 && Canonical(r.value.1)
              && (r.value.0 == PCIE_CHANNEL ==> r.value.1 == PCIE_RESTORE)
  {
    Itoa255();
    AtoiItoa(255);
    var r := ParseRestoreArg(arg);
    if r.Some? && r.value.1 != AUTO {
      var s := TrimSpace(arg);
      var d := Atoi(s[IndexOf(s, '=') + 1..]);
      assert MIN_DUTY <= d.value <= MAX_DUTY && r.value.1 == Itoa(d.value);
    }
  }

  /** The argument of a channel and a value. */
  function RestoreArg(ch: int, v: string): string {
    PWM + Itoa(ch) + "=" + v
  }

  lemma DigitsOfChannel(ch: int)
    requires 1 <= ch <= 4
    ensures Itoa(ch) == [Digit(ch)] && IsDigit(Digit(ch)) && Atoi(Itoa(ch)) == Some(ch)
  {
    AtoiItoa(ch);
  }

  lemma CanonicalEnds(v: string)
    requires Canonical(v)
    ensures v != "" && !IsSpace(v[|v|-1])
  {
  }

  // ---- the configuration of n5-fangov ----------------------------------------------------

  datatype Channel = Channel(pwm: int, stop: string)

  datatype FangovConfig = Missing | Unreadable | Undecodable | Decoded(channels: seq<Channel>)

  const BUILTIN: map<int, string> := map[1 := AUTO, 2 := AUTO, 3 := "140", 4 := AUTO]

  /** The stop value of one entry: empty means auto, and pwm3 never stops on auto. */
  function StopOf(c: Channel): string {
    var stop := TrimSpace(c.stop);
    var named := if stop == "" then AUTO else stop;
    if c.pwm == 3 && named == AUTO then BUILTIN[3] else named
  }

  /** The stop value of a channel: its last entry, else the built-in one. */
  function Stop(channels: seq<Channel>, ch: int): string
    requires ch in BUILTIN
  {
    if channels == [] then BUILTIN[ch]
    else
      var last := channels[|channels|-1];
      if last.pwm == ch then StopOf(last) else Stop(channels[..|channels|-1], ch)
  }

  method ReadConfig(cfg: FangovConfig) returns (stops: map<int, string>)
    requires !cfg.Missing?
    ensures stops.Keys == BUILTIN.Keys
    ensures forall ch :: ch in BUILTIN ==> stops[ch] == if cfg.Decoded? then Stop(cfg.channels, ch) else BUILTIN[ch]
  {
    stops := BUILTIN;
    if !cfg.Decoded? {
      return;
    }
    for i := 0 to |cfg.channels|
      invariant stops.Keys == BUILTIN.Keys
      invariant forall ch :: ch in BUILTIN ==> stops[ch] == Stop(cfg.channels[..i], ch)
    {
      assert cfg.channels[..i+1][..i] == cfg.channels[..i];
      var c := cfg.channels[i];
      if 1 <= c.pwm <= 4 {
        stops := stops[c.pwm := StopOf(c)];
      }
    }
    assert cfg.channels[..|cfg.channels|] == cfg.channels;
  }

  // ---- the restore value of a channel -------------------------------------------------------

  /** A value as it is used: neither auto nor a duty becomes auto, a duty below 100 becomes 100. */
  function Sanitized(v: string): string {
    if v == AUTO then v
    else
      var d := Atoi(v);
      if d.None? || d.value > 255 then AUTO
      else if d.value < MIN_DUTY then Itoa(MIN_DUTY)
      else Itoa(d.value)
  }

  /** Where the value of a channel comes from: the argument, 255 for pwm4, the configuration, or
    the default. */
  function Chosen(args: map<int, string>, cfg: FangovConfig, ch: int): string
    requires 1 <= ch <= 4
  {
    if ch in args && args[ch] != "" then args[ch]
    else if ch == PCIE_CHANNEL then PCIE_RESTORE
    else if cfg.Missing? then AUTO
    else if cfg.Decoded? then Stop(cfg.channels, ch)
    else BUILTIN[ch]
  }

  /** A fixed stop duty of pwm4 that is not used is reported. */
  function Deviates(args: map<int, string>, cfg: FangovConfig): bool {
    && !(PCIE_CHANNEL in args && args[PCIE_CHANNEL] != "")
    && cfg.Decoded? && Stop(cfg.channels, PCIE_CHANNEL) != PCIE_RESTORE && Stop(cfg.channels, PCIE_CHANNEL) != AUTO
  }

  method ResolveRestore(args: map<int, string>, cfg: FangovConfig, chans: seq<int>)
    returns (values: map<int, string>, deviates: bool)
    requires forall i :: 0 <= i < |chans| ==> 1 <= chans[i] <= 4
    ensures forall ch :: ch in values <==> ch in chans
    ensures forall ch :: ch in values && 1 <= ch <= 4 ==> values[ch] == Sanitized(Chosen(args, cfg, ch))
    ensures deviates <==> PCIE_CHANNEL in chans && Deviates(args, cfg)
  {
    values, deviates := map[], false;
    var stops := map[];
    if !cfg.Missing? {
      stops := ReadConfig(cfg);
    }
    for i := 0 to |chans|
      invariant forall ch :: ch in values <==> ch in chans[..i]
      invariant forall ch :: ch in values && 1 <= ch <= 4 ==> values[ch] == Sanitized(Chosen(args, cfg, ch))
      invariant deviates <==> PCIE_CHANNEL in chans[..i] && Deviates(args, cfg)
    {
      var ch := chans[i];
      var v;
      if ch in args && args[ch] != "" {
        v := args[ch];
      } else if !cfg.Missing? && ch == PCIE_CHANNEL {
        v := PCIE_RESTORE;
        if stops[ch] != PCIE_RESTORE && stops[ch] != AUTO {
          deviates := true;
        }
      } else if !cfg.Missing? {
        v := stops[ch];
      } else {
        v := if ch == PCIE_CHANNEL then PCIE_RESTORE else AUTO;
      }
      values := values[ch := Sanitized(v)];
      assert chans[..i+1] == chans[..i] + [ch];
    }
    assert chans[..|chans|] == chans;
  }

  /** Whatever the configuration says, a resolved value is auto or a duty from 100 to 255; and
    with arguments that were parsed, pwm4 always resolves to 255. */
  lemma ResolvedIsSafe(args: map<int, string>, cfg: FangovConfig, ch: int)
    requires 1 <= ch <= 4
    ensures Canonical(Sanitized(Chosen(args, cfg, ch)))
    ensures TargetOf(Sanitized(Chosen(args, cfg, ch))).Some?
    ensures ch == PCIE_CHANNEL
            && (ch in args && args[ch] != "" ==> exists arg :: ParseRestoreArg(arg) == Some((ch, args[ch])))
            ==> Sanitized(Chosen(args, cfg, ch)) == PCIE_RESTORE
  {
    var v := Chosen(args, cfg, ch);
    Itoa255();
    AtoiItoa(255);
    if Sanitized(v) != AUTO {
      var d := Atoi(v).value;
      var e := if d < MIN_DUTY then MIN_DUTY else d;
      assert MIN_DUTY <= e <= MAX_DUTY && Sanitized(v) == Itoa(e);
    }
    CanonicalIsTarget(Sanitized(v));
    if ch == PCIE_CHANNEL && ch in args && args[ch] != "" {
      if arg :| ParseRestoreArg(arg) == Some((ch, args[ch])) {
        ParsedIsSafe(arg);
      }
    }
  }

  // ---- the same, without the order of the code ----------------------------------------------------

  /** The text v stands for the value r of channel ch: 255 for pwm4, else "auto" or a number from 100 to
    255, which is kept as printed. */
  predicate Means(v: string, ch: int, r: string) {
    && (ch == 4 ==> v == "255")
    && if v == "auto" then r == "auto" else Atoi(v).Some? && 100 <= Atoi(v).value <= 255 && r == Itoa(Atoi(v).value)
  }

  /** The text is "pwm", the number of a channel, "=" and a value. */
  predicate Asks(s: string, num: string, v: string, ch: int, r: string) {
    && s == "pwm" + num + "=" + v && (forall i :: 0 <= i < |num| ==> num[i] != '=')
    && Atoi(num) == Some(ch) && 1 <= ch <= 4 && Means(v, ch, r)
  }

  lemma ValueExact(ch: int, v: string, c: int, r: string)
    ensures ParseValue(ch, v) == Some((c, r)) <==> c == ch && Means(v, ch, r)
  {
  }

  lemma TextParts(s: string, num: string, v: string)
    requires s == "pwm" + num + "=" + v && forall i :: 0 <= i < |num| ==> num[i] != '='
    ensures var i := IndexOf(s, '=');
            i < |s| && s[i+1..] == v && HasPrefix(s[..i], PWM) && s[..i][|PWM|..] == num
  {
    var k := PWM + num;
    assert s == k + ("=" + v);
    IndexAfter(k, "=" + v, '=');
    assert s[..|k|] == k && s[|k|+1..] == v;
  }

  lemma AsksIsAccepted(arg: string, num: string, v: string, ch: int, r: string)
    requires Asks(TrimSpace(arg), num, v, ch, r)
    ensures ParseRestoreArg(arg) == Some((ch, r))
  {
    TextParts(TrimSpace(arg), num, v);
    ValueExact(ch, v, ch, r);
  }

  lemma AcceptedAsks(arg: string, ch: int, r: string) returns (num: string, v: string)
    requires ParseRestoreArg(arg) == Some((ch, r))
    ensures Asks(TrimSpace(arg), num, v, ch, r)
  {
    var s := TrimSpace(arg);
    var i := IndexOf(s, '=');
    num, v := s[..i][|PWM|..], s[i+1..];
    assert s[..i] == PWM + num;
    assert s == s[..i] + "=" + v;
    ValueExact(ChannelOf(num).value, v, ch, r);
  }

  lemma CanonicalMeans(ch: int, v: string)
    requires Canonical(v) && (ch == PCIE_CHANNEL ==> v == PCIE_RESTORE)
    ensures Means(v, ch, v)
  {
    if v != AUTO {
      var d :| MIN_DUTY <= d <= MAX_DUTY && v == Itoa(d);
      AtoiItoa(d);
    }
  }

  /** Every safe restore can be asked for: printing a channel and a value and parsing the argument
    gives them back. */
  lemma ParsePrinted(ch: int, v: string)
    requires 1 <= ch <= 4 && Canonical(v) && (ch == PCIE_CHANNEL ==> v == PCIE_RESTORE)
    ensures ParseRestoreArg(RestoreArg(ch, v)) == Some((ch, v))
  {
    DigitsOfChannel(ch);
    CanonicalEnds(v);
    NothingToTrim(RestoreArg(ch, v));
    CanonicalMeans(ch, v);
    AsksIsAccepted(RestoreArg(ch, v), Itoa(ch), v, ch, v);
  }

  /** An argument is accepted if and only if its text is one of these. */
  lemma ParseExact(arg: string, ch: int, r: string)
    ensures ParseRestoreArg(arg) == Some((ch, r)) <==> exists num, v :: Asks(TrimSpace(arg), num, v, ch, r)
  {
    if ParseRestoreArg(arg) == Some((ch, r)) {
      var num, v := AcceptedAsks(arg, ch, r);
    }
    if num, v :| Asks(TrimSpace(arg), num, v, ch, r) {
      AsksIsAccepted(arg, num, v, ch, r);
    }
  }

  /** How a value is used: neither auto nor a number up to 255 is auto, a number below 100 is 100. */
  predicate UsedAs(v: string, r: string) {
    && (v == "auto" || Atoi(v).None? || Atoi(v).value > 255 ==> r == "auto")
    && (v != "auto" && Atoi(v).Some? && Atoi(v).value < 100 ==> r == "100")
    && (v != "auto" && Atoi(v).Some? && 100 <= Atoi(v).value <= 255 ==> r == Itoa(Atoi(v).value))
  }

  /** The last entry of the configuration for a channel. */
  predicate LastEntry(channels: seq<Channel>, ch: int, i: int) {
    0 <= i < |channels| && channels[i].pwm == ch && forall j :: i < j < |channels| ==> channels[j].pwm != ch
  }

  /** The stop value without a usable entry: pwm3 stops on 140, the others are automatic. */
  function DefaultStop(ch: int): string {
    if ch == 3 then "140" else "auto"
  }

  /** No entry names the channel. */
  predicate Unnamed(channels: seq<Channel>, ch: int) {
    forall i :: 0 <= i < |channels| ==> channels[i].pwm != ch
  }

  /** The stop value of an entry. */
  function StopText(c: Channel, ch: int): string {
    var s := TrimSpace(c.stop);
    if s == "" || s == "auto" then DefaultStop(ch) else s
  }

  lemma {:induction false} UnnamedStop(channels: seq<Channel>, ch: int)
    requires 1 <= ch <= 4 && Unnamed(channels, ch)
    ensures Stop(channels, ch) == DefaultStop(ch)
  {
    if channels != [] {
      UnnamedStop(channels[..|channels|-1], ch);
    }
  }

  lemma {:induction false} LastStop(channels: seq<Channel>, ch: int, i: int)
    requires 1 <= ch <= 4 && LastEntry(channels, ch, i)
    ensures Stop(channels, ch) == StopText(channels[i], ch)
  {
    if i < |channels| - 1 {
      LastStop(channels[..|channels|-1], ch, i);
    }
  }

  lemma UsedExact(v: string)
    ensures UsedAs(v, Sanitized(v))
  {
    assert Itoa(100) == "100" by {
      assert Digits(1) == "1" && Digits(10) == "10" && Digits(100) == "100";
    }
  }

  /** The value of a channel: the argument when there is one; else 255 for pwm4; else the last stop entry of
    the configuration for the channel; else, without one, 140 for pwm3 and auto for the rest; and auto when
    there is no configuration. */
  lemma ResolvedExact(args: map<int, string>, cfg: FangovConfig, ch: int)
    requires 1 <= ch <= 4
    ensures var r, asked := Sanitized(Chosen(args, cfg, ch)), ch in args && args[ch] != "";
            && (asked ==> UsedAs(args[ch], r))
            && (!asked && ch == 4 ==> r == "255")
            && (!asked && ch != 4 && cfg.Missing? ==> r == "auto")
            && (!asked && ch != 4 && (cfg.Unreadable? || cfg.Undecodable?) ==> r == DefaultStop(ch))
            && (!asked && ch != 4 && cfg.Decoded? ==>
                  && (Unnamed(cfg.channels, ch) ==> r == DefaultStop(ch))
                  && forall i :: LastEntry(cfg.channels, ch, i) ==> UsedAs(StopText(cfg.channels[i], ch), r))
  {
    UsedExact(Chosen(args, cfg, ch));
    DefaultsStay();
    if cfg.Decoded? {
      if Unnamed(cfg.channels, ch) {
        UnnamedStop(cfg.channels, ch);
      }
      forall i | LastEntry(cfg.channels, ch, i)
        ensures Stop(cfg.channels, ch) == StopText(cfg.channels[i], ch)
      {
        LastStop(cfg.channels, ch, i);
      }
    }
  }

  lemma DefaultsStay()
    ensures Sanitized("140") == "140" && Sanitized("255") == "255"
  {
    AtoiItoa(140);
    AtoiItoa(255);
    assert Itoa(140) == "140" by {
      assert Digits(1) == "1" && Digits(14) == "14" && Digits(140) == "140";
    }
    assert Itoa(255) == "255" by {
      assert Digits(2) == "2" && Digits(25) == "25" && Digits(255) == "255";
    }
  }
}
