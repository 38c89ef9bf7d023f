/** What the tool expects in the cache of the driver (Expectation in
  ectest/internal/regulator/regulator.go): updated before every own write, read again after a
  failed one, compared with the driver to find writes of other programs.

  The driver is the one of module Driver. Reading an attribute may fail at any time. */
module Expectation {
  import opened Wrappers
  import opened EcPorts
  import opened Driver

  /** The expected values; a channel without one is not compared. Channels are 0..3 here. */
  datatype Expected = Expected(pwm: map<int, int>, enable: map<int, int>)

  const NOTHING := Expected(map[], map[])

  /** Every expected value is the one in the driver's cache. */
  predicate Matches(e: Expected, ch: int, c: Cache) {
    && (ch in e.pwm ==> e.pwm[ch] == c.pwm)
    && (ch in e.enable ==> e.enable[ch] == c.enable)
  }

  /** The expectation after an own write was announced. */
  function Announced(e: Expected, ch: int, attr: Attr, v: int): Expected {
    match attr
    case PwmInput => e.(pwm := e.pwm[ch := v])
    case PwmEnable =>
      Expected(if v == 1 && !(ch in e.enable && e.enable[ch] == 1) then e.pwm[ch := 255] else e.pwm, e.enable[ch := v])
    case _ => e
  }

  /** The expectation after the channel was read again; None: the read failed. */
  function Refreshed(e: Expected, ch: int, pwm: Option<int>, enable: Option<int>): Expected {
    Expected(if pwm.Some? then e.pwm[ch := pwm.value] else e.pwm - {ch},
             if enable.Some? then e.enable[ch := enable.value] else e.enable - {ch})
  }

  /** The own write that raises a false alarm: manual mode entered on a channel that is manual
    already with another duty than 255, while the expectation does not know its mode. */
  predicate FalseAlarm(e: Expected, ch: int, attr: Attr, v: int, c: Cache) {
    attr == PwmEnable && v == 1 && ch !in e.enable && c.enable == 1 && c.pwm != 255
  }

  /** A successful own write keeps the expectation exact if and only if it is not that one. */
  lemma OwnWriteExact(e: Expected, ch: int, attr: Attr, v: int, c: Cache)
    requires Matches(e, ch, c) && (attr == PwmInput || attr == PwmEnable)
    requires attr == PwmEnable ==> v == 1 || v == 2
    ensures Matches(Announced(e, ch, attr, v), ch, CacheAfter(c, attr, v)) <==> !FalseAlarm(e, ch, attr, v, c)
  {
  }

  /** ... so it stays exact while the mode of the channel is known, and stays known. */
  lemma KnownModeStaysExact(e: Expected, ch: int, attr: Attr, v: int, c: Cache)
    requires Matches(e, ch, c) && ch in e.enable && (attr == PwmInput || (attr == PwmEnable && (v == 1 || v == 2)))
    ensures Matches(Announced(e, ch, attr, v), ch, CacheAfter(c, attr, v)) && ch in Announced(e, ch, attr, v).enable
  {
  }

  /** The false alarm is real: the driver keeps duty 140 when manual mode is entered again, the
    expectation says 255. */
  lemma FalseAlarmHappens()
    ensures var c := Cache(140, 1);
            Matches(NOTHING, 0, c) && !Matches(Announced(NOTHING, 0, PwmEnable, 1), 0, CacheAfter(c, PwmEnable, 1))
  {
  }

  // ---- the tool -------------------------------------------------------------------------

  /** A difference of one attribute. */
  datatype Hit = Hit(ch: int, attr: Attr, got: int, want: int)

  datatype AnyOwnWrite = OwnWriteTo(ch: nat, attr: Attr, v: int)

  /** A write of the tool: a duty, manual mode or the automatic. */
  type OwnWriteOf = w: AnyOwnWrite | w.ch < CHANNELS
      && (w.attr == PwmInput || (w.attr == PwmEnable && (w.v == 1 || w.v == 2)))
    witness OwnWriteTo(0, PwmEnable, 2)

  class Checker {
    const dev: N5
    var e: Expected
    ghost var silent: set<(int, Attr)>     // the attributes whose last read had no answer

    /** Every expected value is in the driver's cache. */
    ghost predicate Exact()
      requires dev.Arrays()
      reads this, dev.pwm, dev.enable
    {
      forall ch :: 0 <= ch < CHANNELS ==> Matches(e, ch, dev.CacheOf(ch))
    }

    /** Exactly what was answered when it was last read is expected of the channel. */
    ghost predicate Adopted(ch: int)
      reads this
    {
      (ch in e.pwm <==> (ch, PwmInput) !in silent) && (ch in e.enable <==> (ch, PwmEnable) !in silent)
    }

    constructor (dev: N5)
      requires dev.Valid()
      ensures this.dev == dev && Exact()
      ensures forall ch :: 0 <= ch < CHANNELS ==> Adopted(ch)
    {
      this.dev := dev;
      e, silent := NOTHING, {};
      new;
      for ch := 0 to CHANNELS
        invariant Exact()
        invariant forall c :: 0 <= c < ch ==> Adopted(c)
      {
        Refresh(ch);
      }
    }

    /** Reads an attribute from sysfs; None: no answer. */
    method Read(ch: int, attr: Attr) returns (v: Option<int>)
      requires dev.Arrays() && 0 <= ch < CHANNELS
      modifies this`silent
      ensures v.Some? ==> v.value == if attr == PwmEnable then dev.enable[ch] else dev.pwm[ch]
      ensures silent == if v.Some? then old(silent) - {(ch, attr)} else old(silent) + {(ch, attr)}
    {
      var answered: bool := *;
      if !answered {
        silent := silent + {(ch, attr)};
        return None;
      }
      silent := silent - {(ch, attr)};
      return Some(if attr == PwmEnable then dev.enable[ch] else dev.pwm[ch]);
    }

    /** Forgets what was expected of a channel and adopts what can be read now: an answered read is
      expected from now on, an unanswered one is not. */
    method Refresh(ch: int)
      requires dev.Arrays() && 0 <= ch < CHANNELS
      modifies this
      ensures Matches(e, ch, dev.CacheOf(ch)) && Adopted(ch)
      ensures forall c :: c != ch ==> (Adopted(c) <==> old(Adopted(c)))
      ensures forall c :: c != ch ==> (c in e.pwm <==> c in old(e).pwm) && (c in e.enable <==> c in old(e).enable)
      ensures forall c :: c != ch && c in e.pwm ==> e.pwm[c] == old(e).pwm[c]
      ensures forall c :: c != ch && c in e.enable ==> e.enable[c] == old(e).enable[c]
    {
      var p := Read(ch, PwmInput);
      var m := Read(ch, PwmEnable);
      e := Refreshed(e, ch, p, m);
    }

    /** An own write: announced, sent, and read again when it failed. It keeps the expectation
      exact unless it succeeded as the false alarm. */
    method OwnWrite(ch: nat, attr: Attr, v: int) returns (ret: Errno)
      requires dev.Valid() && ch < CHANNELS
      requires attr == PwmInput || (attr == PwmEnable && (v == 1 || v == 2))
      modifies this, dev`synced, dev.ports, dev.pwm, dev.enable, dev.touched, dev.fanMin
      ensures dev.Valid()
      ensures forall c :: c in old(e).enable && (c != ch || ret == Ok) ==> c in e.enable
      ensures ret == Ok ==> e == Announced(old(e), ch, attr, v)
      ensures ret != Ok ==> Adopted(ch)
      ensures old(Exact()) ==> (Exact() <==> !(ret == Ok && FalseAlarm(old(e), ch, attr, v, old(dev.CacheOf(ch)))))
      ensures old(Exact()) && ch in old(e).enable ==> Exact() && (ret == Ok ==> ch in e.enable)
    {
      ghost var exact, e0, c0 := Exact(), e, dev.CacheOf(ch);
      e := Announced(e, ch, attr, v);
      ret := dev.Write(attr, ch, v);
      if ret != Ok {
        Refresh(ch);
      } else if exact {
        OwnWriteExact(e0, ch, attr, v, c0);
        if ch in e0.enable {
          KnownModeStaysExact(e0, ch, attr, v, c0);
        }
      }
    }

    /** Any number of own writes, each of which may fail. While the mode of the written channel is
      known before every one of them, which only a failed write followed by a failed read can end,
      the expectation stays exact, and so `Diff` stays empty. */
    method OwnWrites(writes: seq<OwnWriteOf>) returns (ghost known: bool, failed: bool)
      requires dev.Valid() && Exact()
      modifies this, dev`synced, dev.ports, dev.pwm, dev.enable, dev.touched, dev.fanMin
      ensures dev.Valid()
      ensures known ==> Exact()
      ensures !failed && (forall c :: 0 <= c < CHANNELS ==> c in old(e).enable) ==>
                known && forall c :: 0 <= c < CHANNELS ==> c in e.enable
    {
      known, failed := true, false;
      for k := 0 to |writes|
        invariant dev.Valid()
        invariant known ==> Exact()
        invariant !failed && (forall c :: 0 <= c < CHANNELS ==> c in old(e).enable) ==>
                    known && forall c :: 0 <= c < CHANNELS ==> c in e.enable
      {
        var w := writes[k];
        known := known && w.ch in e.enable;
        var ret := OwnWrite(w.ch, w.attr, w.v);
        failed := failed || ret != Ok;
      }
    }

    /** Whether the driver shows another value of an attribute than the expected one. */
    predicate Off(ch: int, attr: Attr)
      requires dev.Arrays() && 0 <= ch < CHANNELS
      reads this, dev, dev.pwm, dev.enable
    {
      || (attr == PwmEnable && ch in e.enable && e.enable[ch] != dev.enable[ch])
      || (attr == PwmInput && ch in e.pwm && e.pwm[ch] != dev.pwm[ch])
    }

    /** The difference of an attribute. */
    function HitOf(ch: int, attr: Attr): Hit
      requires dev.Arrays() && 0 <= ch < CHANNELS && Off(ch, attr)
      reads this, dev, dev.pwm, dev.enable
    {
      if attr == PwmEnable then Hit(ch, attr, dev.enable[ch], e.enable[ch]) else Hit(ch, attr, dev.pwm[ch], e.pwm[ch])
    }

    /** Compares every expected value with the driver: reports every difference whose read is answered,
      with the value found and the one expected, and nothing else. */
    method Diff() returns (hits: seq<Hit>)
      requires dev.Arrays()
      modifies this`silent
      ensures forall ch, attr :: 0 <= ch < CHANNELS && Off(ch, attr) && (ch, attr) !in silent ==>
              HitOf(ch, attr) in hits
      ensures forall h :: h in hits ==> 0 <= h.ch < CHANNELS && Off(h.ch, h.attr) && h == HitOf(h.ch, h.attr)
      ensures Exact() ==> hits == []
    {
      hits := [];
      for ch := 0 to CHANNELS
        invariant forall c, attr :: 0 <= c < ch && Off(c, attr) && (c, attr) !in silent ==> HitOf(c, attr) in hits
        invariant forall h :: h in hits ==> 0 <= h.ch < CHANNELS && Off(h.ch, h.attr) && h == HitOf(h.ch, h.attr)
      {
        var h := DiffChannel(ch);
        hits := hits + h;
      }
      if hits != [] {
        assert hits[0] in hits;
        assert !Matches(e, hits[0].ch, dev.CacheOf(hits[0].ch));
      }
    }

    /** One channel. */
    method DiffChannel(ch: int) returns (hits: seq<Hit>)
      requires dev.Arrays() && 0 <= ch < CHANNELS
      modifies this`silent
      ensures forall c, attr :: c != ch ==> ((c, attr) in silent <==> (c, attr) in old(silent))
      ensures forall attr :: Off(ch, attr) && (ch, attr) !in silent ==> HitOf(ch, attr) in hits
      ensures forall h :: h in hits ==> h.ch == ch && Off(ch, h.attr) && h == HitOf(ch, h.attr)
    {
      hits := [];
      if ch in e.enable {
        var got := Read(ch, PwmEnable);
        if got.Some? && got.value != e.enable[ch] {
          hits := hits + [Hit(ch, PwmEnable, got.value, e.enable[ch])];
        }
      }
      if ch in e.pwm {
        var got := Read(ch, PwmInput);
        if got.Some? && got.value != e.pwm[ch] {
          hits := hits + [Hit(ch, PwmInput, got.value, e.pwm[ch])];
        }
      }
    }
  }

  /** The tool starts, another program writes to a channel, the tool compares. Each value of the channel
    that the write changed is reported, if it was answered at the start and is answered now. */
  method ForeignWrite(dev: N5, attr: Attr, ch: nat, v: int)
    returns (hits: seq<Hit>, ghost start: Checker, ghost first: set<(int, Attr)>)
    requires dev.Valid() && ch < CHANNELS
    modifies dev`synced, dev.ports, dev.pwm, dev.enable, dev.touched, dev.fanMin
    ensures dev.Valid() && fresh(start)
    ensures (ch, PwmInput) !in first + start.silent && dev.pwm[ch] != old(dev.pwm[ch]) ==>
              Hit(ch, PwmInput, dev.pwm[ch], old(dev.pwm[ch])) in hits
    ensures (ch, PwmEnable) !in first + start.silent && dev.enable[ch] != old(dev.enable[ch]) ==>
              Hit(ch, PwmEnable, dev.enable[ch], old(dev.enable[ch])) in hits
    ensures dev.CacheOf(ch) == old(dev.CacheOf(ch)) ==> forall h :: h in hits ==> h.ch != ch
  {
    var c := new Checker(dev);
    start, first := c, c.silent;
    assert c.Adopted(ch) && Matches(c.e, ch, dev.CacheOf(ch));
    var ret := dev.Write(attr, ch, v);
    hits := c.Diff();
    assert c.Off(ch, PwmInput) && (ch, PwmInput) !in c.silent ==> c.HitOf(ch, PwmInput) in hits;
    assert c.Off(ch, PwmEnable) && (ch, PwmEnable) !in c.silent ==> c.HitOf(ch, PwmEnable) in hits;
  }

  /** A write of another program that changes a cached value of a channel both of whose values are
    expected is a difference; one that changes neither is none. */
  lemma ForeignWriteShows(e: Expected, ch: int, before: Cache, after: Cache)
    requires Matches(e, ch, before) && ch in e.pwm && ch in e.enable
    ensures Matches(e, ch, after) <==> after == before
  {
  }
}
