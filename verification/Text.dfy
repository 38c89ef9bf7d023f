/** Strings as the tool reads and prints them: white space, lines, fields and hexadecimal numbers. */
module Text {
  import opened Wrappers

  /** The white space strings.TrimSpace removes. */
  predicate IsSpace(c: char) {
    c in " \t\n\r" || c == '\U{0b}' || c == '\U{0c}' || c == '\U{85}' || c == '\U{a0}' || c == '\U{1680}'
    || '\U{2000}' <= c <= '\U{200a}' || c == '\U{2028}' || c == '\U{2029}' || c == '\U{202f}' || c == '\U{205f}'
        || c == '\U{3000}'
  }

  function TrimLeft(s: string): string {
    if s != "" && IsSpace(s[0]) then TrimLeft(s[1..]) else s
  }

  function TrimRight(s: string): string {
    if s != "" && IsSpace(s[|s|-1]) then TrimRight(s[..|s|-1]) else s
  }

  function TrimSpace(s: string): string {
    TrimRight(TrimLeft(s))
  }

  /** The position of the first c, or the length. */
  function IndexOf(s: string, c: char): (i: nat)
    ensures i <= |s|
    ensures forall k :: 0 <= k < i ==> s[k] != c
    ensures i < |s| ==> s[i] == c
  {
    if s == "" || s[0] == c then 0 else 1 + IndexOf(s[1..], c)
  }

  predicate HasPrefix(s: string, p: string) {
    |p| <= |s| && s[..|p|] == p
  }

  lemma {:induction false} NothingToTrim(s: string)
    requires s != "" && !IsSpace(s[0]) && !IsSpace(s[|s|-1])
    ensures TrimSpace(s) == s
  {
  }

  lemma {:induction false} IndexAfter(a: string, b: string, c: char)
    requires forall k :: 0 <= k < |a| ==> a[k] != c
    requires b != "" && b[0] == c
    ensures IndexOf(a + b, c) == |a|
  {
    if a == "" {
      assert a + b == b;
    } else {
      assert (a + b)[1..] == a[1..] + b;
      IndexAfter(a[1..], b, c);
    }
  }

  predicate HasSuffix(s: string, p: string) {
    |p| <= |s| && s[|s|-|p|..] == p
  }

  // ---- fields --------------------------------------------------------------------------

  predicate NoSpace(s: string) {
    forall i :: 0 <= i < |s| ==> !IsSpace(s[i])
  }

  predicate Word(s: string) {
    s != "" && NoSpace(s)
  }

  function WordLength(s: string): (n: nat)
    ensures n <= |s| && NoSpace(s[..n]) && (n < |s| ==> IsSpace(s[n]))
    ensures s != "" && !IsSpace(s[0]) ==> n > 0
  {
    if s == "" || IsSpace(s[0]) then 0 else 1 + WordLength(s[1..])
  }

  /** The words of a string. */
  function Fields(s: string): seq<string>
    decreases |s|
  {
    if s == "" then []
    else if IsSpace(s[0]) then Fields(s[1..])
    else [s[..WordLength(s)]] + Fields(s[WordLength(s)..])
  }

  /** Words, each after a blank. */
  function Spaced(words: seq<string>): string {
    if words == [] then "" else " " + words[0] + Spaced(words[1..])
  }

  lemma {:induction false} WordLengthOf(w: string, rest: string)
    requires NoSpace(w) && (rest == "" || IsSpace(rest[0]))
    ensures WordLength(w + rest) == |w|
    decreases |w|
  {
    if w == "" {
      assert w + rest == rest;
    } else {
      assert (w + rest)[1..] == w[1..] + rest;
      WordLengthOf(w[1..], rest);
    }
  }

  lemma FieldsOfWord(w: string, rest: string)
    requires Word(w) && (rest == "" || IsSpace(rest[0]))
    ensures Fields(w + rest) == [w] + Fields(rest)
  {
    WordLengthOf(w, rest);
    assert (w + rest)[..|w|] == w && (w + rest)[|w|..] == rest;
  }

  lemma FieldsAfterBlank(s: string)
    ensures Fields(" " + s) == Fields(s)
  {
  }

  lemma FieldsOfFirst(word: string, words: seq<string>)
    requires Word(word)
    ensures Fields(word + Spaced(words)) == [word] + Fields(Spaced(words))
  {
    FieldsOfWord(word, Spaced(words));
  }

  lemma {:induction false} FieldsOfSpaced(words: seq<string>)
    requires forall i :: 0 <= i < |words| ==> Word(words[i])
    ensures Fields(Spaced(words)) == words
  {
    if words != [] {
      FieldsOfSpaced(words[1..]);
      FieldsOfFirst(words[0], words[1..]);
      FieldsAfterBlank(words[0] + Spaced(words[1..]));
      assert Spaced(words) == " " + (words[0] + Spaced(words[1..]));
    }
  }

  // ---- lines ---------------------------------------------------------------------------

  const NL := '\n'

  /** The pieces between line ends. */
  function Split(s: string): (r: seq<string>)
    ensures r != []
    decreases |s|
  {
    var i := IndexOf(s, NL);
    if i == |s| then [s] else [s[..i]] + Split(s[i+1..])
  }

  function DropCR(s: string): string {
    if s != "" && s[|s|-1] == '\r' then s[..|s|-1] else s
  }

  /** The lines of a text, without their ends; nothing after the last line end is no line. */
  function ScanLines(s: string): seq<string>
    decreases |s|
  {
    var i := IndexOf(s, NL);
    if i == |s| then (if s == "" then [] else [DropCR(s)]) else [DropCR(s[..i])] + ScanLines(s[i+1..])
  }

  predicate Line(l: string) {
    (forall i :: 0 <= i < |l| ==> l[i] != NL) && DropCR(l) == l
  }

  function JoinLines(ls: seq<string>): string {
    if ls == [] then "" else ls[0] + [NL] + JoinLines(ls[1..])
  }

  lemma {:induction false} ScanJoined(ls: seq<string>)
    requires forall i :: 0 <= i < |ls| ==> Line(ls[i])
    ensures ScanLines(JoinLines(ls)) == ls
  {
    if ls != [] {
      var rest := JoinLines(ls[1..]);
      ScanJoined(ls[1..]);
      IndexAfter(ls[0], [NL] + rest, NL);
      assert JoinLines(ls) == ls[0] + ([NL] + rest);
      assert JoinLines(ls)[..|ls[0]|] == ls[0] && JoinLines(ls)[|ls[0]|+1..] == rest;
    }
  }

  lemma {:induction false} JoinOfSum(a: seq<string>, b: seq<string>)
    ensures JoinLines(a + b) == JoinLines(a) + JoinLines(b)
  {
    if a == [] {
      assert a + b == b;
    } else {
      JoinOfSum(a[1..], b);
      assert (a + b)[1..] == a[1..] + b;
    }
  }

  // ---- hexadecimal numbers ---------------------------------------------------------------

  function HexDigit(n: nat): char
    requires n < 16
  {
    if n < 10 then '0' + n as char else 'a' + (n - 10) as char
  }

  function DigitValue(c: char): Option<nat> {
    if '0' <= c <= '9' then Some((c - '0') as nat)
    else if 'a' <= c <= 'f' then Some(10 + (c - 'a') as nat)
    else if 'A' <= c <= 'F' then Some(10 + (c - 'A') as nat)
    else None
  }

  /** n in lower-case hexadecimal digits, at least `width` of them. */
  function Hex(n: nat, width: nat): string
    decreases n, width
  {
    if n < 16 && width <= 1 then [HexDigit(n)]
    else Hex(n / 16, if width == 0 then 0 else width - 1) + [HexDigit(n % 16)]
  }

  function HexValue(s: string): Option<nat> {
    if s == "" then Some(0)
    else
      var high, low := HexValue(s[..|s|-1]), DigitValue(s[|s|-1]);
      if high.None? || low.None? then None else Some(16 * high.value + low.value)
  }

  /** A number of at least one hexadecimal digit, at most `max`. */
  function ParseHex(s: string, max: nat): Option<nat> {
    if s == "" || HexValue(s).None? || HexValue(s).value > max then None else HexValue(s)
  }

  function Power16(w: nat): nat {
    if w == 0 then 1 else 16 * Power16(w - 1)
  }

  predicate HexDigits(s: string) {
    forall i :: 0 <= i < |s| ==> '0' <= s[i] <= '9' || 'a' <= s[i] <= 'f'
  }

  lemma HexValueStep(s: string, d: nat)
    requires d < 16 && HexValue(s).Some?
    ensures HexValue(s + [HexDigit(d)]) == Some(16 * HexValue(s).value + d)
  {
  }

  lemma HexStep(n: nat, width: nat)
    requires width > 1
    ensures Hex(n, width) == Hex(n / 16, width - 1) + [HexDigit(n % 16)]
  {
  }

  /** A number that fits into `width` digits is printed with exactly these, and read back. */
  lemma {:induction false} HexRoundTrip(n: nat, width: nat)
    requires width >= 1 && n < Power16(width)
    ensures |Hex(n, width)| == width && HexDigits(Hex(n, width)) && HexValue(Hex(n, width)) == Some(n)
    decreases width
  {
    if width == 1 {
      assert Power16(1) == 16 * Power16(0);
      HexValueStep("", n);
      assert "" + [HexDigit(n)] == [HexDigit(n)];
    } else {
      HexRoundTrip(n / 16, width - 1);
      HexStep(n, width);
      HexValueStep(Hex(n / 16, width - 1), n % 16);
    }
  }

  /** Lower case, for the characters of a dump. */
  function Lower(c: char): char {
    if 'A' <= c <= 'Z' then c - 'A' + 'a' else c
  }

  function ToLower(s: string): (r: string)
    ensures |r| == |s| && forall i :: 0 <= i < |r| ==> r[i] == Lower(s[i])
  {
    seq(|s|, i requires 0 <= i < |s| => Lower(s[i]))
  }

  lemma HexIsWord(s: string)
    requires HexDigits(s)
    ensures NoSpace(s) && ToLower(s) == s && Line(s)
  {
  }

  /** Bytes as two digits each. */
  function HexBytes(data: seq<nat>): (r: seq<string>)
    ensures |r| == |data| && forall i :: 0 <= i < |r| ==> r[i] == Hex(data[i], 2)
  {
    seq(|data|, i requires 0 <= i < |data| => Hex(data[i], 2))
  }

  lemma BytesAreWords(data: seq<nat>)
    requires forall i :: 0 <= i < |data| ==> data[i] < 256
    ensures forall i :: 0 <= i < |data| ==>
              var w := HexBytes(data)[i]; Word(w) && Line(w) && ToLower(w) == w
  {
    forall i | 0 <= i < |data|
      ensures Word(HexBytes(data)[i]) && Line(HexBytes(data)[i]) && ToLower(HexBytes(data)[i]) == HexBytes(data)[i]
    {
      assert Power16(2) == 256 by {
        assert Power16(1) == 16;
      }
      HexRoundTrip(data[i], 2);
      HexIsWord(Hex(data[i], 2));
    }
  }
}
