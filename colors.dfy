/**
 * The colour-string helpers of app.js: expanding a three-digit hex colour (app.js:80-85)
 * and turning a `rgb(r, g, b)` string into upper-case hex (app.js:88-100).
 */
module Colors {
  import opened Wrappers

  predicate IsHexDigit(c: char)
  {
    '0' <= c <= '9' || 'a' <= c <= 'f' || 'A' <= c <= 'F'
  }

  /** The whole string is `#` and three hex digits. */
  predicate IsShortHex(s: string)
  {
    |s| == 4 && s[0] == '#' && IsHexDigit(s[1]) && IsHexDigit(s[2]) && IsHexDigit(s[3])
  }

  /** normalizeHex: a three-digit colour has each digit doubled; anything else is returned as it is. */
  function NormalizeHex(hex: string): (r: string)
    ensures IsShortHex(hex) ==>
      |r| == 7 && r[0] == '#' && r[1] == r[2] == hex[1] && r[3] == r[4] == hex[2] && r[5] == r[6] == hex[3]
    ensures !IsShortHex(hex) ==> r == hex
  {
    if IsShortHex(hex) then ['#', hex[1], hex[1], hex[2], hex[2], hex[3], hex[3]] else hex
  }

  /** The inverse on doubled colours: keep one digit of each pair. */
  function ShortForm(long: string): string
    requires |long| == 7
  {
    ['#', long[1], long[3], long[5]]
  }

  /** Expanding and shortening give back the three-digit colour. */
  lemma ShortFormOfNormalized(hex: string)
    requires IsShortHex(hex)
    ensures ShortForm(NormalizeHex(hex)) == hex
  {
    var r := NormalizeHex(hex);
    assert ShortForm(r) == ['#', hex[1], hex[2], hex[3]];
  }

  /** Normalising twice is normalising once. */
  lemma NormalizeHexIdempotent(hex: string)
    ensures NormalizeHex(NormalizeHex(hex)) == NormalizeHex(hex)
  {
  }

  // ---------------------------------------------------------------- rgbToHex

  predicate IsDigit(c: char) { '0' <= c <= '9' }

  /** The longest prefix of decimal digits. */
  function LeadingDigits(s: string): (d: string)
    ensures |d| <= |s| && d == s[..|d|]
    ensures forall i :: 0 <= i < |d| ==> IsDigit(d[i])
    ensures |d| < |s| ==> !IsDigit(s[|d|])
  {
    if s == [] || !IsDigit(s[0]) then []
    else [s[0]] + LeadingDigits(s[1..])
  }

  /** The matches of `/\d+/g`: the maximal runs of decimal digits, left to right. */
  function DigitRuns(s: string): (runs: seq<string>)
    ensures forall k :: 0 <= k < |runs| ==> |runs[k]| > 0 && forall i :: 0 <= i < |runs[k]| ==> IsDigit(runs[k][i])
    ensures runs == [] <==> forall i :: 0 <= i < |s| ==> !IsDigit(s[i])
    decreases |s|
  {
    if s == [] then []
    else if IsDigit(s[0]) then
      var d := LeadingDigits(s);
      var rest := DigitRuns(s[|d|..]);
      [d] + rest
    else
      var rest := DigitRuns(s[1..]);
      assert forall i :: 1 <= i < |s| ==> s[i] == s[1..][i - 1];
      rest
  }

  /** A string of digits is its own leading run. */
  lemma {:induction false} LeadingDigitsOfDigits(d: string)
    requires forall i :: 0 <= i < |d| ==> IsDigit(d[i])
    ensures LeadingDigits(d) == d
    decreases |d|
  {
    if d != [] {
      LeadingDigitsOfDigits(d[1..]);
      assert [d[0]] + d[1..] == d;
    }
  }

  /** A non-digit after `a` stops the leading run no later than the end of `a`. */
  lemma {:induction false} LeadingDigitsAppend(a: string, t: string)
    requires t != [] && !IsDigit(t[0])
    ensures LeadingDigits(a + t) == LeadingDigits(a)
    decreases |a|
  {
    if a != [] && IsDigit(a[0]) {
      assert (a + t)[1..] == a[1..] + t;
      LeadingDigitsAppend(a[1..], t);
    }
  }

  /** A non-empty string of digits is a single match. */
  lemma DigitRunsOfDigits(d: string)
    requires d != [] && forall i :: 0 <= i < |d| ==> IsDigit(d[i])
    ensures DigitRuns(d) == [d]
  {
    LeadingDigitsOfDigits(d);
    assert d[|d|..] == [];
  }

  /** A non-digit separates the matches: those before it and those after it, in order. */
  lemma {:induction false} DigitRunsSplit(a: string, c: char, b: string)
    requires !IsDigit(c)
    ensures DigitRuns(a + [c] + b) == DigitRuns(a) + DigitRuns(b)
    decreases |a|
  {
    var t := [c] + b;
    assert a + [c] + b == a + t;
    if a == [] {
      assert (a + t)[1..] == b;
    } else if !IsDigit(a[0]) {
      assert (a + t)[1..] == a[1..] + [c] + b;
      DigitRunsSplit(a[1..], c, b);
    } else {
      var d := LeadingDigits(a);
      DigitRunsOfDigitHead(a, t);
      assert a[|d|..] + t == a[|d|..] + [c] + b;
      DigitRunsSplit(a[|d|..], c, b);
    }
  }

  /** When `a` starts with a digit and `t` with a non-digit, `a`'s leading run is the first match of both. */
  lemma DigitRunsOfDigitHead(a: string, t: string)
    requires a != [] && IsDigit(a[0]) && t != [] && !IsDigit(t[0])
    ensures var d := LeadingDigits(a);
      DigitRuns(a + t) == [d] + DigitRuns(a[|d|..] + t) && DigitRuns(a) == [d] + DigitRuns(a[|d|..])
  {
    var d := LeadingDigits(a);
    LeadingDigitsAppend(a, t);
    assert (a + t)[|d|..] == a[|d|..] + t;
  }

  /** Number() of a run of decimal digits. */
  function DecimalValue(d: string): nat
    decreases |d|
  {
    if d == [] then 0
    else DecimalValue(d[..|d| - 1]) * 10 + (if IsDigit(d[|d| - 1]) then (d[|d| - 1] - '0') as nat else 0)
  }

  function HexChar(n: nat): char
    requires n < 16
  {
    if n < 10 then ('0' as int + n) as char else ('A' as int + n - 10) as char
  }

  function HexCharValue(c: char): nat
  {
    if '0' <= c <= '9' then (c - '0') as nat
    else if 'A' <= c <= 'F' then (c - 'A') as nat + 10
    else if 'a' <= c <= 'f' then (c - 'a') as nat + 10
    else 0
  }

  /** toString(16) followed by toUpperCase: the base-16 digits of `n`, most significant first. */
  function Hex(n: nat): (h: string)
    ensures |h| > 0
    ensures forall i :: 0 <= i < |h| ==> '0' <= h[i] <= '9' || 'A' <= h[i] <= 'F'
    decreases n
  {
    if n < 16 then [HexChar(n)] else Hex(n / 16) + [HexChar(n % 16)]
  }

  /** The value of a string of hex digits. */
  function HexValue(h: string): nat
    decreases |h|
  {
    if h == [] then 0 else HexValue(h[..|h| - 1]) * 16 + HexCharValue(h[|h| - 1])
  }

  /** Reading the digits back gives the number. */
  lemma {:induction false} HexRoundTrip(n: nat)
    ensures HexValue(Hex(n)) == n
    decreases n
  {
    if n >= 16 {
      HexRoundTrip(n / 16);
      var h := Hex(n);
      assert h[..|h| - 1] == Hex(n / 16);
    }
  }

  /** padStart(2, "0"). */
  function PadStart2(s: string): (p: string)
    ensures |p| == if |s| >= 2 then |s| else 2
  {
    if |s| >= 2 then s else seq(2 - |s|, _ => '0') + s
  }

  lemma PadKeepsValue(s: string)
    ensures HexValue(PadStart2(s)) == HexValue(s)
  {
    if |s| == 1 {
      assert PadStart2(s)[..1] == "0";
      assert PadStart2(s)[..1][..0] == [];
    } else if |s| == 0 {
      assert PadStart2(s)[..1] == "0";
      assert PadStart2(s)[..1][..0] == [];
    }
  }

  /** A channel value below 256 becomes exactly two digits that read back as the value. */
  lemma ByteIsTwoDigits(n: nat)
    requires n < 256
    ensures |PadStart2(Hex(n))| == 2 && HexValue(PadStart2(Hex(n))) == n
  {
    HexRoundTrip(n);
    PadKeepsValue(Hex(n));
  }

  /** The joined two-digit (or wider) hex forms of the runs' values. */
  function JoinHex(runs: seq<string>): string
    decreases |runs|
  {
    if runs == [] then "" else JoinHex(runs[..|runs| - 1]) + PadStart2(Hex(DecimalValue(runs[|runs| - 1])))
  }

  /**
   * rgbToHex: an absent or empty string is black, a string starting with `#` is returned
   * as it is, a string without digits makes `match` return null and the call fail (None),
   * and otherwise each digit run becomes its hex value padded to two digits, in upper case.
   */
  function RgbToHex(rgb: Option<string>): (r: Option<string>)
    ensures rgb.None? || rgb == Some("") ==> r == Some("#000000")
    ensures rgb.Some? && |rgb.value| > 0 && rgb.value[0] == '#' ==> r == rgb
    ensures r.None? <==> rgb.Some? && |rgb.value| > 0 && rgb.value[0] != '#' && DigitRuns(rgb.value) == []
  {
    if rgb.None? || rgb.value == "" then Some("#000000")
    else if rgb.value[0] == '#' then rgb
    else
      var runs := DigitRuns(rgb.value);
      if runs == [] then None else Some("#" + JoinHex(runs))
  }

  /** The `k`-th two-character group of `j`. */
  function Pair(j: string, k: nat): string
    requires 2 * k + 2 <= |j|
  {
    j[2 * k .. 2 * k + 2]
  }

  lemma PairsOfAppend(front: string, last: string, k: nat)
    requires |front| % 2 == 0 && |last| == 2 && 2 * k + 2 <= |front| + 2
    ensures 2 * k + 2 <= |front| ==> Pair(front + last, k) == Pair(front, k)
    ensures 2 * k == |front| ==> Pair(front + last, k) == last
  {
  }

  /** Every run of `runs` reads as a value below 256. */
  predicate AllBytes(runs: seq<string>)
  {
    forall k :: 0 <= k < |runs| ==> DecimalValue(runs[k]) < 256
  }

  lemma AllBytesPrefix(runs: seq<string>, n: nat)
    requires AllBytes(runs) && n <= |runs|
    ensures AllBytes(runs[..n])
  {
    forall k | 0 <= k < n ensures DecimalValue(runs[..n][k]) < 256 {
      assert runs[..n][k] == runs[k];
    }
  }

  /** With every run below 256, the join has two digits per run. */
  lemma {:induction false} JoinHexLength(runs: seq<string>)
    requires AllBytes(runs)
    ensures |JoinHex(runs)| == 2 * |runs|
    decreases |runs|
  {
    if runs != [] {
      var n := |runs| - 1;
      AllBytesPrefix(runs, n);
      JoinHexLength(runs[..n]);
      ByteIsTwoDigits(DecimalValue(runs[n]));
    }
  }

  /** With every run below 256, pair `k` of the join reads back as run `k`'s value. */
  lemma {:induction false} JoinHexPair(runs: seq<string>, k: nat)
    requires AllBytes(runs) && k < |runs|
    ensures |JoinHex(runs)| == 2 * |runs|
    ensures HexValue(Pair(JoinHex(runs), k)) == DecimalValue(runs[k])
    decreases |runs|
  {
    JoinHexLength(runs);
    var n := |runs| - 1;
    var front := JoinHex(runs[..n]);
    var last := PadStart2(Hex(DecimalValue(runs[n])));
    assert JoinHex(runs) == front + last;
    AllBytesPrefix(runs, n);
    JoinHexLength(runs[..n]);
    if k < n {
      assert runs[..n][k] == runs[k];
      JoinHexPair(runs[..n], k);
    } else {
      ByteIsTwoDigits(DecimalValue(runs[n]));
    }
    PairOfJoin(front, last, k, n, DecimalValue(runs[k]));
  }

  lemma PairOfJoin(front: string, last: string, k: nat, n: nat, target: nat)
    requires |front| == 2 * n && |last| == 2 && k <= n
    requires k < n ==> HexValue(Pair(front, k)) == target
    requires k == n ==> HexValue(last) == target
    ensures HexValue(Pair(front + last, k)) == target
  {
    PairsOfAppend(front, last, k);
  }

  /** With every run below 256, the join is one pair of digits per run, reading back as the run's value. */
  lemma JoinHexOfBytes(runs: seq<string>)
    requires AllBytes(runs)
    ensures |JoinHex(runs)| == 2 * |runs|
    ensures forall k :: 0 <= k < |runs| ==> HexValue(Pair(JoinHex(runs), k)) == DecimalValue(runs[k])
  {
    JoinHexLength(runs);
    forall k | 0 <= k < |runs| ensures HexValue(Pair(JoinHex(runs), k)) == DecimalValue(runs[k]) {
      JoinHexPair(runs, k);
    }
  }

  lemma RgbToHexOfBytes(rgb: string)
    requires |rgb| > 0 && rgb[0] != '#'
    requires DigitRuns(rgb) != []
    requires AllBytes(DigitRuns(rgb))
    ensures var runs := DigitRuns(rgb);
      var r := RgbToHex(Some(rgb));
      r.Some? && |r.value| == 1 + 2 * |runs| && r.value[0] == '#' &&
      r.value[1..] == JoinHex(runs) &&
      forall k :: 0 <= k < |runs| ==> HexValue(Pair(r.value[1..], k)) == DecimalValue(runs[k])
  {
    var runs := DigitRuns(rgb);
    JoinHexOfBytes(runs);
    var r := RgbToHex(Some(rgb)).value;
    assert r == "#" + JoinHex(runs);
    assert r[1..] == JoinHex(runs);
  }

  /** The channels of `rgb(255, 0, 10)`: 255, 0 and 10 become FF, 00 and 0A. */
  lemma ChannelDigitsExample()
    ensures PadStart2(Hex(255)) == "FF" && PadStart2(Hex(0)) == "00" && PadStart2(Hex(10)) == "0A"
  {
    assert Hex(15) == "F";
  }

  predicate AllDigits(d: string)
  {
    d != [] && forall i :: 0 <= i < |d| ==> IsDigit(d[i])
  }

  /** The browser's `rgb(R, G, B)` form: its matches are the three channels, in order. */
  lemma RgbChannelRuns(r: string, g: string, b: string)
    requires AllDigits(r) && AllDigits(g) && AllDigits(b)
    ensures DigitRuns("rgb(" + r + ", " + g + ", " + b + ")") == [r, g, b]
  {
    var tb := b + [')'] + "";
    var sb := "" + [' '] + tb;
    var tg := g + [','] + sb;
    var sg := "" + [' '] + tg;
    var tr := r + [','] + sg;
    assert "rgb(" + r + ", " + g + ", " + b + ")" == "rgb" + ['('] + tr;
    DigitRunsOfDigits(r);
    DigitRunsOfDigits(g);
    DigitRunsOfDigits(b);
    DigitRunsSplit(b, ')', "");
    DigitRunsSplit("", ' ', tb);
    DigitRunsSplit(g, ',', sb);
    DigitRunsSplit("", ' ', tg);
    DigitRunsSplit(r, ',', sg);
    DigitRunsSplit("rgb", '(', tr);
  }

  /** Number() of the three channels. */
  lemma DecimalValueExample()
    ensures DecimalValue("255") == 255 && DecimalValue("0") == 0 && DecimalValue("10") == 10
  {
    assert "255"[..2] == "25" && "25"[..1] == "2" && "2"[..0] == "";
    assert "0"[..0] == "";
    assert "10"[..1] == "1" && "1"[..0] == "";
  }

  /** The join of the three channels. */
  lemma JoinHexExample()
    ensures JoinHex(["255", "0", "10"]) == "FF000A"
  {
    var runs := ["255", "0", "10"];
    assert runs[..2] == ["255", "0"] && runs[..2][..1] == ["255"] && runs[..2][..1][..0] == [];
    DecimalValueExample();
    ChannelDigitsExample();
    assert JoinHex(runs[..2][..1]) == "FF";
    assert JoinHex(runs[..2]) == "FF" + "00";
    assert JoinHex(runs) == "FF" + "00" + "0A";
  }

  /** rgbToHex on the browser's `rgb(R, G, B)` form joins the hex forms of the three channels. */
  lemma RgbToHexOfChannels(r: string, g: string, b: string)
    requires AllDigits(r) && AllDigits(g) && AllDigits(b)
    ensures RgbToHex(Some("rgb(" + r + ", " + g + ", " + b + ")")) == Some("#" + JoinHex([r, g, b]))
  {
    var s := "rgb(" + r + ", " + g + ", " + b + ")";
    assert s[0] == 'r';
    RgbChannelRuns(r, g, b);
  }

  /** rgbToHex on a colour as the browser reports it. */
  lemma RgbToHexExample()
    ensures RgbToHex(Some("rgb(255, 0, 10)")) == Some("#FF000A")
  {
    assert "#" + "FF000A" == "#FF000A";
    assert "rgb(255, 0, 10)" == "rgb(" + "255" + ", " + "0" + ", " + "10" + ")";
    assert AllDigits("255") && AllDigits("0") && AllDigits("10");
    RgbToHexOfChannels("255", "0", "10");
    JoinHexExample();
  }
}
