/**
 * The textual shapes of the power log: decimal rendering of Java `long`
 * values, the `+`-separated lines the estimator writes, and parsers that
 * read those lines back.  The parsers are the partners of the writers: each
 * line shape comes with a round-trip lemma.
 */
module LogText {
  import opened Wrappers

  /** Marker that closes every iteration block of the log. */
  const EndMarker: string := "------ END OF ITERATION ------"

  /** How Java renders a `null` string in a concatenation. */
  const NullText: string := "null"

  predicate IsDigit(c: char) {
    '0' <= c <= '9'
  }

  predicate AllDigits(s: string) {
    forall k :: 0 <= k < |s| ==> IsDigit(s[k])
  }

  function DigitChar(d: int): (c: char)
    requires 0 <= d < 10
    ensures IsDigit(c) && DigitValue(c) == d
  {
    (('0' as int) + d) as char
  }

  function DigitValue(c: char): (d: int)
    requires IsDigit(c)
    ensures 0 <= d < 10
  {
    (c as int) - ('0' as int)
  }

  /** Decimal digits of `n`, most significant first, without leading zeros. */
  function NatToString(n: nat): (s: string)
    ensures |s| > 0 && AllDigits(s)
    decreases n
  {
    if n < 10 then [DigitChar(n)] else NatToString(n / 10) + [DigitChar(n % 10)]
  }

  /** Java's `String.valueOf(long)`: a minus sign, then the digits of the magnitude. */
  function IntToString(i: int): (s: string)
    ensures |s| > 0
    ensures forall k :: 0 <= k < |s| ==> s[k] == '-' || IsDigit(s[k])
  {
    if i < 0 then "-" + NatToString(-i) else NatToString(i)
  }

  /** Value of a string of decimal digits (the empty string reads as 0). */
  function ParseDigits(s: string): nat
    requires AllDigits(s)
    decreases |s|
  {
    if s == [] then 0 else ParseDigits(s[..|s| - 1]) * 10 + DigitValue(s[|s| - 1])
  }

  /** Reads an optionally negative decimal number; anything else is `None`. */
  function ParseInt(s: string): Option<int> {
    if |s| > 1 && s[0] == '-' && AllDigits(s[1..]) then Some(-(ParseDigits(s[1..]) as int))
    else if |s| > 0 && AllDigits(s) then Some(ParseDigits(s))
    else None
  }

  lemma {:induction false} NatToStringRoundTrip(n: nat)
    ensures ParseDigits(NatToString(n)) == n
    decreases n
  {
    if n >= 10 {
      var s := NatToString(n);
      assert s[..|s| - 1] == NatToString(n / 10);
      NatToStringRoundTrip(n / 10);
    }
  }

  /** Writing a number and reading it back gives the number. */
  lemma IntToStringRoundTrip(i: int)
    ensures ParseInt(IntToString(i)) == Some(i)
  {
    if i < 0 {
      var t := NatToString(-i);
      assert IntToString(i)[1..] == t;
      NatToStringRoundTrip(-i);
    } else {
      NatToStringRoundTrip(i);
    }
  }

  lemma IntToStringHasNoPlus(i: int)
    ensures '+' !in IntToString(i)
  {
    var s := IntToString(i);
    forall k | 0 <= k < |s| ensures s[k] != '+' {
    }
  }

  /** Index of the first `c` in `s`, or `|s|` when there is none. */
  function IndexOf(s: string, c: char): (k: nat)
    ensures k <= |s|
    ensures k < |s| ==> s[k] == c
    ensures forall j :: 0 <= j < k ==> s[j] != c
    decreases |s|
  {
    if s == [] then 0 else if s[0] == c then 0 else 1 + IndexOf(s[1..], c)
  }

  /** Index of the last `c` in `s`, or -1 when there is none. */
  function LastIndexOf(s: string, c: char): (k: int)
    ensures -1 <= k < |s|
    ensures 0 <= k ==> s[k] == c
    ensures forall j :: k < j < |s| ==> s[j] != c
    decreases |s|
  {
    if s == [] then -1
    else if s[|s| - 1] == c then |s| - 1
    else LastIndexOf(s[..|s| - 1], c)
  }

  lemma IndexOfAt(a: string, c: char, b: string)
    requires c !in a
    ensures IndexOf(a + [c] + b, c) == |a|
  {
    var s := a + [c] + b;
    assert s[|a|] == c;
  }

  lemma LastIndexOfAt(a: string, c: char, b: string)
    requires c !in b
    ensures LastIndexOf(a + [c] + b, c) == |a|
  {
    var s := a + [c] + b;
    assert s[|a|] == c;
  }

  // ---------------------------------------------------------------------
  // Line shapes
  // ---------------------------------------------------------------------

  /** `key+<number>`, e.g. `begin+12` or `total power+830`. */
  function KeyedLine(key: string, value: int): string {
    key + "+" + IntToString(value)
  }

  /** The value of a `key+<number>` line, if the line has that shape. */
  function ParseKeyedLine(key: string, line: string): Option<int> {
    if |line| > |key| && line[..|key| + 1] == key + "+" then ParseInt(line[|key| + 1..])
    else None
  }

  function BeginLine(iteration: int): string {
    KeyedLine("begin", iteration)
  }

  function TotalPowerLine(totalPower: int): string {
    KeyedLine("total power", totalPower)
  }

  function ShowName(name: Option<string>): string {
    if name.Some? then name.value else NullText
  }

  /** `associate+<uid>+<name>`: a uid is (now) known under that application name. */
  function AssociateLine(uid: int, name: Option<string>): string {
    "associate+" + IntToString(uid) + "+" + ShowName(name)
  }

  /** The uid an `associate` line speaks of. */
  function AssociatedUid(line: string): Option<int> {
    if |line| >= 10 && line[..10] == "associate+" then
      var rest := line[10..];
      ParseInt(rest[..IndexOf(rest, '+')])
    else None
  }

  /** `<component>+ALL++<power>`: the power a component drew in total. */
  function AllLine(component: string, power: int): string {
    component + "+ALL++" + IntToString(power)
  }

  /** `<component>+<uid>+<uid name>+<power>`: the power charged to one uid. */
  function UidLine(component: string, uid: int, uidName: string, power: int): string {
    component + "+" + IntToString(uid) + "+" + uidName + "+" + IntToString(power)
  }

  /** What a component line says: which component, which uid (`None` for ALL), how much power. */
  datatype ComponentRecord = ComponentRecord(component: string, uid: Option<int>, power: int)

  /**
   * Reads a component line: the component name runs up to the first `+`, the
   * power follows the last `+`, and between them stands `ALL+` or `<uid>+<uid name>`.
   */
  function ParseComponentLine(line: string): Option<ComponentRecord> {
    var k := IndexOf(line, '+');
    if k == |line| then None else ParseAfterName(line[..k], line[k + 1..])
  }

  /** The part after the component name: the power follows the last `+`. */
  function ParseAfterName(component: string, rest: string): Option<ComponentRecord> {
    var l := LastIndexOf(rest, '+');
    if l < 0 then None else ParseMiddle(component, rest[..l], ParseInt(rest[l + 1..]))
  }

  /** Between name and power stands `ALL+` or `<uid>+<uid name>`. */
  function ParseMiddle(component: string, middle: string, power: Option<int>): Option<ComponentRecord> {
    if power.None? then None
    else if middle == "ALL+" then Some(ComponentRecord(component, None, power.value))
    else
      var m := IndexOf(middle, '+');
      var uid := ParseInt(middle[..m]);
      if m == |middle| || uid.None? then None
      else Some(ComponentRecord(component, Some(uid.value), power.value))
  }

  // ---------------------------------------------------------------------
  // Round trips
  // ---------------------------------------------------------------------

  lemma KeyedLineRoundTrip(key: string, value: int)
    ensures ParseKeyedLine(key, KeyedLine(key, value)) == Some(value)
  {
    var line := KeyedLine(key, value);
    assert line[..|key| + 1] == key + "+";
    assert line[|key| + 1..] == IntToString(value);
    IntToStringRoundTrip(value);
  }

  lemma AssociateLineRoundTrip(uid: int, name: Option<string>)
    ensures AssociatedUid(AssociateLine(uid, name)) == Some(uid)
  {
    var line := AssociateLine(uid, name);
    var digits := IntToString(uid);
    assert line[..10] == "associate+";
    var rest := line[10..];
    assert rest == digits + ['+'] + ShowName(name);
    IntToStringHasNoPlus(uid);
    IndexOfAt(digits, '+', ShowName(name));
    assert rest[..IndexOf(rest, '+')] == digits;
    IntToStringRoundTrip(uid);
  }

  /** Two `associate` lines about different uids are different lines. */
  lemma AssociateLinesDiffer(u1: int, n1: Option<string>, u2: int, n2: Option<string>)
    requires u1 != u2
    ensures AssociateLine(u1, n1) != AssociateLine(u2, n2)
  {
    AssociateLineRoundTrip(u1, n1);
    AssociateLineRoundTrip(u2, n2);
  }

  lemma ParseAfterNameAt(component: string, middle: string, power: int)
    ensures ParseAfterName(component, middle + "+" + IntToString(power))
            == ParseMiddle(component, middle, Some(power))
  {
    var p := IntToString(power);
    var rest := middle + ['+'] + p;
    assert middle + "+" + p == rest;
    IntToStringHasNoPlus(power);
    LastIndexOfAt(middle, '+', p);
    assert rest[..|middle|] == middle;
    assert rest[|middle| + 1..] == p;
    IntToStringRoundTrip(power);
  }

  lemma ParseComponentLineAt(component: string, rest: string)
    requires '+' !in component
    ensures ParseComponentLine(component + "+" + rest) == ParseAfterName(component, rest)
  {
    var line := component + ['+'] + rest;
    assert component + "+" + rest == line;
    IndexOfAt(component, '+', rest);
    assert line[..|component|] == component;
    assert line[|component| + 1..] == rest;
  }

  lemma AllLineRoundTrip(component: string, power: int)
    requires '+' !in component
    ensures ParseComponentLine(AllLine(component, power)) == Some(ComponentRecord(component, None, power))
  {
    var p := IntToString(power);
    assert AllLine(component, power) == component + "+" + ("ALL+" + "+" + p);
    ParseComponentLineAt(component, "ALL+" + "+" + p);
    ParseAfterNameAt(component, "ALL+", power);
  }

  lemma UidLineRoundTrip(component: string, uid: int, uidName: string, power: int)
    requires '+' !in component
    ensures ParseComponentLine(UidLine(component, uid, uidName, power))
            == Some(ComponentRecord(component, Some(uid), power))
  {
    var u := IntToString(uid);
    var p := IntToString(power);
    var middle := u + "+" + uidName;
    assert UidLine(component, uid, uidName, power) == component + "+" + (middle + "+" + p);
    ParseComponentLineAt(component, middle + "+" + p);
    ParseAfterNameAt(component, middle, power);
    IntToStringHasNoPlus(uid);
    assert middle == u + ['+'] + uidName;
    IndexOfAt(u, '+', uidName);
    assert middle[..|u|] == u;
    IntToStringRoundTrip(uid);
    assert middle != "ALL+" by {
      assert middle[0] == u[0];
      assert IsDigit(u[0]) || u[0] == '-';
    }
  }

  /** No line that contains a `+` can be mistaken for the end-of-iteration marker. */
  lemma PlusLineIsNotEnd(line: string)
    requires '+' in line
    ensures line != EndMarker
  {
  }

  lemma JoinedIsNotEnd(key: string, rest: string)
    ensures key + "+" + rest != EndMarker
  {
    var line := key + "+" + rest;
    assert line[|key|] == '+';
    PlusLineIsNotEnd(line);
  }

  lemma AllLineIsNotEnd(component: string, power: int)
    ensures AllLine(component, power) != EndMarker
  {
    var line := AllLine(component, power);
    assert line[|component|] == '+';
    PlusLineIsNotEnd(line);
  }

  lemma UidLineIsNotEnd(component: string, uid: int, uidName: string, power: int)
    ensures UidLine(component, uid, uidName, power) != EndMarker
  {
    var line := UidLine(component, uid, uidName, power);
    assert line[|component|] == '+';
    PlusLineIsNotEnd(line);
  }

  lemma AssociateLineIsNotEnd(uid: int, name: Option<string>)
    ensures AssociateLine(uid, name) != EndMarker
  {
    var line := AssociateLine(uid, name);
    assert line[9] == '+';
    PlusLineIsNotEnd(line);
  }
}
