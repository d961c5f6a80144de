/** Version strings: how the registry orders them and how the contract validator compares them. */
module Versions {
  import opened Wrappers
  import opened Messages

  /** `s.split(".")` */
  function Split(s: string): (parts: seq<string>)
    ensures 0 < |parts|
  {
    if s == "" then [""]
    else
      var init := Split(s[..|s| - 1]);
      var c := s[|s| - 1];
      if c == '.' then init + [""] else init[|init| - 1 := init[|init| - 1] + [c]]
  }

  predicate IsDigit(c: char) {
    '0' <= c <= '9'
  }

  function WithDigit(high: Option<nat>, c: char): Option<nat>
    requires IsDigit(c)
  {
    if high.None? then None else Some(10 * high.value + (c as int - '0' as int))
  }

  /** Digits with single underscores between them. */
  function ParseDigits(s: string): Option<nat> {
    if s == "" || !IsDigit(s[|s| - 1]) then None
    else
      var c, rest := s[|s| - 1], s[..|s| - 1];
      if rest == "" then WithDigit(Some(0), c)
      else if rest[|rest| - 1] == '_' then WithDigit(ParseDigits(rest[..|rest| - 1]), c)
      else WithDigit(ParseDigits(rest), c)
  }

  /** `int(s)`; None is its ValueError. */
  function ParseInt(s: string): Option<int> {
    var t := Strip(s);
    if t == "" then None
    else if t[0] == '-' || t[0] == '+' then
      match ParseDigits(t[1..])
      case None => None
      case Some(n) => var m: int := n; Some(if t[0] == '-' then -m else m)
    else
      match ParseDigits(t)
      case None => None
      case Some(n) => Some(n)
  }

  function ParseAll(parts: seq<string>): Option<seq<int>> {
    if parts == [] then Some([])
    else
      match (ParseInt(parts[0]), ParseAll(parts[1..]))
      case (Some(n), Some(rest)) => Some([n] + rest)
      case _ => None
  }

  /** `tuple(map(int, v.split(".")))` */
  function Tuple(version: string): Option<seq<int>> {
    ParseAll(Split(version))
  }

  /** Python's order on tuples. */
  predicate Less(a: seq<int>, b: seq<int>) {
    if a == [] then b != []
    else b != [] && (a[0] < b[0] || (a[0] == b[0] && Less(a[1..], b[1..])))
  }

  // ---------------------------------------------------------------------------------------------
  // What the strings mean

  /** A literal that `int` takes, but for its sign: it begins and ends with a digit, underscores stand alone. */
  predicate Numeral(s: string) {
    && s != "" && IsDigit(s[0]) && IsDigit(s[|s| - 1])
    && (forall k :: 0 <= k < |s| ==> IsDigit(s[k]) || s[k] == '_')
    && (forall k :: 0 < k < |s| && s[k] == '_' ==> IsDigit(s[k - 1]))
  }

  /** The value of a literal, read from the left. */
  function ValueOf(s: string, sofar: nat): nat {
    if s == "" then sofar
    else ValueOf(s[1..], if IsDigit(s[0]) then 10 * sofar + (s[0] as int - '0' as int) else sofar)
  }

  lemma {:induction false} ValueOfMore(s: string, c: char, sofar: nat)
    ensures ValueOf(s + [c], sofar) ==
      if IsDigit(c) then 10 * ValueOf(s, sofar) + (c as int - '0' as int) else ValueOf(s, sofar)
  {
    if s == "" {
      assert s + [c] == [c] && [c][1..] == "";
    } else {
      assert (s + [c])[1..] == s[1..] + [c];
      ValueOfMore(s[1..], c, if IsDigit(s[0]) then 10 * sofar + (s[0] as int - '0' as int) else sofar);
    }
  }

  /** A literal with one more digit behind it, and perhaps an underscore between. */
  lemma NumeralMore(high: string, gap: string, c: char)
    requires high != "" && (gap == "" || gap == "_")
    requires gap == "" ==> high[|high| - 1] != '_'
    ensures Numeral(high + gap + [c]) <==> IsDigit(c) && Numeral(high)
  {
    var s := high + gap + [c];
    assert forall k :: 0 <= k < |high| ==> s[k] == high[k];
    assert s[|s| - 1] == c && s[0] == high[0];
    assert gap == "_" ==> s[|high|] == '_';
  }

  lemma ParseOneMore(high: string, c: char)
    requires high != "" && high[|high| - 1] != '_' && IsDigit(c)
    ensures ParseDigits(high + [c]) == WithDigit(ParseDigits(high), c)
  {
    var s := high + [c];
    var rest := s[..|s| - 1];
    assert rest == high && s[|s| - 1] == c;
  }

  lemma ParseOverGap(high: string, c: char)
    requires IsDigit(c)
    ensures ParseDigits(high + "_" + [c]) == WithDigit(ParseDigits(high), c)
  {
    var s := high + "_" + [c];
    var rest := s[..|s| - 1];
    assert rest == high + "_" && rest[..|rest| - 1] == high && s[|s| - 1] == c;
  }

  lemma DigitsMore(high: string, gap: string, c: char)
    requires high != "" && (gap == "" || gap == "_") && IsDigit(c)
    requires gap == "" ==> high[|high| - 1] != '_'
    ensures ParseDigits(high + gap + [c]) == WithDigit(ParseDigits(high), c)
    ensures Some(ValueOf(high + gap + [c], 0)) == WithDigit(Some(ValueOf(high, 0)), c)
  {
    ValueOfMore(high + gap, c, 0);
    if gap == "_" {
      ParseOverGap(high, c);
      ValueOfMore(high, '_', 0);
    } else {
      assert high + gap == high;
      ParseOneMore(high, c);
    }
  }

  /** Which strings are read, and as which number. */
  lemma {:induction false} ParseDigitsExactly(s: string)
    ensures ParseDigits(s) == if Numeral(s) then Some(ValueOf(s, 0)) else None
    decreases |s|
  {
    if s != "" && IsDigit(s[|s| - 1]) {
      var c, rest := s[|s| - 1], s[..|s| - 1];
      if rest == "" {
        assert s == "" + [c] && ValueOf("", 0) == 0;
        ValueOfMore("", c, 0);
      } else {
        var gap := if rest[|rest| - 1] == '_' then "_" else "";
        var high := rest[..|rest| - |gap|];
        ParseDigitsExactly(high);
        assert rest == high + gap;
        if high == "" {
          assert s[0] == '_';
        } else {
          assert s == high + gap + [c];
          NumeralMore(high, gap, c);
          DigitsMore(high, gap, c);
        }
      }
    }
  }

  /** The literal behind its sign, if it has one. */
  function Unsigned(s: string): string {
    if s != "" && (s[0] == '-' || s[0] == '+') then s[1..] else s
  }

  /** `int` reads a literal with or without sign, white space around it aside, and nothing else. */
  lemma ParseIntExactly(s: string)
    ensures var t := Strip(s);
            var value: int := ValueOf(Unsigned(t), 0);
            ParseInt(s) == if Numeral(Unsigned(t)) then Some(if t[0] == '-' then -value else value) else None
  {
    ParseDigitsExactly(Unsigned(Strip(s)));
  }

  function Decimal(n: nat): (s: string)
    ensures s != ""
  {
    var last := [('0' as int + n % 10) as char];
    if n < 10 then last else Decimal(n / 10) + last
  }

  function Integer(n: int): string {
    if n < 0 then "-" + Decimal(-n) else Decimal(n)
  }

  lemma {:induction false} DecimalIsNumeral(n: nat)
    ensures forall k :: 0 <= k < |Decimal(n)| ==> IsDigit(Decimal(n)[k])
    ensures Numeral(Decimal(n)) && ValueOf(Decimal(n), 0) == n
  {
    var c := ('0' as int + n % 10) as char;
    ValueOfMore("", c, 0);
    assert "" + [c] == [c] && ValueOf("", 0) == 0;
    if 10 <= n {
      DecimalIsNumeral(n / 10);
      ValueOfMore(Decimal(n / 10), c, 0);
    }
  }

  /** Every integer is read as itself. */
  lemma IntegerIsRead(n: int)
    ensures ParseInt(Integer(n)) == Some(n)
    ensures '.' !in Integer(n)
  {
    var digits := Decimal(if n < 0 then -n else n);
    DecimalIsNumeral(if n < 0 then -n else n);
    ParseDigitsExactly(digits);
    var s := Integer(n);
    assert IsDigit(digits[0]) && IsDigit(digits[|digits| - 1]) && s[|s| - 1] == digits[|digits| - 1];
    assert !IsSpace(s[0]) && !IsSpace(s[|s| - 1]) && Strip(s) == s;
    assert n < 0 ==> s[1..] == digits;
  }

  function Join(parts: seq<string>): string
    requires parts != []
  {
    if |parts| == 1 then parts[0] else Join(parts[..|parts| - 1]) + "." + parts[|parts| - 1]
  }

  function Extended(parts: seq<string>, text: string): seq<string>
    requires parts != []
  {
    parts[..|parts| - 1] + [parts[|parts| - 1] + text]
  }

  lemma SplitOneMore(s: string, c: char)
    requires c != '.'
    ensures Split(s + [c]) == Extended(Split(s), [c])
  {
    assert (s + [c])[..|s + [c]| - 1] == s;
  }

  lemma ExtendedTwice(parts: seq<string>, a: string, b: string)
    requires parts != []
    ensures Extended(Extended(parts, a), b) == Extended(parts, a + b)
  {
    var last := parts[|parts| - 1];
    assert last + a + b == last + (a + b);
  }

  lemma ExtendedByNothing(parts: seq<string>)
    requires parts != []
    ensures Extended(parts, "") == parts
  {
    assert parts[|parts| - 1] + "" == parts[|parts| - 1];
  }

  lemma {:induction false} SplitAppend(s: string, part: string)
    requires '.' !in part
    ensures Split(s + part) == Extended(Split(s), part)
    decreases |part|
  {
    if part == "" {
      assert s + part == s;
      ExtendedByNothing(Split(s));
    } else {
      var n := |part| - 1;
      var init, c := part[..n], part[n];
      assert c in part && part == init + [c];
      SplitAppend(s, init);
      SplitOneMore(s + init, c);
      assert s + part == s + init + [c];
      ExtendedTwice(Split(s), init, [c]);
    }
  }

  lemma SplitDot(s: string)
    ensures Split(s + ".") == Split(s) + [""]
  {
    assert (s + ".")[..|s + "."| - 1] == s;
  }

  /** Splitting takes apart what was joined. */
  lemma {:induction false} SplitJoin(parts: seq<string>)
    requires parts != [] && forall k :: 0 <= k < |parts| ==> '.' !in parts[k]
    ensures Split(Join(parts)) == parts
  {
    var n := |parts| - 1;
    if n == 0 {
      SplitAppend("", parts[0]);
      assert "" + parts[0] == parts[0];
    } else {
      var high := Join(parts[..n]);
      assert n == 1 ==> parts[..n] == [parts[0]];
      SplitJoin(parts[..n]);
      SplitDot(high);
      assert "" + parts[n] == parts[n];
      assert Extended(parts[..n] + [""], parts[n]) == parts;
      SplitAppend(high + ".", parts[n]);
    }
  }

  /** A tuple as a version string. */
  function Rendered(t: seq<int>): string
    requires t != []
  {
    Join(Integers(t))
  }

  function Integers(t: seq<int>): (parts: seq<string>)
    ensures |parts| == |t| && forall k :: 0 <= k < |t| ==> parts[k] == Integer(t[k])
  {
    seq(|t|, k requires 0 <= k < |t| => Integer(t[k]))
  }

  lemma {:induction false} IntegersAreRead(t: seq<int>)
    ensures ParseAll(Integers(t)) == Some(t)
  {
    if t != [] {
      IntegerIsRead(t[0]);
      IntegersAreRead(t[1..]);
      assert Integers(t)[1..] == Integers(t[1..]) && [t[0]] + t[1..] == t;
    }
  }

  /** The version that a tuple is written as has that tuple: 1.10 is one and ten. */
  lemma RenderedIsRead(t: seq<int>)
    requires t != []
    ensures Tuple(Rendered(t)) == Some(t)
  {
    forall k | 0 <= k < |t|
      ensures '.' !in Integers(t)[k]
    {
      IntegerIsRead(t[k]);
    }
    SplitJoin(Integers(t));
    IntegersAreRead(t);
  }

  // ---------------------------------------------------------------------------------------------
  // The order

  /** The tuples agree up to k, and there the first one has ended or is smaller. */
  predicate LowerAt(a: seq<int>, b: seq<int>, k: nat) {
    k <= |a| && k < |b| && a[..k] == b[..k] && (k == |a| || a[k] < b[k])
  }

  lemma LowerAtHead(a: seq<int>, b: seq<int>, k: nat)
    requires LowerAt(a, b, k) && a != []
    ensures if k == 0 then a[0] < b[0] else a[0] == b[0]
  {
    assert 0 < k ==> a[..k][0] == b[..k][0];
  }

  ghost predicate Lower(a: seq<int>, b: seq<int>) {
    exists k: nat :: LowerAt(a, b, k)
  }

  lemma {:induction false} LessIsLexicographic(a: seq<int>, b: seq<int>)
    ensures Less(a, b) <==> Lower(a, b)
  {
    if a == [] || b == [] {
      assert b != [] ==> LowerAt(a, b, 0);
    } else if a[0] == b[0] {
      LessIsLexicographic(a[1..], b[1..]);
      if k: nat :| LowerAt(a[1..], b[1..], k) {
        assert a[..k + 1] == [a[0]] + a[1..][..k] && b[..k + 1] == [b[0]] + b[1..][..k];
        assert LowerAt(a, b, k + 1);
      }
      if k: nat :| LowerAt(a, b, k) {
        assert a[1..][..k - 1] == a[..k][1..] && b[1..][..k - 1] == b[..k][1..];
        assert LowerAt(a[1..], b[1..], k - 1);
      }
    } else {
      assert a[0] < b[0] ==> LowerAt(a, b, 0);
      forall k: nat | LowerAt(a, b, k)
        ensures a[0] < b[0]
      {
        LowerAtHead(a, b, k);
      }
    }
  }

  lemma {:induction false} LessIrreflexive(a: seq<int>)
    ensures !Less(a, a)
  {
    if a != [] {
      LessIrreflexive(a[1..]);
    }
  }

  lemma {:induction false} LessTransitive(a: seq<int>, b: seq<int>, c: seq<int>)
    requires Less(a, b) && Less(b, c)
    ensures Less(a, c)
  {
    if a != [] && a[0] == b[0] == c[0] {
      LessTransitive(a[1..], b[1..], c[1..]);
    }
  }

  lemma {:induction false} LessTotal(a: seq<int>, b: seq<int>)
    ensures a == b || Less(a, b) || Less(b, a)
  {
    if a != [] && b != [] && a[0] == b[0] {
      LessTotal(a[1..], b[1..]);
      assert a == [a[0]] + a[1..] && b == [b[0]] + b[1..];
    }
  }

  /** Exactly one of the three holds. */
  lemma TrichotomyOfTuples(a: seq<int>, b: seq<int>)
    ensures a == b || Less(a, b) || Less(b, a)
    ensures !(a == b && Less(a, b)) && !(a == b && Less(b, a)) && !(Less(a, b) && Less(b, a))
  {
    LessTotal(a, b);
    LessIrreflexive(a);
    if Less(a, b) && Less(b, a) {
      LessTransitive(a, b, a);
    }
  }

  datatype Verdict = Accepted | MajorTooHigh | MinorTooHigh | NotAVersion

  function PartOrZero(parts: seq<string>, k: nat): Option<int> {
    if k < |parts| then ParseInt(parts[k]) else Some(0)
  }

  /** `check_version_compatibility`, which looks at the first two components. */
  function CheckVersion(event: string, consumer: string): Verdict {
    CheckParts(Split(event), Split(consumer))
  }

  function CheckParts(e: seq<string>, c: seq<string>): Verdict {
    match (PartOrZero(e, 0), PartOrZero(e, 1), PartOrZero(c, 0), PartOrZero(c, 1))
    case (Some(eMajor), Some(eMinor), Some(cMajor), Some(cMinor)) =>
      if eMajor > cMajor then MajorTooHigh
      else if eMajor == cMajor && eMinor > cMinor then MinorTooHigh
      else Accepted
    case _ => NotAVersion
  }

  lemma LessOfPairs(a: int, b: int, c: int, d: int)
    ensures Less([a, b], [c, d]) <==> a < c || (a == c && b < d)
  {
    assert [a, b][1..] == [b] && [c, d][1..] == [d] && [b][1..] == [] && [d][1..] == [];
    assert Less([b], [d]) <==> b < d || (b == d && Less([], []));
  }

  /** What the validator reads of a version: two components, zero standing in for a missing second. */
  function Leading(version: string): Option<seq<int>> {
    match (PartOrZero(Split(version), 0), PartOrZero(Split(version), 1))
    case (Some(major), Some(minor)) => Some([major, minor])
    case _ => None
  }

  /** The first two components of a tuple, zero standing in for a missing second. */
  function FirstTwo(t: seq<int>): seq<int>
    requires t != []
  {
    [t[0], if 1 < |t| then t[1] else 0]
  }

  lemma {:induction false} ParsedParts(parts: seq<string>, k: nat)
    requires ParseAll(parts).Some?
    ensures |ParseAll(parts).value| == |parts|
    ensures k < |parts| ==> ParseInt(parts[k]) == Some(ParseAll(parts).value[k])
  {
    if parts != [] {
      ParsedParts(parts[1..], if k == 0 then 0 else k - 1);
    }
  }

  lemma {:induction false} EachParses(parts: seq<string>)
    ensures ParseAll(parts).Some? <==> forall k :: 0 <= k < |parts| ==> ParseInt(parts[k]).Some?
  {
    if parts != [] {
      EachParses(parts[1..]);
      assert forall k :: 0 < k < |parts| ==> parts[k] == parts[1..][k - 1];
    }
  }

  lemma TupleLeads(version: string)
    ensures Tuple(version).Some? <==>
      Leading(version).Some? && forall k :: 2 <= k < |Split(version)| ==> ParseInt(Split(version)[k]).Some?
    ensures Tuple(version).Some? ==>
      Tuple(version).value != [] && Leading(version) == Some(FirstTwo(Tuple(version).value))
  {
    var parts := Split(version);
    EachParses(parts);
    if Tuple(version).Some? {
      ParsedParts(parts, 0);
      ParsedParts(parts, 1);
    } else {
      var k :| 0 <= k < |parts| && ParseInt(parts[k]).None?;
      assert PartOrZero(parts, k).None? && (k == 0 || k == 1 || 2 <= k);
      assert k < 2 ==> Leading(version).None?;
      assert 2 <= k ==> ParseInt(Split(version)[k]).None?;
    }
  }

  lemma LeadingAgrees(event: string, consumer: string)
    ensures CheckVersion(event, consumer).NotAVersion? <==> Leading(event).None? || Leading(consumer).None?
    ensures CheckVersion(event, consumer).Accepted? <==>
      Leading(event).Some? && Leading(consumer).Some? && !Less(Leading(consumer).value, Leading(event).value)
  {
    if Leading(event).Some? && Leading(consumer).Some? {
      var x, y := Leading(event).value, Leading(consumer).value;
      LessOfPairs(y[0], y[1], x[0], x[1]);
    }
  }

  lemma PairLeads(version: string)
    requires |Split(version)| == 2
    ensures Leading(version) == Tuple(version)
  {
    TupleLeads(version);
    if Tuple(version).Some? {
      ParsedParts(Split(version), 0);
      assert FirstTwo(Tuple(version).value) == Tuple(version).value;
    }
  }

  /**
    On versions of two components the validator accepts exactly the events that the registry's own order
    does not place above the consumer's version, and raises ValueError exactly where the registry would.
  */
  lemma ValidatorAgreesWithOrder(event: string, consumer: string)
    requires |Split(event)| == 2 && |Split(consumer)| == 2
    ensures CheckVersion(event, consumer).NotAVersion? <==> Tuple(event).None? || Tuple(consumer).None?
    ensures CheckVersion(event, consumer).Accepted? <==>
      Tuple(event).Some? && Tuple(consumer).Some? && !Less(Tuple(consumer).value, Tuple(event).value)
  {
    LeadingAgrees(event, consumer);
    PairLeads(event);
    PairLeads(consumer);
  }

  /**
    On all versions the validator is the registry's order cut down to two components. Later ones do not
    count: it accepts 1.0.1 where 1.0.0 is the limit although the registry places 1.0.1 higher, and reads
    1.0.beta where the registry raises ValueError. The registry reads a version exactly if the validator does
    and every later component is a number, and then the two components are the first two of its tuple.
  */
  lemma ValidatorComparesTwoParts(event: string, consumer: string)
    ensures CheckVersion(event, consumer).NotAVersion? <==> Leading(event).None? || Leading(consumer).None?
    ensures CheckVersion(event, consumer).Accepted? <==>
      Leading(event).Some? && Leading(consumer).Some? && !Less(Leading(consumer).value, Leading(event).value)
    ensures Leading(event).Some? && Leading(consumer).Some? ==>
      var e, c := Leading(event).value, Leading(consumer).value;
      && (CheckVersion(event, consumer).MajorTooHigh? <==> c[0] < e[0])
      && (CheckVersion(event, consumer).MinorTooHigh? <==> c[0] == e[0] && c[1] < e[1])
    ensures Tuple(event).Some? <==>
      Leading(event).Some? && forall k :: 2 <= k < |Split(event)| ==> ParseInt(Split(event)[k]).Some?
    ensures Tuple(event).Some? ==>
      Tuple(event).value != [] && Leading(event) == Some(FirstTwo(Tuple(event).value))
  {
    LeadingAgrees(event, consumer);
    TupleLeads(event);
  }

  /** By the numbers: an event is accepted exactly if its first two are not above the consumer's. */
  lemma ValidatorReadsNumbers(event: seq<int>, consumer: seq<int>)
    requires event != [] && consumer != []
    ensures CheckVersion(Rendered(event), Rendered(consumer)).Accepted? <==>
      var e, c := FirstTwo(event), FirstTwo(consumer);
      e[0] < c[0] || (e[0] == c[0] && e[1] <= c[1])
  {
    RenderedIsRead(event);
    RenderedIsRead(consumer);
    TupleLeads(Rendered(event));
    TupleLeads(Rendered(consumer));
    LeadingAgrees(Rendered(event), Rendered(consumer));
    var e, c := FirstTwo(event), FirstTwo(consumer);
    LessOfPairs(c[0], c[1], e[0], e[1]);
  }
}
