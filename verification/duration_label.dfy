/** The human-readable duration labels both halves of the system produce:
    `"{m} min"` below an hour and `"{h} hr {m} min"` from an hour on. A
    label is kept as a small datatype so that the backend and frontend
    formatters can be compared value by value, and rendered to text by the
    same rule JavaScript template literals use for integers. */
module DurationLabel {
  import opened Wrappers

  datatype Label =
    | Minutes(count: int)                 // "{count} min"
    | HoursMinutes(hours: int, rest: int) // "{hours} hr {rest} min"

  /** The shape both formatters promise: a bare minute count only below an
      hour, and otherwise at least one hour with a remainder below sixty. */
  predicate WellFormed(l: Label) {
    match l
    case Minutes(n) => n < 60
    case HoursMinutes(h, m) => 1 <= h && 0 <= m < 60
  }

  /** The number of minutes a label stands for. */
  function TotalMinutes(l: Label): int {
    match l
    case Minutes(n) => n
    case HoursMinutes(h, m) => h * 60 + m
  }

  /** A well-formed label is determined by the minutes it stands for, so
      two formatters that agree on the minute count agree on the label. */
  lemma DeterminedByTotal(a: Label, b: Label)
    requires WellFormed(a) && WellFormed(b)
    requires TotalMinutes(a) == TotalMinutes(b)
    ensures a == b
  {
  }

  // ---------------------------------------------------------------------
  // Rendering

  predicate IsDigit(c: char) {
    '0' <= c <= '9'
  }

  predicate AllDigits(s: string) {
    forall i :: 0 <= i < |s| ==> IsDigit(s[i])
  }

  predicate HasNoSpace(s: string) {
    forall i :: 0 <= i < |s| ==> s[i] != ' '
  }

  function DigitChar(d: nat): (c: char)
    requires d < 10
    ensures IsDigit(c)
    ensures c as int - '0' as int == d
  {
    ('0' as int + d) as char
  }

  /** The decimal digits of `n`, most significant first, as JavaScript's
      `String(n)` writes a non-negative integer below 10^21 that a double
      holds exactly: a leading zero only for zero itself. */
  function NatToString(n: nat): (s: string)
    ensures |s| >= 1
    ensures AllDigits(s)
    ensures s[0] == '0' ==> n == 0
    decreases n
  {
    if n < 10 then [DigitChar(n)]
    else NatToString(n / 10) + [DigitChar(n % 10)]
  }

  /** `String(i)` for an integer of magnitude below 10^21 that a double
      holds exactly: a minus sign before the digits of a negative value, and
      no sign otherwise. */
  function IntToString(i: int): (s: string)
    ensures |s| >= 1
    ensures HasNoSpace(s)
    ensures s[0] == '-' <==> i < 0
    ensures i < 0 ==> AllDigits(s[1..]) && |s| >= 2 && s[1] != '0'
    ensures 0 <= i ==> AllDigits(s)
  {
    if i < 0 then
      var digits := NatToString(-i);
      assert ("-" + digits)[1..] == digits;
      "-" + digits
    else NatToString(i)
  }

  /** The label as the user sees it, through the template literal that
      places the integers before "min", or before "hr" and "min": read at
      single spaces, the text is exactly those words. */
  function Render(l: Label): (s: string)
    ensures l.Minutes? ==> Split(s) == [IntToString(l.count), "min"]
    ensures l.HoursMinutes? ==>
              Split(s) == [IntToString(l.hours), "hr", IntToString(l.rest), "min"]
  {
    SplitWord("min");
    match l
    case Minutes(n) =>
      var a := IntToString(n);
      SplitJoin(a, "min");
      assert a + " min" == a + " " + "min";
      a + " min"
    case HoursMinutes(h, m) =>
      var a, b := IntToString(h), IntToString(m);
      var tail := b + " " + "min";
      var middle := "hr" + " " + tail;
      SplitJoin(a, middle);
      SplitJoin("hr", tail);
      SplitJoin(b, "min");
      assert a + " hr " + b + " min" == a + " " + middle;
      a + " hr " + b + " min"
  }

  // ---------------------------------------------------------------------
  // Reading a rendered label back: the partner that shows rendering loses
  // nothing. The reader accepts only the spelling `String(n)` produces, so
  // reading and rendering are inverse to each other.

  function DigitsValue(s: string): (v: nat)
    requires AllDigits(s)
  {
    if |s| == 0 then 0
    else DigitsValue(s[..|s| - 1]) * 10 + (s[|s| - 1] as int - '0' as int)
  }

  /** A decimal numeral as `String(n)` spells it: digits, with no leading
      zero unless the numeral is "0". */
  predicate Canonical(s: string) {
    |s| > 0 && AllDigits(s) && (s[0] == '0' ==> |s| == 1)
  }

  function ParseNat(s: string): Option<nat> {
    if Canonical(s) then Some(DigitsValue(s)) else None
  }

  /** An optional minus sign before a canonical numeral; "-0" is refused
      because `String` never writes it. */
  function ParseInt(s: string): Option<int> {
    if |s| > 0 && s[0] == '-' then
      match ParseNat(s[1..])
      case Some(v) => if v == 0 then None else Some(-(v as int))
      case None => None
    else
      match ParseNat(s)
      case Some(v) => Some(v)
      case None => None
  }

  /** The words of `s` between single spaces (`s.split(" ")`). */
  function Split(s: string): (words: seq<string>)
    ensures |words| >= 1
  {
    if |s| == 0 then [""]
    else if s[0] == ' ' then [""] + Split(s[1..])
    else
      var rest := Split(s[1..]);
      [[s[0]] + rest[0]] + rest[1..]
  }

  /** The words joined with single spaces (`words.join(" ")`). */
  function Join(words: seq<string>): string
    requires |words| >= 1
  {
    if |words| == 1 then words[0] else words[0] + " " + Join(words[1..])
  }

  function ParseLabel(s: string): Option<Label> {
    var w := Split(s);
    if |w| == 2 && w[1] == "min" then
      match ParseInt(w[0])
      case Some(n) => Some(Minutes(n))
      case None => None
    else if |w| == 4 && w[1] == "hr" && w[3] == "min" then
      match (ParseInt(w[0]), ParseInt(w[2]))
      case (Some(h), Some(m)) => Some(HoursMinutes(h, m))
      case _ => None
    else None
  }

  lemma {:induction false} NatRoundTrip(n: nat)
    ensures DigitsValue(NatToString(n)) == n
    decreases n
  {
    if n >= 10 {
      var s := NatToString(n);
      NatRoundTrip(n / 10);
      assert s[..|s| - 1] == NatToString(n / 10);
    }
  }

  /** A numeral without a leading zero stands for a positive number. */
  lemma {:induction false} LeadingDigitPositive(s: string)
    requires |s| >= 1 && AllDigits(s) && s[0] != '0'
    ensures DigitsValue(s) >= 1
    decreases |s|
  {
    if |s| > 1 {
      LeadingDigitPositive(s[..|s| - 1]);
    }
  }

  /** A canonical numeral is the one `String` writes for its value. */
  lemma {:induction false} NatCanonical(s: string)
    requires Canonical(s)
    ensures NatToString(DigitsValue(s)) == s
    decreases |s|
  {
    var v := DigitsValue(s);
    if |s| == 1 {
      assert s[..|s| - 1] == [];
      assert DigitsValue(s[..|s| - 1]) == 0;
      assert v == s[0] as int - '0' as int;
      assert NatToString(v) == [DigitChar(v)];
      assert [s[0]] == s;
    } else {
      var p := s[..|s| - 1];
      var d := s[|s| - 1] as int - '0' as int;
      assert Canonical(p);
      LeadingDigitPositive(p);
      NatCanonical(p);
      assert v == DigitsValue(p) * 10 + d && 0 <= d < 10;
      assert v / 10 == DigitsValue(p) && v % 10 == d;
      assert DigitChar(d) == s[|s| - 1];
      assert p + [s[|s| - 1]] == s;
    }
  }

  lemma IntRoundTrip(i: int)
    ensures ParseInt(IntToString(i)) == Some(i)
  {
    var s := IntToString(i);
    if i < 0 {
      NatRoundTrip(-i);
      assert s[1..] == NatToString(-i);
    } else {
      NatRoundTrip(i);
      assert i == 0 ==> s == "0";
    }
  }

  /** Whatever reads as an integer is that integer's `String` spelling. */
  lemma IntCanonical(s: string, i: int)
    requires ParseInt(s) == Some(i)
    ensures IntToString(i) == s
  {
    if |s| > 0 && s[0] == '-' {
      var v := DigitsValue(s[1..]);
      NatCanonical(s[1..]);
      assert IntToString(i) == "-" + NatToString(v);
      assert "-" + s[1..] == s;
    } else {
      NatCanonical(s);
    }
  }

  lemma {:induction false} SplitWord(a: string)
    requires HasNoSpace(a)
    ensures Split(a) == [a]
  {
    if |a| > 0 {
      assert HasNoSpace(a[1..]);
      SplitWord(a[1..]);
      assert a[0] != ' ';
      assert [a[0]] + a[1..] == a;
    }
  }

  lemma {:induction false} SplitJoin(a: string, b: string)
    requires HasNoSpace(a)
    ensures Split(a + " " + b) == [a] + Split(b)
  {
    if |a| == 0 {
      assert a + " " + b == [' '] + b;
      assert ([' '] + b)[1..] == b;
    } else {
      var s := a + " " + b;
      assert HasNoSpace(a[1..]);
      SplitJoin(a[1..], b);
      assert s[0] == a[0] && a[0] != ' ';
      assert s[1..] == a[1..] + " " + b;
      assert Split(s[1..]) == [a[1..]] + Split(b);
      assert [a[0]] + a[1..] == a;
    }
  }

  /** Gluing a character onto the first word glues it onto the joined text. */
  lemma JoinCons(c: char, rest: seq<string>)
    requires |rest| >= 1
    ensures Join([[c] + rest[0]] + rest[1..]) == [c] + Join(rest)
  {
    var w := [[c] + rest[0]] + rest[1..];
    if |rest| > 1 {
      assert w[1..] == rest[1..];
    }
  }

  /** Joining the words of a text with single spaces gives the text back. */
  lemma {:induction false} JoinSplit(s: string)
    ensures Join(Split(s)) == s
    decreases |s|
  {
    if |s| == 0 {
    } else if s[0] == ' ' {
      JoinSplit(s[1..]);
      assert ([""] + Split(s[1..]))[1..] == Split(s[1..]);
      assert "" + " " + s[1..] == s;
    } else {
      JoinSplit(s[1..]);
      JoinCons(s[0], Split(s[1..]));
      assert [s[0]] + s[1..] == s;
    }
  }

  /** Reading a rendered label gives the label back. */
  lemma ParseRender(l: Label)
    ensures ParseLabel(Render(l)) == Some(l)
  {
    match l
    case Minutes(n) =>
      IntRoundTrip(n);
    case HoursMinutes(h, m) =>
      IntRoundTrip(h);
      IntRoundTrip(m);
  }

  lemma JoinTwo(w: seq<string>)
    requires |w| == 2
    ensures Join(w) == w[0] + " " + w[1]
  {
    assert Join(w[1..]) == w[1];
  }

  lemma JoinFour(w: seq<string>)
    requires |w| == 4
    ensures w[1] == "hr" ==> Join(w) == w[0] + " hr " + w[2] + " " + w[3]
  {
    assert w[1..][1..] == w[2..] && w[2..][1..] == w[3..];
    assert Join(w[3..]) == w[3];
    assert Join(w[1..]) == w[1] + " " + (w[2] + " " + w[3]);
  }

  /** A text that reads as a label is exactly that label's rendering: no
      other spelling (a leading zero, "-0", extra spaces) is accepted. */
  lemma ParsedIsRendered(s: string, l: Label)
    requires ParseLabel(s) == Some(l)
    ensures s == Render(l)
  {
    var w := Split(s);
    JoinSplit(s);
    if |w| == 2 && w[1] == "min" {
      JoinTwo(w);
      IntCanonical(w[0], l.count);
    } else {
      JoinFour(w);
      IntCanonical(w[0], l.hours);
      IntCanonical(w[2], l.rest);
    }
  }

  /** Different labels never render to the same text. */
  lemma RenderInjective(a: Label, b: Label)
    requires Render(a) == Render(b)
    ensures a == b
  {
    ParseRender(a);
    ParseRender(b);
  }
}
