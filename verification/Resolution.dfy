/** Screen resolutions and their textual form. */
module Resolution {
  import opened Bytes

  datatype ScreenResolution = ScreenResolution(width: uint32, height: uint32)

  /** std::stoul with a 32-bit unsigned long. */
  datatype Number = Value(n: uint32) | InvalidArgument | OutOfRange

  datatype Parsed = Resolution(resolution: ScreenResolution) | NoDelimiter | NotANumber(why: Number)

  predicate IsDigit(c: char) {
    '0' <= c <= '9'
  }

  predicate IsSpace(c: char) {
    c == ' ' || c == '\t' || c == '\n' || c == '\r' || c as int == 11 || c as int == 12
  }

  function DigitChar(d: nat): (c: char)
    requires d < 10
    ensures IsDigit(c) && DigitValue(c) == d
  {
    '0' + d as char
  }

  function DigitValue(c: char): (d: nat)
    requires IsDigit(c)
    ensures d < 10
  {
    c as int - '0' as int
  }

  /** std::to_string */
  function Decimal(n: nat): (s: string)
    ensures |s| > 0 && forall c <- s :: IsDigit(c)
  {
    if n < 10 then [DigitChar(n)] else Decimal(n / 10) + [DigitChar(n % 10)]
  }

  function ToString(r: ScreenResolution): string {
    Decimal(r.width) + "x" + Decimal(r.height)
  }

  function LeadingDigits(s: string): (k: nat)
    ensures k <= |s| && (forall i :: 0 <= i < k ==> IsDigit(s[i])) && (k < |s| ==> !IsDigit(s[k]))
  {
    if s == "" || !IsDigit(s[0]) then 0 else 1 + LeadingDigits(s[1..])
  }

  function Numeral(s: string): nat
    requires forall i :: 0 <= i < |s| ==> IsDigit(s[i])
  {
    if s == "" then 0 else 10 * Numeral(s[..|s| - 1]) + DigitValue(s[|s| - 1])
  }

  function SkipSpaces(s: string): string {
    if s != "" && IsSpace(s[0]) then SkipSpaces(s[1..]) else s
  }

  function Digits(s: string): Number {
    var k := LeadingDigits(s);
    var n := Numeral(s[..k]);
    if k == 0 then InvalidArgument
    else if n >= U32 then OutOfRange
    else Value(n)
  }

  function Negated(n: Number): Number {
    if n.Value? then Value((U32 - n.n) % U32) else n
  }

  function Stoul(text: string): Number {
    var s := SkipSpaces(text);
    if s != "" && s[0] == '-' then Negated(Digits(s[1..]))
    else if s != "" && s[0] == '+' then Digits(s[1..])
    else Digits(s)
  }

  function LastIndexOf(s: string, c: char): (i: int)
    ensures -1 <= i < |s| && (i >= 0 ==> s[i] == c)
    ensures forall j :: i < j < |s| ==> s[j] != c
  {
    if s == "" then -1
    else if s[|s| - 1] == c then |s| - 1
    else LastIndexOf(s[..|s| - 1], c)
  }

  function Parse(s: string): Parsed {
    var delimiter := LastIndexOf(s, 'x');
    if delimiter < 0 then NoDelimiter
    else
      var width, height := Stoul(s[..delimiter]), Stoul(s[delimiter + 1..]);
      if !width.Value? then NotANumber(width)
      else if !height.Value? then NotANumber(height)
      else Resolution(ScreenResolution(width.n, height.n))
  }

  /** What isspace takes for a space: blanks and the control characters from tab to carriage return. */
  lemma SpacesAre(c: char)
    ensures IsSpace(c) <==> c as int == 32 || 9 <= c as int <= 13
  {
  }

  /** Numbers are printed without leading noughts. */
  lemma {:induction false} NoLeadingNought(n: nat)
    ensures Decimal(n)[0] == '0' <==> n == 0
    ensures n == 0 ==> Decimal(n) == "0"
  {
    if n >= 10 {
      NoLeadingNought(n / 10);
    }
  }

  lemma {:induction false} NumeralOfDecimal(n: nat)
    ensures Numeral(Decimal(n)) == n
  {
    if n >= 10 {
      NumeralOfDecimal(n / 10);
      assert Decimal(n)[..|Decimal(n)| - 1] == Decimal(n / 10);
    } else {
      assert Numeral(Decimal(n)[..0]) == 0;
    }
  }

  lemma LeadingDigitsAre(s: string, k: nat)
    requires k <= |s| && (forall i :: 0 <= i < k ==> IsDigit(s[i])) && (k < |s| ==> !IsDigit(s[k]))
    ensures LeadingDigits(s) == k
  {
    var l := LeadingDigits(s);
  }

  /** A printed number is read back whatever follows it, as long as that is not another digit. */
  lemma StoulOfDecimal(n: uint32, t: string)
    requires t == "" || !IsDigit(t[0])
    ensures Stoul(Decimal(n) + t) == Value(n)
  {
    var s := Decimal(n) + t;
    assert IsDigit(s[0]);
    LeadingDigitsAre(s, |Decimal(n)|);
    assert s[..|Decimal(n)|] == Decimal(n);
    NumeralOfDecimal(n);
  }

  lemma LastIndexIs(s: string, c: char, i: nat)
    requires i < |s| && s[i] == c && forall j :: i < j < |s| ==> s[j] != c
    ensures LastIndexOf(s, c) == i
  {
    var l := LastIndexOf(s, c);
  }

  lemma Cut(a: string, b: string)
    ensures |a| < |a + "x" + b| && (a + "x" + b)[|a|] == 'x'
    ensures (a + "x" + b)[..|a|] == a
    ensures (a + "x" + b)[|a| + 1..] == b
  {
  }

  lemma ParseJoined(a: string, b: string)
    requires LastIndexOf(b, 'x') < 0 && Stoul(a).Value?
    ensures Parse(a + "x" + b) ==
              if Stoul(b).Value? then Resolution(ScreenResolution(Stoul(a).n, Stoul(b).n)) else NotANumber(Stoul(b))
  {
    Cut(a, b);
    LastIndexIs(a + "x" + b, 'x', |a|);
  }

  lemma NoLetter(n: nat, t: string)
    requires LastIndexOf(t, 'x') < 0
    ensures LastIndexOf(Decimal(n) + t, 'x') < 0
  {
    var l := LastIndexOf(Decimal(n) + t, 'x');
  }

  /** Text after the height that holds no 'x' and does not start with a digit changes nothing. */
  lemma ParseOfPlainSuffix(r: ScreenResolution, t: string)
    requires (t == "" || !IsDigit(t[0])) && LastIndexOf(t, 'x') < 0
    ensures Parse(ToString(r) + t) == Resolution(r)
  {
    var w, h := Decimal(r.width), Decimal(r.height);
    StoulOfDecimal(r.width, "");
    assert w + "" == w;
    StoulOfDecimal(r.height, t);
    NoLetter(r.height, t);
    ParseJoined(w, h + t);
    Associate(w + "x", h, t);
  }

  lemma Associate(a: string, b: string, c: string)
    ensures (a + b) + c == a + (b + c)
  {
  }

  lemma Reassociate(w: string, h: string, before: string, after: string)
    ensures (w + "x" + h) + (before + "x" + after) == (w + ("x" + (h + before))) + "x" + after
  {
  }

  lemma SplitAtLast(t: string)
    requires LastIndexOf(t, 'x') >= 0
    ensures var last := LastIndexOf(t, 'x');
            t == t[..last] + "x" + t[last + 1..] && LastIndexOf(t[last + 1..], 'x') < 0
  {
    var later := LastIndexOf(t[LastIndexOf(t, 'x') + 1..], 'x');
  }

  /** A later 'x' moves the split: the width survives, the height is read from what follows that 'x'. */
  lemma ParseOfSplitSuffix(r: ScreenResolution, before: string, after: string)
    requires LastIndexOf(after, 'x') < 0
    ensures Parse(ToString(r) + (before + "x" + after)) == Resolution(r) <==> Stoul(after) == Value(r.height)
  {
    var w, between := Decimal(r.width), "x" + (Decimal(r.height) + before);
    StoulOfDecimal(r.width, between);
    ParseJoined(w + between, after);
    Reassociate(w, Decimal(r.height), before, after);
  }

  /** Text without an 'x' is refused, and only that for want of one. */
  lemma NoDelimiterIff(s: string)
    ensures Parse(s) == NoDelimiter <==> 'x' !in s
  {
    var last := LastIndexOf(s, 'x');
    if last < 0 {
      assert forall j :: 0 <= j < |s| ==> s[j] != 'x';
    }
  }

  /** Otherwise what stands before the last 'x' is read as the width and what follows it as the height; if either is no
      number that fits, that is why the text is refused, the width's failure coming first. */
  lemma ParseAround(a: string, b: string)
    requires 'x' !in b
    ensures Parse(a + "x" + b) ==
              if !Stoul(a).Value? then NotANumber(Stoul(a))
              else if !Stoul(b).Value? then NotANumber(Stoul(b))
              else Resolution(ScreenResolution(Stoul(a).n, Stoul(b).n))
  {
    Cut(a, b);
    LastIndexIs(a + "x" + b, 'x', |a|);
  }

  lemma {:induction false} SpacesSkipped(spaces: string, s: string)
    requires (forall c <- spaces :: IsSpace(c)) && (s == "" || !IsSpace(s[0]))
    ensures SkipSpaces(spaces + s) == s
  {
    if spaces == "" {
      assert spaces + s == s;
    } else {
      assert spaces[0] in spaces;
      assert (spaces + s)[1..] == spaces[1..] + s;
      SpacesSkipped(spaces[1..], s);
    }
  }

  lemma SignedIsNoSpace(sign: string, n: nat)
    requires sign == "" || sign == "+" || sign == "-"
    ensures var s := sign + Decimal(n); !IsSpace(s[0]) && SkipSpaces(s) == s
  {
    assert IsDigit(Decimal(n)[0]);
    assert (sign + Decimal(n))[0] == if sign == "" then Decimal(n)[0] else sign[0];
  }

  lemma DigitsOfDecimal(n: nat)
    ensures Digits(Decimal(n)) == if n >= U32 then OutOfRange else Value(n)
  {
    LeadingDigitsAre(Decimal(n), |Decimal(n)|);
    assert Decimal(n)[..|Decimal(n)|] == Decimal(n);
    NumeralOfDecimal(n);
  }

  lemma StoulOfSign(sign: string, n: nat)
    requires sign == "" || sign == "+" || sign == "-"
    ensures Stoul(sign + Decimal(n)) ==
              if n >= U32 then OutOfRange
              else if sign == "-" && n > 0 then Value(U32 - n)
              else Value(n)
  {
    SignedIsNoSpace(sign, n);
    DigitsOfDecimal(n);
    if sign == "" {
      assert sign + Decimal(n) == Decimal(n);
      assert IsDigit(Decimal(n)[0]);
    } else {
      assert (sign + Decimal(n))[1..] == Decimal(n);
    }
  }

  /** What stoul makes of a number in decimal, with spaces and a sign before it: a minus is taken modulo 2^32, and only
      the number itself must fit. */
  lemma StoulOfSigned(spaces: string, sign: string, n: nat)
    requires (forall c <- spaces :: IsSpace(c)) && (sign == "" || sign == "+" || sign == "-")
    ensures Stoul(spaces + (sign + Decimal(n))) ==
              if n >= U32 then OutOfRange
              else if sign == "-" && n > 0 then Value(U32 - n)
              else Value(n)
  {
    SignedIsNoSpace(sign, n);
    SpacesSkipped(spaces, sign + Decimal(n));
    StoulOfSign(sign, n);
  }

  /** Without a digit after spaces and a sign there is no number. */
  lemma NoNumber(s: string)
    ensures Stoul(s) == InvalidArgument <==>
              var t := SkipSpaces(s);
              var u := if t != "" && (t[0] == '-' || t[0] == '+') then t[1..] else t;
              u == "" || !IsDigit(u[0])
  {
  }

  /** Parse inverts ToString. */
  lemma ParseOfToString(r: ScreenResolution)
    ensures Parse(ToString(r)) == Resolution(r)
  {
    ParseOfPlainSuffix(r, "");
    assert ToString(r) + "" == ToString(r);
  }

  /** More digits leave a number as it is only if it is 0 and they are, too. */
  lemma {:induction false} MoreDigits(a: string, b: string)
    requires forall i :: 0 <= i < |a + b| ==> IsDigit((a + b)[i])
    requires forall i :: 0 <= i < |a| ==> IsDigit(a[i])
    ensures Numeral(a + b) >= Numeral(a)
    ensures Numeral(a + b) == Numeral(a) <==> b == "" || (Numeral(a) == 0 && AllNoughts(b))
    decreases |b|
  {
    if b == "" {
      assert a + b == a;
    } else {
      var m := |b| - 1;
      assert (a + b)[..|a + b| - 1] == a + b[..m];
      assert (a + b)[|a + b| - 1] == b[m];
      assert forall i :: 0 <= i < |a + b[..m]| ==> (a + b[..m])[i] == (a + b)[i];
      MoreDigits(a, b[..m]);
      LastNought(b);
    }
  }

  predicate AllNoughts(s: string) {
    forall i :: 0 <= i < |s| ==> s[i] == '0'
  }

  lemma LastNought(s: string)
    requires s != ""
    ensures AllNoughts(s) <==> AllNoughts(s[..|s| - 1]) && s[|s| - 1] == '0'
  {
    if AllNoughts(s[..|s| - 1]) && s[|s| - 1] == '0' {
      forall i | 0 <= i < |s| ensures s[i] == '0' {
        assert i < |s| - 1 ==> s[..|s| - 1][i] == s[i];
      }
    }
  }

  lemma StoulOfDigits(s: string)
    requires s != "" && IsDigit(s[0])
    ensures var n := Numeral(s[..LeadingDigits(s)]); Stoul(s) == if n >= U32 then OutOfRange else Value(n)
  {
  }

  lemma DigitsOfLonger(a: string, t: string)
    requires forall i :: 0 <= i < |a| ==> IsDigit(a[i])
    ensures LeadingDigits(a + t) == |a| + LeadingDigits(t)
    ensures (a + t)[..LeadingDigits(a + t)] == a + t[..LeadingDigits(t)]
  {
    LeadingDigitsAre(a + t, |a| + LeadingDigits(t));
  }

  /** A printed number is read back exactly if no further digit follows it, or none but noughts a nought. */
  lemma StoulOfLonger(n: uint32, t: string)
    ensures var more := t[..LeadingDigits(t)];
            Stoul(Decimal(n) + t) == Value(n) <==> more == "" || (n == 0 && AllNoughts(more))
  {
    DigitsOfLonger(Decimal(n), t);
    StoulOfDigits(Decimal(n) + t);
    NumeralOfDecimal(n);
    MoreDigits(Decimal(n), t[..LeadingDigits(t)]);
  }

  /** Which text after the height leaves the result alone: if it holds an 'x', exactly that in which the last one is
      followed by that same height; otherwise exactly that which starts with no digit, or with noughts after a height
      of 0. */
  lemma SuffixKeepsResult(r: ScreenResolution, t: string)
    ensures Parse(ToString(r) + t) == Resolution(r) <==>
              var last, more := LastIndexOf(t, 'x'), t[..LeadingDigits(t)];
              if last >= 0 then Stoul(t[last + 1..]) == Value(r.height)
              else more == "" || (r.height == 0 && AllNoughts(more))
  {
    var last := LastIndexOf(t, 'x');
    if last < 0 {
      StoulOfDecimal(r.width, "");
      assert Decimal(r.width) + "" == Decimal(r.width);
      NoLetter(r.height, t);
      ParseJoined(Decimal(r.width), Decimal(r.height) + t);
      Associate(Decimal(r.width) + "x", Decimal(r.height), t);
      StoulOfLonger(r.height, t);
    } else {
      SplitAtLast(t);
      ParseOfSplitSuffix(r, t[..last], t[last + 1..]);
    }
  }
}
