/** The string operations the Python code relies on, with the inverse laws between them. */
module Text {
  import opened Prelude

  // ----- joining and splitting on a separator -----

  function Join(parts: seq<string>, sep: char): string {
    if parts == [] then ""
    else if |parts| == 1 then parts[0]
    else parts[0] + [sep] + Join(parts[1..], sep)
  }

  function Split(s: string, sep: char): (parts: seq<string>)
    ensures parts != []
    ensures forall p :: p in parts ==> sep !in p
  {
    if s == "" then [""]
    else
      var rest := Split(s[1..], sep);
      if s[0] == sep then [""] + rest else [[s[0]] + rest[0]] + rest[1..]
  }

  lemma {:induction false} SplitFirst(part: string, rest: string, sep: char)
    requires sep !in part
    ensures Split(part, sep) == [part]
    ensures Split(part + [sep] + rest, sep) == [part] + Split(rest, sep)
  {
    if part == "" {
      assert (part + [sep] + rest)[1..] == rest;
    } else {
      SplitFirst(part[1..], rest, sep);
      assert (part + [sep] + rest)[1..] == part[1..] + [sep] + rest;
      assert part == [part[0]] + part[1..];
    }
  }

  /** Splitting inverts joining when no part holds the separator. */
  lemma {:induction false} SplitJoin(parts: seq<string>, sep: char)
    requires parts != []
    requires forall p :: p in parts ==> sep !in p
    ensures Split(Join(parts, sep), sep) == parts
  {
    if |parts| == 1 {
      SplitFirst(parts[0], "", sep);
    } else {
      SplitJoin(parts[1..], sep);
      SplitFirst(parts[0], Join(parts[1..], sep), sep);
    }
  }

  lemma {:induction false} JoinAppend(parts: seq<string>, last: string, sep: char)
    requires parts != []
    ensures Join(parts + [last], sep) == Join(parts, sep) + [sep] + last
  {
    if |parts| == 1 {
      assert (parts + [last])[1..] == [last];
    } else {
      JoinAppend(parts[1..], last, sep);
      assert (parts + [last])[1..] == parts[1..] + [last];
    }
  }

  /** What follows the last separator. */
  lemma {:induction false} SplitLast(prefix: string, last: string, sep: char)
    requires sep !in last
    ensures var parts := Split(prefix + [sep] + last, sep); parts[|parts| - 1] == last
  {
    var s := prefix + [sep] + last;
    if prefix == "" {
      assert s[1..] == last;
      SplitFirst(last, "", sep);
    } else {
      SplitLast(prefix[1..], last, sep);
      assert s[1..] == prefix[1..] + [sep] + last;
      if s[0] != sep && |Split(s[1..], sep)| == 1 {
        SeparatorSplits(prefix[1..], last, sep);
      }
    }
  }

  lemma {:induction false} SeparatorSplits(prefix: string, last: string, sep: char)
    ensures |Split(prefix + [sep] + last, sep)| > 1
  {
    var s := prefix + [sep] + last;
    if prefix != "" {
      SeparatorSplits(prefix[1..], last, sep);
      assert s[1..] == prefix[1..] + [sep] + last;
    } else {
      assert s[1..] == last;
    }
  }

  // ----- cutting at the first or the last separator -----

  /** str.partition: around the first separator. */
  function CutFirst(s: string, sep: char): (r: Option<(string, string)>)
    ensures r.None? <==> sep !in s
    ensures r.Some? ==> s == r.value.0 + [sep] + r.value.1 && sep !in r.value.0
  {
    if s == "" then None
    else if s[0] == sep then Some(("", s[1..]))
    else
      match CutFirst(s[1..], sep)
      case None => None
      case Some((before, after)) => Some(([s[0]] + before, after))
  }

  lemma CutFirstOf(before: string, after: string, sep: char)
    requires sep !in before
    ensures CutFirst(before + [sep] + after, sep) == Some((before, after))
  {
    var s := before + [sep] + after;
    var (b, a) := CutFirst(s, sep).value;
    assert s[|before|] == sep && s[|b|] == sep;
    if |b| < |before| {
      NotEarlier(before, after, sep, |b|);
    } else if |before| < |b| {
      NotEarlier(b, a, sep, |before|);
    } else {
      assert b == s[..|b|] == before && a == s[|b| + 1..] == after;
    }
  }

  lemma NotEarlier(before: string, after: string, sep: char, i: int)
    requires sep !in before && 0 <= i < |before|
    ensures (before + [sep] + after)[i] != sep
  {
    assert (before + [sep] + after)[i] == before[i];
  }

  /** str.rpartition: around the last separator. */
  function CutLast(s: string, sep: char): (r: Option<(string, string)>)
    ensures r.None? <==> sep !in s
    ensures r.Some? ==> s == r.value.0 + [sep] + r.value.1 && sep !in r.value.1
  {
    if s == "" then None
    else if s[|s| - 1] == sep then Some((s[..|s| - 1], ""))
    else
      match CutLast(s[..|s| - 1], sep)
      case None => None
      case Some((before, after)) => Some((before, after + [s[|s| - 1]]))
  }

  lemma NoneAfter(before: string, after: string, sep: char, i: int)
    requires sep !in after && |before| < i < |before| + 1 + |after|
    ensures (before + [sep] + after)[i] != sep
  {
    assert (before + [sep] + after)[i] == after[i - |before| - 1];
  }

  lemma CutLastOf(before: string, after: string, sep: char)
    requires sep !in after
    ensures CutLast(before + [sep] + after, sep) == Some((before, after))
  {
    var s := before + [sep] + after;
    var (b, a) := CutLast(s, sep).value;
    assert s[|before|] == sep && s[|b|] == sep;
    if |b| < |before| {
      NoneAfter(b, a, sep, |before|);
    } else if |b| > |before| {
      NoneAfter(before, after, sep, |b|);
    } else {
      assert b == s[..|b|] == before && a == s[|b| + 1..] == after;
    }
  }

  // ----- trimming and removing one character -----

  function TrimLeft(s: string, c: char): string {
    if s != "" && s[0] == c then TrimLeft(s[1..], c) else s
  }

  function TrimRight(s: string, c: char): string {
    if s != "" && s[|s| - 1] == c then TrimRight(s[..|s| - 1], c) else s
  }

  function Trim(s: string, c: char): string {
    TrimRight(TrimLeft(s, c), c)
  }

  predicate AllOf(s: string, c: char) {
    forall i :: 0 <= i < |s| ==> s[i] == c
  }

  lemma {:induction false} TrimLeftPads(pad: string, s: string, c: char)
    requires AllOf(pad, c) && TrimLeft(s, c) == s
    ensures TrimLeft(pad + s, c) == s
  {
    if pad == "" {
      assert pad + s == s;
    } else {
      TrimLeftPads(pad[1..], s, c);
      assert (pad + s)[1..] == pad[1..] + s;
    }
  }

  lemma {:induction false} TrimRightPads(s: string, pad: string, c: char)
    requires AllOf(pad, c) && TrimRight(s, c) == s
    ensures TrimRight(s + pad, c) == s
  {
    if pad == "" {
      assert s + pad == s;
    } else {
      TrimRightPads(s, pad[..|pad| - 1], c);
      assert (s + pad)[..|s + pad| - 1] == s + pad[..|pad| - 1];
    }
  }

  /** Trimming takes away exactly the characters of this kind around the text. */
  lemma TrimPads(left: string, s: string, right: string, c: char)
    requires AllOf(left, c) && AllOf(right, c)
    requires s != "" && s[0] != c && s[|s| - 1] != c
    ensures Trim(left + s + right, c) == s
  {
    assert left + s + right == left + (s + right) && (s + right)[0] == s[0];
    TrimLeftPads(left, s + right, c);
    TrimRightPads(s, right, c);
  }

  function Remove(s: string, c: char): (r: string)
    ensures c !in r
    ensures forall x :: x in r ==> x in s
    ensures c !in s ==> r == s
  {
    if s == "" then ""
    else if s[0] == c then Remove(s[1..], c)
    else
      assert s == [s[0]] + s[1..];
      [s[0]] + Remove(s[1..], c)
  }

  // ----- white space, as str.strip sees it -----

  predicate IsSpace(c: char) {
    || '\t' <= c <= '\r' || '\U{1C}' <= c <= ' ' || c == '\U{85}' || c == '\U{A0}' || c == '\U{1680}'
    || '\U{2000}' <= c <= '\U{200A}' || c == '\U{2028}' || c == '\U{2029}' || c == '\U{202F}'
    || c == '\U{205F}' || c == '\U{3000}'
  }

  /** The characters that str.isspace accepts, by their codes. */
  lemma SpacesAre(c: char)
    ensures IsSpace(c) <==>
              var code := c as int;
              || 0x09 <= code <= 0x0D || 0x1C <= code <= 0x20 || 0x2000 <= code <= 0x200A
              || code in {0x85, 0xA0, 0x1680, 0x2028, 0x2029, 0x202F, 0x205F, 0x3000}
  {
  }

  function StripLeft(s: string): (r: string)
    ensures r != "" ==> !IsSpace(r[0])
  {
    if s != "" && IsSpace(s[0]) then StripLeft(s[1..]) else s
  }

  function StripRight(s: string): (r: string)
    ensures r != "" ==> !IsSpace(r[|r| - 1])
    ensures r <= s
  {
    if s != "" && IsSpace(s[|s| - 1]) then StripRight(s[..|s| - 1]) else s
  }

  function Strip(s: string): (r: string)
    ensures r != "" ==> !IsSpace(r[0]) && !IsSpace(r[|r| - 1])
  {
    StripRight(StripLeft(s))
  }

  lemma StripIsIdentity(s: string)
    requires Stripped(s)
    ensures Strip(s) == s
  {
  }

  predicate AllSpace(s: string) {
    forall c :: c in s ==> IsSpace(c)
  }

  predicate Stripped(s: string) {
    s != "" ==> !IsSpace(s[0]) && !IsSpace(s[|s| - 1])
  }

  lemma SpaceInFront(c: char, s: string)
    requires IsSpace(c)
    ensures StripLeft([c] + s) == StripLeft(s)
  {
    assert ([c] + s)[1..] == s;
  }

  lemma SpaceBehind(s: string, c: char)
    requires IsSpace(c)
    ensures StripRight(s + [c]) == StripRight(s)
  {
    assert (s + [c])[..|s|] == s;
  }

  lemma {:induction false} StripLeftPads(pad: string, s: string)
    requires (forall c :: c in pad ==> IsSpace(c)) && StripLeft(s) == s
    ensures StripLeft(pad + s) == s
  {
    if pad == "" {
      assert pad + s == s;
    } else {
      var c, rest := pad[0], pad[1..];
      StripLeftPads(rest, s);
      SpaceInFront(c, rest + s);
      assert pad + s == [c] + (rest + s);
    }
  }

  lemma {:induction false} StripRightPads(s: string, pad: string)
    requires (forall c :: c in pad ==> IsSpace(c)) && StripRight(s) == s
    ensures StripRight(s + pad) == s
  {
    if pad == "" {
      assert s + pad == s;
    } else {
      var rest, c := pad[..|pad| - 1], pad[|pad| - 1];
      StripRightPads(s, rest);
      SpaceBehind(s + rest, c);
      assert s + pad == (s + rest) + [c];
    }
  }

  /** Stripping takes away exactly the white space around the text. */
  lemma StripPads(left: string, s: string, right: string)
    requires AllSpace(left) && AllSpace(right) && Stripped(s)
    ensures Strip(left + s + right) == s
  {
    if s == "" {
      assert left + s + right == (left + right) + "";
      StripLeftPads(left + right, "");
    } else {
      StrippedEnds(s, right);
      assert left + s + right == left + (s + right);
      StripLeftPads(left, s + right);
      StripRightPads(s, right);
    }
  }

  lemma StrippedEnds(s: string, right: string)
    requires s != "" && Stripped(s)
    ensures StripLeft(s + right) == s + right && StripRight(s) == s
  {
    assert (s + right)[0] == s[0];
  }

  // ----- decimal numerals -----

  predicate IsDigit(c: char) {
    '0' <= c <= '9'
  }

  predicate AllDigits(s: string) {
    s != "" && forall i :: 0 <= i < |s| ==> IsDigit(s[i])
  }

  function DigitChar(d: nat): char
    requires d < 10
  {
    ('0' as int + d) as char
  }

  function DigitValue(c: char): nat
    requires IsDigit(c)
  {
    c as int - '0' as int
  }

  /** str(n) for a non-negative n. */
  function Digits(n: nat): (s: string)
    ensures AllDigits(s)
  {
    if n < 10 then [DigitChar(n)] else Digits(n / 10) + [DigitChar(n % 10)]
  }

  /** What stands in front of one underscore at the end, if anything does. */
  function WithoutUnderscore(s: string): (r: string)
    ensures |r| <= |s| && (s != "" ==> r != "")
  {
    if |s| > 1 && s[|s| - 1] == '_' then s[..|s| - 1] else s
  }

  /** Unsigned part of int(s): digits, with single underscores allowed between digits. */
  function ParseUnsigned(s: string): Option<int> {
    if s == "" || !IsDigit(s[|s| - 1]) then None
    else
      var last := DigitValue(s[|s| - 1]);
      if |s| == 1 then Some(last)
      else
        match ParseUnsigned(WithoutUnderscore(s[..|s| - 1]))
        case None => None
        case Some(n) => Some(10 * n + last)
  }

  /** int(s) on text: surrounding white space, an optional sign, then digits. */
  function ParseInt(text: string): Option<int> {
    var s := Strip(text);
    if s == "" then None
    else if s[0] == '-' then
      match ParseUnsigned(s[1..]) case None => None case Some(n) => Some(-n)
    else
      match ParseUnsigned(if s[0] == '+' then s[1..] else s) case None => None case Some(n) => Some(n)
  }

  /** A string of digits denotes a number, whatever zeros it starts with. */
  lemma {:induction false} ParseDigitString(s: string)
    requires AllDigits(s)
    ensures ParseUnsigned(s).Some? && ParseUnsigned(s).value >= 0
  {
    if |s| > 1 {
      ParseDigitString(s[..|s| - 1]);
      assert IsDigit(s[|s| - 2]);
    }
  }

  lemma {:induction false} ParseUnsignedDigits(n: nat)
    ensures ParseUnsigned(Digits(n)) == Some(n)
  {
    if n >= 10 {
      ParseUnsignedDigits(n / 10);
      var s := Digits(n);
      assert s[..|s| - 1] == Digits(n / 10);
      assert |s| > 2 ==> IsDigit(s[|s| - 2]);
    }
  }

  lemma DigitsStripped(s: string)
    requires AllDigits(s)
    ensures Stripped(s) && Strip(s) == s
  {
    assert IsDigit(s[0]) && IsDigit(s[|s| - 1]);
    DigitIsNoSpace(s[0]);
    DigitIsNoSpace(s[|s| - 1]);
    StripIsIdentity(s);
  }

  lemma DigitIsNoSpace(c: char)
    requires IsDigit(c)
    ensures !IsSpace(c)
  {
  }

  /** Parsing inverts printing. */
  lemma ParseIntDigits(n: nat)
    ensures ParseInt(Digits(n)) == Some(n)
  {
    var s := Digits(n);
    DigitsStripped(s);
    ParseUnsignedDigits(n);
    assert IsDigit(s[0]);
  }

  lemma {:induction false} NumeralsStartWithDigits(s: string)
    requires ParseUnsigned(s).Some?
    ensures s != "" && IsDigit(s[0])
  {
    if |s| > 1 {
      NumeralsStartWithDigits(WithoutUnderscore(s[..|s| - 1]));
    }
  }

  lemma ParseIntNegative(s: string, n: int)
    requires s != "" && s[0] == '-' && Stripped(s) && ParseUnsigned(s[1..]) == Some(n)
    ensures ParseInt(s) == Some(-n)
  {
    StripIsIdentity(s);
  }

  lemma {:induction false} OneMoreDigit(t: string, d: char)
    requires t != "" && IsDigit(d)
    ensures ParseUnsigned(t + [d]) ==
            match ParseUnsigned(WithoutUnderscore(t))
            case None => None
            case Some(n) => Some(10 * n + DigitValue(d))
  {
    assert (t + [d])[..|t|] == t;
  }

  lemma {:induction false} NumeralsEndInDigits(s: string)
    requires ParseUnsigned(s).Some?
    ensures s != "" && IsDigit(s[|s| - 1])
  {
  }

  /** A single underscore between digits changes nothing. */
  lemma {:induction false} UnderscoreIgnored(s: string, d: char)
    requires ParseUnsigned(s).Some? && IsDigit(d)
    ensures ParseUnsigned(s + ['_'] + [d]) == ParseUnsigned(s + [d])
  {
    NumeralsEndInDigits(s);
    OneMoreDigit(s, d);
    OneMoreDigit(s + ['_'], d);
    assert (s + ['_'])[..|s|] == s;
  }

  /** Nor does a plus sign in front. */
  lemma PlusSign(digits: string)
    requires AllDigits(digits)
    ensures ParseInt("+" + digits) == ParseUnsigned(digits)
  {
    var s := "+" + digits;
    assert s[1..] == digits && IsDigit(digits[|digits| - 1]) && s[|s| - 1] == digits[|digits| - 1];
    DigitIsNoSpace(s[|s| - 1]);
    StripIsIdentity(s);
  }

  lemma {:induction false} NoLeadingZero(n: nat)
    ensures n > 0 ==> Digits(n)[0] != '0'
    ensures n == 0 ==> Digits(n) == "0"
  {
    if n >= 10 {
      NoLeadingZero(n / 10);
    }
  }

  lemma DigitsSnoc(m: nat, d: char)
    requires m > 0 && IsDigit(d)
    ensures Digits(10 * m + DigitValue(d)) == Digits(m) + [d]
  {
    var n := 10 * m + DigitValue(d);
    assert n >= 10 && n / 10 == m && n % 10 == DigitValue(d);
    assert DigitChar(DigitValue(d)) == d;
  }

  lemma OneDigit(d: char)
    requires IsDigit(d)
    ensures Digits(DigitValue(d)) == [d] && ParseUnsigned([d]) == Some(DigitValue(d))
  {
    assert DigitChar(DigitValue(d)) == d;
  }

  /** A string of digits is some zeros and the numeral of its value. */
  lemma {:induction false} ZerosThenNumeral(s: string) returns (zeros: string, n: nat)
    requires AllDigits(s)
    ensures AllOf(zeros, '0') && s == zeros + Digits(n) && ParseUnsigned(s) == Some(n)
    decreases |s|, 0
  {
    var init, last := s[..|s| - 1], s[|s| - 1];
    assert s == init + [last] && IsDigit(last);
    OneDigit(last);
    if init == "" {
      zeros, n := "", DigitValue(last);
    } else {
      assert forall i :: 0 <= i < |init| ==> init[i] == s[i];
      zeros, n := MoreDigits(init, last);
    }
  }

  lemma {:induction false} MoreDigits(init: string, last: char) returns (zeros: string, n: nat)
    requires AllDigits(init) && IsDigit(last)
    ensures AllOf(zeros, '0') && init + [last] == zeros + Digits(n) && ParseUnsigned(init + [last]) == Some(n)
    decreases |init|, 1
  {
    var m;
    zeros, m := ZerosThenNumeral(init);
    assert IsDigit(init[|init| - 1]);
    OneMoreDigit(init, last);
    n := 10 * m + DigitValue(last);
    if m == 0 {
      NoLeadingZero(0);
      OneDigit(last);
      zeros := init;
    } else {
      DigitsSnoc(m, last);
      Associative(zeros, Digits(m), [last]);
    }
  }

  // ----- case -----

  function LowerChar(c: char): char {
    if 'A' <= c <= 'Z' then (c as int + 32) as char else c
  }

  function Lower(s: string): (r: string)
    ensures |r| == |s| && forall i :: 0 <= i < |s| ==> r[i] == LowerChar(s[i])
  {
    if s == "" then "" else [LowerChar(s[0])] + Lower(s[1..])
  }

  // ----- order -----

  /** Code-point order on strings. */
  predicate LexLeq(a: string, b: string) {
    a == "" || (b != "" && (a[0] < b[0] || (a[0] == b[0] && LexLeq(a[1..], b[1..]))))
  }

  lemma LexTotal(a: string, b: string)
    ensures LexLeq(a, b) || LexLeq(b, a)
  {
  }

  lemma LexTransitive(a: string, b: string, c: string)
    requires LexLeq(a, b) && LexLeq(b, c)
    ensures LexLeq(a, c)
  {
  }

  predicate DifferFirstAt(a: string, b: string, i: nat) {
    i < |a| && i < |b| && a[..i] == b[..i] && a[i] != b[i]
  }

  /** A prefix comes first; otherwise the first character that differs decides. */
  lemma {:induction false} LexIff(a: string, b: string)
    ensures LexLeq(a, b) <==> a <= b || exists i: nat :: DifferFirstAt(a, b, i) && a[i] < b[i]
  {
    if a != "" && b != "" {
      if a[0] != b[0] {
        assert DifferFirstAt(a, b, 0);
      } else {
        LexIff(a[1..], b[1..]);
        assert a == [a[0]] + a[1..] && b == [b[0]] + b[1..];
        forall i: nat | DifferFirstAt(a[1..], b[1..], i) ensures DifferFirstAt(a, b, i + 1) {
          DifferLater(a, b, i);
        }
        forall i: nat | DifferFirstAt(a, b, i) ensures i > 0 && DifferFirstAt(a[1..], b[1..], i - 1) {
          DifferLater(a, b, i - 1);
        }
      }
    }
  }

  lemma DifferLater(a: string, b: string, i: nat)
    requires a != "" && b != "" && a[0] == b[0]
    ensures DifferFirstAt(a[1..], b[1..], i) <==> DifferFirstAt(a, b, i + 1)
  {
    if i < |a| - 1 && i < |b| - 1 {
      assert a[..i + 1] == [a[0]] + a[1..][..i] && b[..i + 1] == [b[0]] + b[1..][..i];
      assert a[..i + 1][1..] == a[1..][..i] && b[..i + 1][1..] == b[1..][..i];
    }
  }

  // ----- prefixes -----

  predicate StartsWith(s: string, prefix: string) {
    |prefix| <= |s| && s[..|prefix|] == prefix
  }

  lemma PrefixOfConcat(prefix: string, rest: string)
    ensures StartsWith(prefix + rest, prefix)
    ensures (prefix + rest)[|prefix|..] == rest
  {
  }

  lemma FirstCharDiffers(s: string, prefix: string)
    requires s != "" && prefix != "" && s[0] != prefix[0]
    ensures !StartsWith(s, prefix)
  {
  }

  // ----- cutting at a separator of several characters -----

  /** str.partition and str.split(sep, 1): around the first occurrence of the separator. */
  function CutAt(s: string, sep: string): (r: Option<(string, string)>)
    ensures r.Some? ==> s == r.value.0 + sep + r.value.1
  {
    if StartsWith(s, sep) then Some(("", s[|sep|..]))
    else if s == "" then None
    else
      match CutAt(s[1..], sep)
      case None => None
      case Some((before, after)) => Some(([s[0]] + before, after))
  }

  lemma DropFirst(a: string, b: string, c: string)
    requires a != ""
    ensures (a + b + c)[1..] == a[1..] + b + c && (a + b + c)[0] == a[0] && [a[0]] + a[1..] == a && a + b + c != ""
  {
  }

  lemma {:induction false} CutAtOf(before: string, sep: string, after: string)
    requires NoneBefore(before, sep)
    ensures CutAt(before + sep + after, sep) == Some((before, after))
  {
    if before == "" {
      assert before + sep + after == sep + after;
      PrefixOfConcat(sep, after);
    } else {
      DropFirst(before, sep, after);
      NoneBeforeRest(before, sep);
      CutAtOf(before[1..], sep, after);
      NoneAtFront(before, sep, after);
    }
  }

  /** The separator behind this text is the first one. */
  predicate NoneBefore(before: string, sep: string) {
    forall i :: 0 <= i < |before| ==> !StartsWith((before + sep)[i..], sep)
  }

  lemma NoneBeforeRest(before: string, sep: string)
    requires before != "" && NoneBefore(before, sep)
    ensures NoneBefore(before[1..], sep)
  {
    forall i | 0 <= i < |before| - 1 ensures !StartsWith((before[1..] + sep)[i..], sep) {
      assert (before[1..] + sep)[i..] == (before + sep)[i + 1..];
    }
  }

  lemma NoneAtFront(before: string, sep: string, after: string)
    requires before != "" && NoneBefore(before, sep)
    ensures !StartsWith(before + sep + after, sep)
  {
    assert (before + sep)[0..] == before + sep;
    assert (before + sep + after)[..|sep|] == (before + sep)[..|sep|];
  }

  lemma NoneBeforeFirstChar(before: string, sep: string)
    requires sep != "" && sep[0] !in before
    ensures NoneBefore(before, sep)
  {
    forall i | 0 <= i < |before| ensures !StartsWith((before + sep)[i..], sep) {
      assert (before + sep)[i..][0] == before[i];
    }
  }
}
