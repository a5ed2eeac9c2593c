/** The `Range` header as the server reads it, and the one form of it the client writes. */
module HttpRange {
  import opened Prelude
  import opened Text

  datatype Window = WholeFile | Unsatisfiable | Between(start: int, end: int)

  /** A window lies inside the file; only that of an empty file can be empty. */
  predicate Inside(w: Window, total: nat) {
    w.Between? ==> 0 <= w.start && w.end < total && (total > 0 ==> w.start <= w.end)
  }

  function Clip(start: int, end: int, total: nat): (w: Window)
    ensures Inside(w, total)
  {
    if start < 0 || end < start || (total > 0 && start >= total) then Unsatisfiable
    else Between(start, if end >= total then total - 1 else end)
  }

  function ParseSpec(startText: string, endText: string, total: nat): (w: Window)
    ensures Inside(w, total)
  {
    if startText == "" && endText == "" then Unsatisfiable
    else if startText == "" then
      match ParseInt(endText)
      case None => Unsatisfiable
      case Some(suffix) =>
        if suffix <= 0 || total <= 0 then Unsatisfiable
        else Clip(if total > suffix then total - suffix else 0, total - 1, total)
    else if endText == "" then
      match ParseInt(startText)
      case None => Unsatisfiable
      case Some(start) => Clip(start, total - 1, total)
    else
      match (ParseInt(startText), ParseInt(endText))
      case (Some(start), Some(end)) => Clip(start, end, total)
      case _ => Unsatisfiable
  }

  function ParseAfterUnit(rest: string, total: nat): (w: Window)
    ensures Inside(w, total)
  {
    var spec := Strip(rest);
    if spec == "" || ',' in spec then Unsatisfiable
    else
      match CutFirst(spec, '-')
      case None => Unsatisfiable
      case Some((startText, endText)) => ParseSpec(startText, endText, total)
  }

  const UNIT := "bytes="

  function ParseRange(header: Option<string>, total: nat): (w: Window)
    ensures Inside(w, total)
  {
    if header.None? || header.value == "" then WholeFile
    else if !(|header.value| >= 6 && Lower(header.value[..6]) == UNIT) then Unsatisfiable
    else ParseAfterUnit(header.value[6..], total)
  }

  /** The unit, in any case, then the two halves around the hyphen, with white space around both. */
  function Header(unit: string, left: string, startText: string, endText: string, right: string): Option<string> {
    Some(unit + (left + (startText + "-" + endText) + right))
  }

  predicate IsNumeralOrEmpty(s: string) {
    s == "" || AllDigits(s)
  }

  lemma HeaderRead(unit: string, left: string, startText: string, endText: string, right: string, total: nat)
    requires |unit| == 6 && Lower(unit) == UNIT && AllSpace(left) && AllSpace(right)
    requires IsNumeralOrEmpty(startText) && IsNumeralOrEmpty(endText)
    ensures ParseRange(Header(unit, left, startText, endText, right), total) == ParseSpec(startText, endText, total)
  {
    var spec := startText + "-" + endText;
    SpecIsPlain(startText, endText, spec);
    StripPads(left, spec, right);
    SpecRead(left + spec + right, startText, endText, spec, total);
    UnitRead(unit, left + spec + right, total);
  }

  lemma UnitRead(unit: string, rest: string, total: nat)
    requires |unit| == 6 && Lower(unit) == UNIT
    ensures ParseRange(Some(unit + rest), total) == ParseAfterUnit(rest, total)
  {
    PrefixOfConcat(unit, rest);
  }

  lemma SpecRead(rest: string, startText: string, endText: string, spec: string, total: nat)
    requires Strip(rest) == spec == startText + "-" + endText && ',' !in spec && '-' !in startText
    ensures ParseAfterUnit(rest, total) == ParseSpec(startText, endText, total)
  {
    CutFirstOf(startText, endText, '-');
  }

  lemma SpecIsPlain(startText: string, endText: string, spec: string)
    requires IsNumeralOrEmpty(startText) && IsNumeralOrEmpty(endText) && spec == startText + "-" + endText
    ensures Stripped(spec) && ',' !in spec && '-' !in startText
  {
    forall i | 0 <= i < |spec| ensures IsDigit(spec[i]) || spec[i] == '-' {
      if i < |startText| {
        assert spec[i] == startText[i];
      } else if i > |startText| {
        assert spec[i] == endText[i - |startText| - 1];
      }
    }
  }

  function Least(a: int, b: int): int {
    if a <= b then a else b
  }

  /** Both ends given: from the first to the second, as far as the file goes; an empty file has an empty window. */
  lemma ClosedRange(unit: string, left: string, a: nat, b: nat, right: string, total: nat)
    requires |unit| == 6 && Lower(unit) == UNIT && AllSpace(left) && AllSpace(right)
    ensures ParseRange(Header(unit, left, Digits(a), Digits(b), right), total) ==
            if b < a || a >= total > 0 then Unsatisfiable else Between(a, Least(b, total - 1))
  {
    HeaderRead(unit, left, Digits(a), Digits(b), right, total);
    ParseIntDigits(a);
    ParseIntDigits(b);
  }

  /** Only the second half given: that many bytes from the end, or the whole file when it is shorter. */
  lemma SuffixRange(unit: string, left: string, n: nat, right: string, total: nat)
    requires |unit| == 6 && Lower(unit) == UNIT && AllSpace(left) && AllSpace(right)
    ensures ParseRange(Header(unit, left, "", Digits(n), right), total) ==
            if n == 0 || total == 0 then Unsatisfiable else Between(total - Least(n, total), total - 1)
  {
    HeaderRead(unit, left, "", Digits(n), right, total);
    ParseIntDigits(n);
  }

  /** Only the first half given: from there to the end. */
  lemma OpenRange(unit: string, left: string, a: nat, right: string, total: nat)
    requires |unit| == 6 && Lower(unit) == UNIT && AllSpace(left) && AllSpace(right)
    ensures ParseRange(Header(unit, left, Digits(a), "", right), total) ==
            if a >= total then Unsatisfiable else Between(a, total - 1)
  {
    HeaderRead(unit, left, Digits(a), "", right, total);
    ParseIntDigits(a);
  }

  /** No header asks for the whole file; neither half, another unit, several ranges or no hyphen ask for nothing. */
  lemma OtherHeaders(text: string, total: nat)
    ensures ParseRange(None, total) == ParseRange(Some(""), total) == WholeFile
    ensures text != "" && (|text| < 6 || Lower(text[..6]) != "bytes=") ==>
              ParseRange(Some(text), total) == Unsatisfiable
    ensures |text| >= 6 && (',' in Strip(text[6..]) || '-' !in Strip(text[6..]) || Strip(text[6..]) == "-") ==>
              ParseRange(Some(text), total) == Unsatisfiable
  {
    if |text| >= 6 && Strip(text[6..]) == "-" {
      CutFirstOf("", "", '-');
      assert "" + ['-'] + "" == "-";
    }
  }

  /** What the client sends when it already has some bytes. */
  function RangeHeader(existing: nat): Option<string> {
    if existing > 0 then Some(UNIT + Digits(existing) + "-") else None
  }

  lemma NoPadding(unit: string, digits: string)
    ensures Header(unit, "", digits, "", "") == Some(unit + digits + "-")
  {
    assert "" + (digits + "-" + "") + "" == digits + "-";
    assert unit + (digits + "-") == unit + digits + "-";
  }

  /** The server understands the client: from there to the end, or nothing there any more. */
  lemma ClientRangeIsUnderstood(existing: nat, total: nat)
    ensures ParseRange(RangeHeader(existing), total) ==
            if existing == 0 then WholeFile
            else if existing >= total then Unsatisfiable
            else Between(existing, total - 1)
  {
    if existing > 0 {
      OpenRange(UNIT, "", existing, "", total);
      NoPadding(UNIT, Digits(existing));
    }
  }
}
