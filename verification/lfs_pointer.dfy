/**
 The Git LFS pointer file: what the command line client writes and what the server reads back.
 */
module LfsPointer {
  import opened Prelude
  import opened Text

  const VERSION_PREFIX := "version https://git-lfs"
  const VERSION_REST := ".github.com/spec/v1"
  const VERSION_LINE := VERSION_PREFIX + VERSION_REST
  const OID_PREFIX := "oid sha256:"
  const SIZE_PREFIX := "size "
  const MAX_POINTER_BYTES := 4096

  function ThreeLineText(a: string, b: string, c: string): string {
    a + "\n" + b + "\n" + c + "\n"
  }

  /** The client's pointer text for an object. */
  function PointerText(oid: Oid, size: nat): (text: string)
    ensures IsAscii(text)
  {
    PartsArePrintable(oid, size);
    ThreeAscii(VERSION_LINE, OID_PREFIX + oid, SIZE_PREFIX + Digits(size));
    ThreeLineText(VERSION_LINE, OID_PREFIX + oid, SIZE_PREFIX + Digits(size))
  }

  lemma ThreeAscii(a: string, b: string, c: string)
    requires Printable(a) && Printable(b) && Printable(c)
    ensures IsAscii(ThreeLineText(a, b, c))
  {
  }

  predicate Printable(s: string) {
    forall i :: 0 <= i < |s| ==> ' ' <= s[i] <= '~'
  }

  lemma PrintableConcat(a: string, b: string)
    requires Printable(a) && Printable(b)
    ensures Printable(a + b)
  {
  }

  lemma PartsArePrintable(oid: Oid, size: nat)
    ensures Printable(VERSION_LINE) && Printable(OID_PREFIX + oid) && Printable(SIZE_PREFIX + Digits(size))
  {
    assert Printable(VERSION_PREFIX);
    assert Printable(VERSION_REST);
    PrintableConcat(VERSION_PREFIX, VERSION_REST);
    forall i | 0 <= i < |oid| ensures IsHexDigit(oid[i]) {}
    assert Printable(OID_PREFIX);
    PrintableConcat(OID_PREFIX, oid);
    forall i | 0 <= i < |Digits(size)| ensures IsDigit(Digits(size)[i]) {}
    assert Printable(SIZE_PREFIX);
    PrintableConcat(SIZE_PREFIX, Digits(size));
  }

  // ----- str.splitlines -----

  predicate IsLineBreak(c: char) {
    '\n' <= c <= '\r' || '\U{1C}' <= c <= '\U{1E}' || c == '\U{85}' || c == '\U{2028}' || c == '\U{2029}'
  }

  /** The line boundaries of the standard library's table. */
  lemma LineBreaksAre(c: char)
    ensures IsLineBreak(c) <==> c as int in {0x0A, 0x0B, 0x0C, 0x0D, 0x1C, 0x1D, 0x1E, 0x85, 0x2028, 0x2029}
  {
  }

  predicate OneLine(s: string) {
    forall i :: 0 <= i < |s| ==> !IsLineBreak(s[i])
  }

  function LineLength(s: string): (n: nat)
    ensures n <= |s|
    ensures n < |s| ==> IsLineBreak(s[n])
    ensures forall i :: 0 <= i < n ==> !IsLineBreak(s[i])
  {
    if s == "" || IsLineBreak(s[0]) then 0 else 1 + LineLength(s[1..])
  }

  /** The text's lines; a carriage return followed by a line feed is one break. */
  function SplitLines(s: string): seq<string>
    decreases |s|
  {
    if s == "" then []
    else
      var n := LineLength(s);
      if n == |s| then [s]
      else
        var next := if s[n] == '\r' && n + 1 < |s| && s[n + 1] == '\n' then n + 2 else n + 1;
        [s[..n]] + SplitLines(s[next..])
  }

  lemma SplitLinesFirst(line: string, rest: string)
    requires OneLine(line)
    ensures SplitLines(line + "\n" + rest) == [line] + SplitLines(rest)
  {
    var s := line + "\n" + rest;
    LineEnds(line, rest, s);
    assert s[|line| + 1..] == rest && s[..|line|] == line;
  }

  lemma LineEnds(line: string, rest: string, s: string)
    requires OneLine(line) && s == line + "\n" + rest
    ensures LineLength(s) == |line| < |s| && s[|line|] == '\n'
  {
    assert s[|line|] == '\n';
    assert forall i :: 0 <= i < |line| ==> s[i] == line[i];
  }

  // ----- the server's reader -----

  predicate IsOidLine(line: string) {
    StartsWith(line, OID_PREFIX)
  }

  predicate IsSizeLine(line: string) {
    !IsOidLine(line) && StartsWith(line, SIZE_PREFIX)
  }

  function DeclaredSize(line: string): Option<int>
    requires IsSizeLine(line)
  {
    ParseInt(Strip(line[|SIZE_PREFIX|..]))
  }

  /** What the reader sees in a line; a size line declares a number, or something that is none. */
  datatype LineKind = OidLine | SizeLine(declared: Option<int>) | OtherLine

  function KindOf(line: string): LineKind {
    if IsOidLine(line) then OidLine
    else if IsSizeLine(line) then SizeLine(DeclaredSize(line))
    else OtherLine
  }

  function Kinds(lines: seq<string>, kindOf: string -> LineKind): (r: seq<LineKind>)
    ensures |r| == |lines| && forall i :: 0 <= i < |r| ==> r[i] == kindOf(lines[i])
  {
    if lines == [] then [] else Kinds(lines[..|lines| - 1], kindOf) + [kindOf(lines[|lines| - 1])]
  }

  /** What the last size line declares, if there is one. */
  function LastSize(kinds: seq<LineKind>): Option<int> {
    if kinds == [] then None
    else
      var last := kinds[|kinds| - 1];
      if last.SizeLine? then last.declared else LastSize(kinds[..|kinds| - 1])
  }

  predicate SizesParse(kinds: seq<LineKind>) {
    forall k :: k in kinds && k.SizeLine? ==> k.declared.Some?
  }

  /**
   What the reader means: a blob is a pointer when it is short, starts with the version line, names an oid,
   and has size lines that are all numerals; the last of them counts.
   */
  function PointerSize(data: Bytes, text: string): Option<int> {
    if |data| > MAX_POINTER_BYTES || !StartsWith(text, VERSION_PREFIX) then None
    else SizeOf(Kinds(SplitLines(text), KindOf))
  }

  function SizeOf(kinds: seq<LineKind>): Option<int> {
    if OidLine in kinds && SizesParse(kinds) then LastSize(kinds) else None
  }

  /** The last size line, and what it declares. */
  ghost predicate LastDeclares(kinds: seq<LineKind>, i: int, n: int) {
    0 <= i < |kinds| && kinds[i] == SizeLine(Some(n)) && forall j :: i < j < |kinds| ==> !kinds[j].SizeLine?
  }

  lemma {:induction false} LastSizeIs(kinds: seq<LineKind>, n: int)
    requires SizesParse(kinds)
    ensures LastSize(kinds) == Some(n) <==> exists i :: LastDeclares(kinds, i, n)
  {
    if kinds != [] {
      var init, last := kinds[..|kinds| - 1], kinds[|kinds| - 1];
      assert last in kinds;
      if last.SizeLine? {
        assert last.declared == Some(n) ==> LastDeclares(kinds, |kinds| - 1, n);
      } else {
        LastSizeIs(init, n);
        forall i ensures LastDeclares(kinds, i, n) <==> LastDeclares(init, i, n) {}
      }
    }
  }

  predicate NamesOid(line: string) {
    StartsWith(line, "oid sha256:")
  }

  predicate StatesSize(line: string) {
    StartsWith(line, "size ")
  }

  function StatedSize(line: string): Option<int> {
    if |line| < 5 then None else ParseInt(Strip(line[5..]))
  }

  lemma KindIs(line: string)
    ensures KindOf(line) ==
            if NamesOid(line) then OidLine else if StatesSize(line) then SizeLine(StatedSize(line)) else OtherLine
    ensures !(NamesOid(line) && StatesSize(line))
  {
    if StatesSize(line) {
      assert line[0] == line[..5][0] == 's';
      FirstCharDiffers(line, OID_PREFIX);
    }
  }

  /** Some line names an oid, all stated sizes are numerals, and the last of them is n. */
  ghost predicate Says(lines: seq<string>, n: int, oid: string -> bool, states: string -> bool,
                       stated: string -> Option<int>)
  {
    && (exists i :: 0 <= i < |lines| && oid(lines[i]))
    && (forall i :: 0 <= i < |lines| && states(lines[i]) ==> stated(lines[i]).Some?)
    && exists i :: LastStates(lines, i, n, states, stated)
  }

  ghost predicate LastStates(lines: seq<string>, i: int, n: int, states: string -> bool,
                             stated: string -> Option<int>)
  {
    && 0 <= i < |lines| && states(lines[i]) && stated(lines[i]) == Some(n)
    && forall j :: i < j < |lines| ==> !states(lines[j])
  }

  lemma LineForLine(lines: seq<string>, kinds: seq<LineKind>, n: int, oid: string -> bool, states: string -> bool,
                    stated: string -> Option<int>)
    requires |kinds| == |lines| && forall i :: 0 <= i < |lines| ==> !(oid(lines[i]) && states(lines[i]))
    requires forall i :: 0 <= i < |lines| ==>
               kinds[i] == if oid(lines[i]) then OidLine
                           else if states(lines[i]) then SizeLine(stated(lines[i])) else OtherLine
    ensures SizeOf(kinds) == Some(n) <==> Says(lines, n, oid, states, stated)
  {
    assert OidLine in kinds <==> exists i :: 0 <= i < |lines| && oid(lines[i]);
    assert SizesParse(kinds) <==> forall i :: 0 <= i < |kinds| && kinds[i].SizeLine? ==> kinds[i].declared.Some?;
    forall i ensures LastDeclares(kinds, i, n) <==> LastStates(lines, i, n, states, stated) {}
    if SizesParse(kinds) {
      LastSizeIs(kinds, n);
    }
  }

  /** What it takes for a blob to be read as a pointer to n bytes, in terms of its lines. */
  lemma PointerMeans(data: Bytes, text: string, n: int)
    ensures PointerSize(data, text) == Some(n) <==>
              && |data| <= 4096 && StartsWith(text, "version https://git-lfs")
              && Says(SplitLines(text), n, NamesOid, StatesSize, StatedSize)
  {
    LinesMean(SplitLines(text), n);
  }

  lemma LinesMean(lines: seq<string>, n: int)
    ensures SizeOf(Kinds(lines, KindOf)) == Some(n) <==> Says(lines, n, NamesOid, StatesSize, StatedSize)
  {
    forall i | 0 <= i < |lines| {
      KindIs(lines[i]);
    }
    LineForLine(lines, Kinds(lines, KindOf), n, NamesOid, StatesSize, StatedSize);
  }

  method ReadPointerSize(data: Bytes, text: string) returns (r: Option<int>)
    ensures r == PointerSize(data, text)
  {
    if |data| > MAX_POINTER_BYTES || !StartsWith(text, VERSION_PREFIX) {
      return None;
    }
    r := ScanLines(SplitLines(text), KindOf);
  }

  /** The reader's loop: one pass over the lines, giving up at the first size line that is no numeral. */
  method ScanLines(lines: seq<string>, kindOf: string -> LineKind) returns (r: Option<int>)
    ensures r == SizeOf(Kinds(lines, kindOf))
  {
    var hasOid := false;
    var size: Option<int> := None;
    ghost var kinds := Kinds(lines, kindOf);
    for i := 0 to |lines|
      invariant Scanned(kinds[..i], hasOid, size)
    {
      ScanOneMore(kinds, i, hasOid, size);
      var kind := kindOf(lines[i]);
      if kind.OidLine? {
        hasOid := true;
      } else if kind.SizeLine? {
        size := kind.declared;
        if size == None {
          return None;
        }
      }
    }
    assert kinds[..|lines|] == kinds;
    return if hasOid && size.Some? then size else None;
  }

  ghost predicate Scanned(kinds: seq<LineKind>, hasOid: bool, size: Option<int>) {
    hasOid == (OidLine in kinds) && SizesParse(kinds) && size == LastSize(kinds)
  }

  lemma ScanOneMore(kinds: seq<LineKind>, i: nat, hasOid: bool, size: Option<int>)
    requires i < |kinds| && Scanned(kinds[..i], hasOid, size)
    ensures match kinds[i]
            case OidLine => Scanned(kinds[..i + 1], true, size)
            case SizeLine(declared) =>
              if declared.Some? then Scanned(kinds[..i + 1], hasOid, declared) else !SizesParse(kinds)
            case OtherLine => Scanned(kinds[..i + 1], hasOid, size)
  {
    var longer := kinds[..i + 1];
    assert longer[..i] == kinds[..i] && longer == kinds[..i] + [kinds[i]] && kinds[i] in kinds;
  }

  lemma ThreeLines(a: string, b: string, c: string)
    requires OneLine(a) && OneLine(b) && OneLine(c)
    ensures SplitLines(ThreeLineText(a, b, c)) == [a, b, c]
  {
    calc {
      SplitLines(ThreeLineText(a, b, c));
      { Reassociate(a, b, c, "\n"); }
      SplitLines(a + "\n" + (b + "\n" + (c + "\n" + "")));
      { SplitLinesFirst(a, b + "\n" + (c + "\n" + "")); }
      [a] + SplitLines(b + "\n" + (c + "\n" + ""));
      { SplitLinesFirst(b, c + "\n" + ""); }
      [a] + ([b] + SplitLines(c + "\n" + ""));
      { SplitLinesFirst(c, ""); }
      [a, b, c];
    }
  }

  lemma Reassociate(a: string, b: string, c: string, d: string)
    ensures a + d + b + d + c + d == a + d + (b + d + (c + d + ""))
  {
  }

  lemma PrintableIsOneLine(s: string)
    requires Printable(s)
    ensures OneLine(s)
  {
  }

  lemma PointerLines(oid: Oid, size: nat)
    ensures SplitLines(PointerText(oid, size)) == [VERSION_LINE, OID_PREFIX + oid, SIZE_PREFIX + Digits(size)]
  {
    PartsArePrintable(oid, size);
    PrintableIsOneLine(VERSION_LINE);
    PrintableIsOneLine(OID_PREFIX + oid);
    PrintableIsOneLine(SIZE_PREFIX + Digits(size));
    ThreeLines(VERSION_LINE, OID_PREFIX + oid, SIZE_PREFIX + Digits(size));
  }

  lemma ReadSizeLine(size: nat)
    ensures var line := SIZE_PREFIX + Digits(size);
            IsSizeLine(line) && DeclaredSize(line) == Some(size)
  {
    var line := SIZE_PREFIX + Digits(size);
    FirstCharDiffers(line, OID_PREFIX);
    PrefixOfConcat(SIZE_PREFIX, Digits(size));
    StripDigits(size);
    ParseIntDigits(size);
  }

  lemma StripDigits(n: nat)
    ensures Strip(Digits(n)) == Digits(n)
  {
    assert IsDigit(Digits(n)[0]) && IsDigit(Digits(n)[|Digits(n)| - 1]);
    StripIsIdentity(Digits(n));
  }

  lemma ReadThreeLines(a: string, b: string, c: string, size: int, kindOf: string -> LineKind)
    requires !kindOf(a).SizeLine? && kindOf(b) == OidLine && kindOf(c) == SizeLine(Some(size))
    ensures SizeOf(Kinds([a, b, c], kindOf)) == Some(size)
  {
    var kinds := [kindOf(a), OidLine, SizeLine(Some(size))];
    assert Kinds([a, b, c], kindOf) == kinds;
    assert kinds[1] == OidLine;
  }

  lemma PointerKinds(oid: Oid, size: nat)
    ensures !KindOf(VERSION_LINE).SizeLine? && KindOf(OID_PREFIX + oid) == OidLine
    ensures KindOf(SIZE_PREFIX + Digits(size)) == SizeLine(Some(size))
  {
    ReadSizeLine(size);
    PrefixOfConcat(OID_PREFIX, oid);
    NoSizeLine(VERSION_LINE);
  }

  lemma NoSizeLine(line: string)
    requires line != "" && line[0] != SIZE_PREFIX[0]
    ensures !KindOf(line).SizeLine?
  {
    FirstCharDiffers(line, SIZE_PREFIX);
  }

  /** The round trip: the server reads back exactly the size the client wrote. */
  lemma PointerRoundTrip(oid: Oid, size: nat)
    requires |PointerText(oid, size)| <= MAX_POINTER_BYTES
    ensures PointerSize(AsciiBytes(PointerText(oid, size)), PointerText(oid, size)) == Some(size)
  {
    PointerLines(oid, size);
    PointerKinds(oid, size);
    ReadThreeLines(VERSION_LINE, OID_PREFIX + oid, SIZE_PREFIX + Digits(size), size, KindOf);
    StartsWithVersion(oid, size);
  }

  lemma StartsWithVersion(oid: Oid, size: nat)
    ensures StartsWith(PointerText(oid, size), VERSION_PREFIX)
  {
    FirstLineStarts(VERSION_PREFIX, VERSION_REST, OID_PREFIX + oid, SIZE_PREFIX + Digits(size));
  }

  lemma FirstLineStarts(prefix: string, rest: string, b: string, c: string)
    ensures StartsWith(ThreeLineText(prefix + rest, b, c), prefix)
  {
  }

  /** A pointer text names one object: equal texts have equal oids and sizes. */
  lemma PointerTextInjective(oid1: Oid, size1: nat, oid2: Oid, size2: nat)
    requires PointerText(oid1, size1) == PointerText(oid2, size2)
    ensures oid1 == oid2 && size1 == size2
  {
    PointerLines(oid1, size1);
    PointerLines(oid2, size2);
    var l1, l2 := SplitLines(PointerText(oid1, size1)), SplitLines(PointerText(oid2, size2));
    assert l1[1][|OID_PREFIX|..] == oid1 && l2[1][|OID_PREFIX|..] == oid2;
    assert l1[2][|SIZE_PREFIX|..] == Digits(size1) && l2[2][|SIZE_PREFIX|..] == Digits(size2);
    ParseIntDigits(size1);
    ParseIntDigits(size2);
  }
}
