/** Shared value types: optional values, results, bytes and object ids. */
module Prelude {

  datatype Option<+T> = None | Some(value: T)

  datatype Result<+T, +E> = Ok(value: T) | Err(error: E)

  type Byte = b: int | 0 <= b < 256

  type Bytes = seq<Byte>

  predicate IsHexDigit(c: char) {
    '0' <= c <= '9' || 'a' <= c <= 'f'
  }

  predicate IsOid(s: string) {
    |s| == 64 && forall i :: 0 <= i < |s| ==> IsHexDigit(s[i])
  }

  /** A sha256 hex digest: 64 lower-case hex digits. */
  type Oid = s: string | IsOid(s)
    witness seq(64, i => '0')

  predicate IsAscii(s: string) {
    forall i :: 0 <= i < |s| ==> s[i] as int < 128
  }

  /** Encoding of text whose characters all have one-byte encodings. */
  function AsciiBytes(s: string): (b: Bytes)
    requires IsAscii(s)
    ensures |b| == |s|
  {
    seq(|s|, i requires 0 <= i < |s| => s[i] as int)
  }

  function Concat(chunks: seq<Bytes>): Bytes {
    if chunks == [] then [] else Concat(chunks[..|chunks| - 1]) + chunks[|chunks| - 1]
  }

  lemma {:induction false} ConcatFirst(first: Bytes, chunks: seq<Bytes>)
    ensures Concat([first] + chunks) == first + Concat(chunks)
  {
    var all := [first] + chunks;
    if chunks == [] {
      assert all[..0] == [];
    } else {
      var init, last := chunks[..|chunks| - 1], chunks[|chunks| - 1];
      ConcatFirst(first, init);
      assert all[..|all| - 1] == [first] + init;
      Associative(first, Concat(init), last);
    }
  }

  lemma Associative<T>(a: seq<T>, b: seq<T>, c: seq<T>)
    ensures (a + b) + c == a + (b + c)
  {
  }

  lemma AppendLast<T>(a: seq<T>, b: seq<T>)
    requires b != []
    ensures a + b == (a + b[..|b| - 1]) + [b[|b| - 1]]
  {
  }

  /** All parts of all items, in order. */
  function Gather<A, B>(items: seq<A>, part: A -> seq<B>): seq<B> {
    if items == [] then [] else Gather(items[..|items| - 1], part) + part(items[|items| - 1])
  }

  lemma {:induction false} GatherAppend<A, B>(items: seq<A>, more: seq<A>, part: A -> seq<B>)
    ensures Gather(items + more, part) == Gather(items, part) + Gather(more, part)
  {
    if more == [] {
      assert items + more == items;
    } else {
      GatherAppend(items, more[..|more| - 1], part);
      assert (items + more)[..|items + more| - 1] == items + more[..|more| - 1];
    }
  }

  lemma GatherSnoc<A, B>(items: seq<A>, last: A, part: A -> seq<B>)
    ensures Gather(items + [last], part) == Gather(items, part) + part(last)
  {
    assert (items + [last])[..|items|] == items;
  }

  lemma {:induction false} GatherHas<A, B>(items: seq<A>, part: A -> seq<B>, x: A, y: B)
    requires x in items && y in part(x)
    ensures y in Gather(items, part)
  {
    if x != items[|items| - 1] {
      GatherHas(items[..|items| - 1], part, x, y);
    }
  }

  lemma {:induction false} GatherNothing<A, B>(items: seq<A>, part: A -> seq<B>)
    ensures Gather(items, part) == [] <==> forall x :: x in items ==> part(x) == []
  {
    if items != [] {
      var init, last := items[..|items| - 1], items[|items| - 1];
      assert items == init + [last];
      GatherNothing(init, part);
    }
  }

  function Mapped<A, B>(items: seq<A>, f: A -> B): seq<B> {
    seq(|items|, i requires 0 <= i < |items| => f(items[i]))
  }

  lemma MappedAppend<A, B>(items: seq<A>, more: seq<A>, f: A -> B)
    ensures Mapped(items + more, f) == Mapped(items, f) + Mapped(more, f)
  {
  }

  /** The results that exist, in order. */
  function Collected<A, B>(items: seq<A>, f: A -> Option<B>): seq<B> {
    if items == [] then []
    else
      var before, last := Collected(items[..|items| - 1], f), f(items[|items| - 1]);
      if last.Some? then before + [last.value] else before
  }

  lemma {:induction false} CollectedAppend<A, B>(items: seq<A>, more: seq<A>, f: A -> Option<B>)
    ensures Collected(items + more, f) == Collected(items, f) + Collected(more, f)
  {
    if more == [] {
      assert items + more == items;
    } else {
      CollectedAppend(items, more[..|more| - 1], f);
      assert (items + more)[..|items + more| - 1] == items + more[..|more| - 1];
    }
  }

  lemma {:induction false} CollectedNone<A, B>(items: seq<A>, f: A -> Option<B>)
    requires forall i :: i in items ==> f(i).None?
    ensures Collected(items, f) == []
  {
    if items != [] {
      var init, last := items[..|items| - 1], items[|items| - 1];
      assert items == init + [last];
      CollectedNone(init, f);
    }
  }

  lemma CollectedSnoc<A, B>(items: seq<A>, last: A, f: A -> Option<B>, result: B)
    requires f(last) == Some(result)
    ensures Collected(items + [last], f) == Collected(items, f) + [result]
  {
    assert (items + [last])[..|items|] == items;
  }

  lemma {:induction false} CollectedAll<A, B>(items: seq<A>, f: A -> Option<B>)
    requires forall i :: i in items ==> f(i).Some?
    ensures var r := Collected(items, f);
            |r| == |items| && forall i :: 0 <= i < |r| ==> f(items[i]) == Some(r[i])
  {
    if items != [] {
      var init, last := items[..|items| - 1], items[|items| - 1];
      assert items == init + [last];
      CollectedAll(init, f);
    }
  }
}
