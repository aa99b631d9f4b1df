/** Splitting and joining text held as bytes, as the URI parser uses `split_once` and `split`. */
module Texts {
  import opened Foundations

  /** ASCII literals. */
  function Ascii(s: string): (text: Bytes)
    requires forall i | 0 <= i < |s| :: s[i] as int < 128
    ensures |text| == |s| && forall i | 0 <= i < |s| :: text[i] == s[i] as int
  {
    seq(|s|, i requires 0 <= i < |s| => s[i] as int)
  }

  function LowerByte(b: byte): byte { if 'A' as int <= b <= 'Z' as int then b + 32 else b }

  function Lower(text: Bytes): (r: Bytes)
    ensures |r| == |text| && forall i | 0 <= i < |text| :: r[i] == LowerByte(text[i])
  {
    seq(|text|, i requires 0 <= i < |text| => LowerByte(text[i]))
  }

  /** The text before and after the first occurrence of `pattern`. */
  function SplitOnce(text: Bytes, pattern: Bytes): Option<(Bytes, Bytes)> {
    if |text| < |pattern| || pattern == [] then None
    else if text[..|pattern|] == pattern then Some(([], text[|pattern|..]))
    else
      match SplitOnce(text[1..], pattern)
      case None => None
      case Some((head, tail)) => Some(([text[0]] + head, tail))
  }

  predicate Lacks(text: Bytes, b: byte) { forall i | 0 <= i < |text| :: text[i] != b }

  lemma {:induction false} SplitsAtFirst(head: Bytes, pattern: Bytes, tail: Bytes)
    requires pattern != [] && Lacks(head, pattern[0])
    ensures SplitOnce(head + pattern + tail, pattern) == Some((head, tail))
  {
    var text := head + pattern + tail;
    if head == [] {
      assert text[..|pattern|] == pattern && text[|pattern|..] == tail;
    } else {
      assert text[0] == head[0] != pattern[0];
      assert text[1..] == head[1..] + pattern + tail;
      SplitsAtFirst(head[1..], pattern, tail);
      assert head == [head[0]] + head[1..];
    }
  }

  lemma {:induction false} NothingToSplit(text: Bytes, pattern: Bytes)
    requires pattern != [] && Lacks(text, pattern[0])
    ensures SplitOnce(text, pattern) == None
  {
    if |text| >= |pattern| {
      assert text[..|pattern|][0] == text[0];
      NothingToSplit(text[1..], pattern);
    }
  }

  lemma {:induction false} SplitLoses(text: Bytes, pattern: Bytes)
    ensures SplitOnce(text, pattern).Some? ==> |SplitOnce(text, pattern).value.1| < |text|
  {
    if |text| >= |pattern| && pattern != [] && text[..|pattern|] != pattern { SplitLoses(text[1..], pattern); }
  }

  function SplitAll(text: Bytes, separator: byte): (parts: seq<Bytes>)
    ensures parts != []
    decreases |text|
  {
    SplitLoses(text, [separator]);
    match SplitOnce(text, [separator])
    case None => [text]
    case Some((head, tail)) => [head] + SplitAll(tail, separator)
  }

  function Join(parts: seq<Bytes>, separator: byte): Bytes {
    if parts == [] then [] else if |parts| == 1 then parts[0] else parts[0] + [separator] + Join(parts[1..], separator)
  }

  lemma {:induction false} SplitUndoesJoin(parts: seq<Bytes>, separator: byte)
    requires parts != [] && forall i | 0 <= i < |parts| :: Lacks(parts[i], separator)
    ensures SplitAll(Join(parts, separator), separator) == parts
  {
    if |parts| == 1 {
      NothingToSplit(parts[0], [separator]);
    } else {
      SplitsAtFirst(parts[0], [separator], Join(parts[1..], separator));
      SplitUndoesJoin(parts[1..], separator);
      assert parts == [parts[0]] + parts[1..];
    }
  }

  // ----- what splitting finds ----------------------------------------------------------------------

  predicate OccursAt(text: Bytes, pattern: Bytes, i: nat) { i + |pattern| <= |text| && text[i..i + |pattern|] == pattern }

  /** `head` is what comes before the first occurrence. */
  ghost predicate IsFirst(text: Bytes, pattern: Bytes, head: Bytes, tail: Bytes) {
    text == head + pattern + tail && forall i | 0 <= i < |head| :: !OccursAt(text, pattern, i)
  }

  lemma OccursLater(text: Bytes, pattern: Bytes, i: nat)
    requires text != []
    ensures OccursAt(text, pattern, i + 1) <==> OccursAt(text[1..], pattern, i)
  {
    if i + 1 + |pattern| <= |text| { assert text[1..][i..i + |pattern|] == text[i + 1..i + 1 + |pattern|]; }
  }

  /** Splitting cuts at the first occurrence, and fails exactly when there is none. */
  lemma {:induction false} SplitsExactlyWhen(text: Bytes, pattern: Bytes)
    requires pattern != []
    ensures match SplitOnce(text, pattern)
            case None => forall i: nat :: !OccursAt(text, pattern, i)
            case Some((head, tail)) => IsFirst(text, pattern, head, tail)
  {
    hide OccursAt;
    if |text| >= |pattern| && text[..|pattern|] == pattern {
      assert text == [] + pattern + text[|pattern|..];
    } else if |text| >= |pattern| {
      SplitsExactlyWhen(text[1..], pattern);
      NotAtFront(text, pattern);
      match SplitOnce(text[1..], pattern)
      case None =>
        forall i: nat ensures !OccursAt(text, pattern, i) {
          if i > 0 { OccursLater(text, pattern, i - 1); }
        }
      case Some((head, tail)) => FirstComesLater(text, pattern, head, tail);
    } else {
      forall i: nat ensures !OccursAt(text, pattern, i) { TooShort(text, pattern, i); }
    }
  }

  lemma TooShort(text: Bytes, pattern: Bytes, i: nat)
    requires |text| < |pattern|
    ensures !OccursAt(text, pattern, i)
  {
  }

  lemma NotAtFront(text: Bytes, pattern: Bytes)
    requires |text| >= |pattern| && text[..|pattern|] != pattern
    ensures !OccursAt(text, pattern, 0)
  {
  }

  lemma FirstComesLater(text: Bytes, pattern: Bytes, head: Bytes, tail: Bytes)
    requires text != [] && !OccursAt(text, pattern, 0) && IsFirst(text[1..], pattern, head, tail)
    ensures IsFirst(text, pattern, [text[0]] + head, tail)
  {
    hide OccursAt;
    assert [text[0]] + (head + pattern + tail) == [text[0]] + head + pattern + tail;
    forall i | 0 <= i < |head| + 1 ensures !OccursAt(text, pattern, i) {
      if i > 0 { OccursLater(text, pattern, i - 1); }
    }
  }

  /** The pieces are what joins back to the text, and none holds the separator. */
  lemma {:induction false} SplitsIntoPieces(text: Bytes, separator: byte)
    ensures Join(SplitAll(text, separator), separator) == text
    ensures forall i | 0 <= i < |SplitAll(text, separator)| :: Lacks(SplitAll(text, separator)[i], separator)
    decreases |text|
  {
    SplitsExactlyWhen(text, [separator]);
    match SplitOnce(text, [separator])
    case None =>
      forall i | 0 <= i < |text| ensures text[i] != separator { assert !OccursAt(text, [separator], i); }
    case Some((head, tail)) =>
      SplitsIntoPieces(tail, separator);
      var rest := SplitAll(tail, separator);
      assert ([head] + rest)[1..] == rest;
      forall i | 0 <= i < |head| ensures head[i] != separator {
        assert !OccursAt(text, [separator], i) && text[i] == head[i];
      }
  }
}
