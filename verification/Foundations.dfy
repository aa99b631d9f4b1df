/** Vocabulary shared by every component: optional values, outcomes, bytes and byte order. */
module Foundations {
  datatype Option<+T> = None | Some(value: T)

  datatype Result<+T, +E> = Ok(value: T) | Err(error: E) {
    predicate IsFailure() { Err? }

    function PropagateFailure<U>(): Result<U, E>
      requires Err?
    {
      Err(error)
    }

    function Extract(): T
      requires Ok?
    {
      value
    }
  }

  /** What a decoder has produced, followed by what it is still to produce. */
  function Prepend<T, E>(done: seq<T>, rest: Result<seq<T>, E>): Result<seq<T>, E> {
    match rest
    case Err(e) => Err(e)
    case Ok(more) => Ok(done + more)
  }

  lemma PrependNone<T, E>(rest: Result<seq<T>, E>)
    ensures Prepend([], rest) == rest
  {
    if rest.Ok? { assert [] + rest.value == rest.value; }
  }

  lemma PrependTwice<T, E>(done: seq<T>, next: seq<T>, rest: Result<seq<T>, E>)
    ensures Prepend(done, Prepend(next, rest)) == Prepend(done + next, rest)
  {
    if rest.Ok? { assert done + (next + rest.value) == done + next + rest.value; }
  }

  type byte = x: int | 0 <= x < 256

  type Bytes = seq<byte>

  /** The order Rust gives byte slices: first difference decides, a proper prefix is smaller. */
  predicate LexLess(a: Bytes, b: Bytes) {
    b != [] && (a == [] || a[0] < b[0] || (a[0] == b[0] && LexLess(a[1..], b[1..])))
  }

  lemma {:induction false} LexTotal(a: Bytes, b: Bytes)
    ensures LexLess(a, b) || a == b || LexLess(b, a)
    ensures !(LexLess(a, b) && LexLess(b, a))
    ensures !LexLess(a, a)
  {
    if a != [] {
      LexTotal(a[1..], a[1..]);
      if b != [] {
        LexTotal(a[1..], b[1..]);
        assert a == [a[0]] + a[1..] && b == [b[0]] + b[1..];
      }
    }
  }

  lemma {:induction false} LexTransitive(a: Bytes, b: Bytes, c: Bytes)
    requires LexLess(a, b) && LexLess(b, c)
    ensures LexLess(a, c)
  {
    if a != [] && a[0] == b[0] == c[0] {
      LexTransitive(a[1..], b[1..], c[1..]);
    }
  }

  /** Equally long first parts are compared first; what follows decides only if they agree. */
  lemma {:induction false} LexConcat(a: Bytes, b: Bytes, x: Bytes, y: Bytes)
    requires |a| == |b|
    ensures LexLess(a + x, b + y) <==> LexLess(a, b) || (a == b && LexLess(x, y))
  {
    if a == [] {
      assert a + x == x && b + y == y;
    } else {
      assert (a + x)[1..] == a[1..] + x && (b + y)[1..] == b[1..] + y;
      assert a == [a[0]] + a[1..] && b == [b[0]] + b[1..];
      LexConcat(a[1..], b[1..], x, y);
    }
  }

  function Pow256(width: nat): (p: nat)
    ensures p > 0
  {
    if width == 0 then 1 else 256 * Pow256(width - 1)
  }

  /** `to_be_bytes` at a given width. */
  function BigEndian(n: nat, width: nat): (s: Bytes)
    requires n < Pow256(width)
    ensures |s| == width
  {
    if width == 0 then [] else BigEndian(n / 256, width - 1) + [n % 256]
  }

  /** `from_be_bytes`. */
  function FromBigEndian(s: Bytes): (n: nat)
    ensures n < Pow256(|s|)
  {
    if s == [] then 0 else 256 * FromBigEndian(s[..|s| - 1]) + s[|s| - 1]
  }

  /** `to_le_bytes` at a given width. */
  function LittleEndian(n: nat, width: nat): (s: Bytes)
    requires n < Pow256(width)
    ensures |s| == width
  {
    if width == 0 then [] else [n % 256] + LittleEndian(n / 256, width - 1)
  }

  lemma {:induction false} BigEndianRoundTrip(n: nat, width: nat)
    requires n < Pow256(width)
    ensures FromBigEndian(BigEndian(n, width)) == n
  {
    if width > 0 {
      var s := BigEndian(n, width);
      assert s[..|s| - 1] == BigEndian(n / 256, width - 1);
      BigEndianRoundTrip(n / 256, width - 1);
    }
  }

  /** At a fixed width, byte order is numeric order. */
  lemma {:induction false} BigEndianOrder(a: nat, b: nat, width: nat)
    requires a < Pow256(width) && b < Pow256(width)
    ensures LexLess(BigEndian(a, width), BigEndian(b, width)) <==> a < b
  {
    if width > 0 {
      BigEndianOrder(a / 256, b / 256, width - 1);
      BigEndianRoundTrip(a / 256, width - 1);
      BigEndianRoundTrip(b / 256, width - 1);
      LexConcat(BigEndian(a / 256, width - 1), BigEndian(b / 256, width - 1), [a % 256], [b % 256]);
    }
  }

  /** `from_le_bytes`. */
  function FromLittleEndian(s: Bytes): (n: nat)
    ensures n < Pow256(|s|)
  {
    if s == [] then 0 else s[0] + 256 * FromLittleEndian(s[1..])
  }

  lemma {:induction false} LittleEndianRoundTrip(n: nat, width: nat)
    requires n < Pow256(width)
    ensures FromLittleEndian(LittleEndian(n, width)) == n
  {
    if width > 0 {
      var s := LittleEndian(n, width);
      assert s[1..] == LittleEndian(n / 256, width - 1);
      LittleEndianRoundTrip(n / 256, width - 1);
    }
  }

  lemma LittleEndianInjective(a: nat, b: nat, width: nat)
    requires a < Pow256(width) && b < Pow256(width)
    requires LittleEndian(a, width) == LittleEndian(b, width)
    ensures a == b
  {
    LittleEndianRoundTrip(a, width);
    LittleEndianRoundTrip(b, width);
  }

  /** A number for every byte string, no two alike. */
  function Numbered(s: Bytes): nat { if s == [] then 0 else 257 * Numbered(s[1..]) + s[0] + 1 }

  lemma {:induction false} NumbersDiffer(s: Bytes, t: Bytes)
    requires Numbered(s) == Numbered(t)
    ensures s == t
  {
    if s != [] && t != [] {
      assert s[0] == t[0] && Numbered(s[1..]) == Numbered(t[1..]);
      NumbersDiffer(s[1..], t[1..]);
      assert s == [s[0]] + s[1..] && t == [t[0]] + t[1..];
    }
  }
}
