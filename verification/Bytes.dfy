/** Byte strings, and the few operations of the language's own that the parsers lean on. */
module Bytes {
  import opened Prelude

  newtype Byte = x: int | 0 <= x < 256

  type Data = seq<Byte>

  const NUL: Byte := 0
  const NEWLINE: Byte := 10
  const SPACE: Byte := 32
  const ZERO: Byte := 48

  predicate Ascii(s: Data) { forall i | 0 <= i < |s| :: s[i] < 128 }

  predicate Without(s: Data, b: Byte) { forall i | 0 <= i < |s| :: s[i] != b }

  /** The first occurrence of b at or after a position, as a distance from it. */
  function Find(s: Data, b: Byte): (r: Option<nat>)
    ensures r.Some? ==> r.value < |s| && s[r.value] == b && Without(s[..r.value], b)
    ensures r.None? ==> Without(s, b)
  {
    if s == [] then None
    else if s[0] == b then Some(0)
    else match Find(s[1..], b)
         case Some(n) => Some(n + 1)
         case None => None
  }

  lemma {:induction false} FindAfter(a: Data, b: Byte, rest: Data)
    requires Without(a, b)
    ensures Find(a + [b] + rest, b) == Some(|a|)
  {
    if a != [] {
      assert Without(a[1..], b);
      FindAfter(a[1..], b, rest);
      assert (a + [b] + rest)[1..] == a[1..] + [b] + rest;
    }
  }

  /** `bytes.index` from a position, which counts from the end when negative. */
  function IndexFrom(s: Data, b: Byte, start: int): (r: Option<nat>)
    ensures r.Some? ==> r.value < |s| && s[r.value] == b && start <= r.value
  {
    var from := Clamp(s, start);
    match Find(s[from..], b)
    case Some(n) => Some(from + n)
    case None => None
  }

  function Clamp(s: Data, i: int): (r: nat)
    ensures r <= |s| && (0 <= i <= |s| ==> r == i) && (0 <= i ==> r <= i) && (i <= |s| ==> i <= r)
  {
    if i < 0 then (if i + |s| < 0 then 0 else i + |s|) else if i > |s| then |s| else i
  }

  /** A slice whose bounds may lie outside the data. */
  function Slice(s: Data, lo: int, hi: int): Data {
    var i, j := Clamp(s, lo), Clamp(s, hi);
    if i <= j then s[i..j] else []
  }

  lemma SliceOf(before: Data, mid: Data, rest: Data)
    ensures Slice(before + mid + rest, |before|, |before| + |mid|) == mid
  {
  }

  /** A slice of at most n bytes and what is left after it. */
  lemma SliceAndRest(s: Data, at: nat, n: nat)
    requires at <= |s|
    ensures var head, rest := Slice(s, at, at + n), s[Clamp(s, at + n)..];
            s[at..] == head + rest && |head| <= n && (rest != [] ==> |head| == n)
  {
  }

  /** The white space that splits a decoded ASCII header into words. */
  predicate IsSpace(b: Byte) { 9 <= b <= 13 || 28 <= b <= 32 }

  predicate IsWord(s: Data) { s != [] && Ascii(s) && forall i | 0 <= i < |s| :: !IsSpace(s[i]) }

  function WordLength(s: Data): (n: nat)
    ensures n <= |s| && (forall i | 0 <= i < n :: !IsSpace(s[i])) && (n < |s| ==> IsSpace(s[n]))
  {
    if s == [] || IsSpace(s[0]) then 0 else 1 + WordLength(s[1..])
  }

  function Words(s: Data): seq<Data>
    decreases |s|
  {
    if s == [] then []
    else if IsSpace(s[0]) then Words(s[1..])
    else [s[..WordLength(s)]] + Words(s[WordLength(s)..])
  }

  lemma LeadingWord(w: Data, rest: Data)
    requires IsWord(w) && (rest == [] || IsSpace(rest[0]))
    ensures Words(w + rest) == [w] + Words(rest)
  {
    var s := w + rest;
    assert s[0] == w[0];
    assert forall i | 0 <= i < |w| :: s[i] == w[i];
    assert |w| < |s| ==> s[|w|] == rest[0];
    assert s[..|w|] == w && s[|w|..] == rest;
  }

  // ---------------------------------------------------------------- decimal numbers

  predicate IsDigit(b: Byte) { ZERO <= b <= 57 }

  /** How the size of a blob is written. */
  function Decimal(n: nat): (r: Data)
    ensures IsWord(r) && forall i | 0 <= i < |r| :: IsDigit(r[i])
  {
    if n < 10 then [ZERO + n as Byte] else Decimal(n / 10) + [ZERO + (n % 10) as Byte]
  }

  /** Digits, with single underscores allowed between them, after an optional sign: what `int` accepts here. */
  function ParseInt(s: Data): Option<int> {
    if s != [] && s[0] == 45 then (match ParseDigits(s[1..]) case Some(n) => Some(-n) case None => None)
    else if s != [] && s[0] == 43 then ParseDigits(s[1..])
    else ParseDigits(s)
  }

  function ParseDigits(s: Data): (r: Option<int>)
    ensures r.Some? ==> r.value >= 0
  {
    if s == [] || !IsDigit(s[|s| - 1]) then None
    else
      var digit := (s[|s| - 1] - ZERO) as int;
      var before := s[..|s| - 1];
      if before == [] then Some(digit)
      else match ParseDigits(if before[|before| - 1] == 95 then before[..|before| - 1] else before)
           case Some(n) => Some(10 * n + digit)
           case None => None
  }

  lemma {:induction false} DecimalRoundTrip(n: nat)
    ensures ParseInt(Decimal(n)) == Some(n) && ParseDigits(Decimal(n)) == Some(n)
  {
    var s := Decimal(n);
    if n >= 10 {
      DecimalRoundTrip(n / 10);
      assert s[..|s| - 1] == Decimal(n / 10);
      assert IsDigit(s[..|s| - 1][|s| - 2]);
    }
    assert IsDigit(s[0]);
  }
}
