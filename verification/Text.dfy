/**
  Go strings and byte slices, and the few `strings` functions the storage
  provider uses to name its buckets.
 */
module Text {

  type byte = b: int | 0 <= b < 256

  /** A Go string or byte slice. */
  type Str = seq<byte>

  const SLASH: byte := 47
  const UNDERSCORE: byte := 95
  const DASH: byte := 45

  /** `strings.Split` for a separator of one byte; never empty. */
  function Split(s: Str, sep: byte): (parts: seq<Str>)
    ensures |parts| >= 1
  {
    if s == [] then [[]]
    else
      var rest := Split(s[1..], sep);
      if s[0] == sep then [[]] + rest else [[s[0]] + rest[0]] + rest[1..]
  }

  /** `strings.Join` for a separator of one byte. */
  function Join(parts: seq<Str>, sep: byte): Str {
    if |parts| == 0 then []
    else if |parts| == 1 then parts[0]
    else parts[0] + [sep] + Join(parts[1..], sep)
  }

  function LowerByte(b: byte): byte {
    if 65 <= b <= 90 then b + 32 else b
  }

  // Exactly the 26 capital letters have another lower case.
  lemma LowerLetters(b: byte)
    ensures var upper, lower := "ABCDEFGHIJKLMNOPQRSTUVWXYZ", "abcdefghijklmnopqrstuvwxyz";
            && |upper| == |lower| == 26
            && (forall i :: 0 <= i < 26 ==> b as char == upper[i] ==> LowerByte(b) as char == lower[i])
            && (b as char !in upper ==> LowerByte(b) == b)
  {}

  /** `strings.ToLower` and `bytes.ToLower` on ASCII letters. */
  function ToLower(s: Str): (r: Str)
    ensures |r| == |s|
    ensures forall i :: 0 <= i < |s| ==> r[i] == LowerByte(s[i])
  {
    seq(|s|, i requires 0 <= i < |s| => LowerByte(s[i]))
  }

  /** Every occurrence of `from` replaced by `to`. */
  function Replace(s: Str, from: byte, to: byte): (r: Str)
    ensures |r| == |s|
    ensures forall i :: 0 <= i < |s| ==> r[i] == if s[i] == from then to else s[i]
  {
    seq(|s|, i requires 0 <= i < |s| => if s[i] == from then to else s[i])
  }

  lemma JoinLonger(b: byte, parts: seq<Str>, sep: byte)
    requires parts != []
    ensures Join([[b] + parts[0]] + parts[1..], sep) == [b] + Join(parts, sep)
  {
    assert ([[b] + parts[0]] + parts[1..])[1..] == parts[1..];
    if |parts| > 1 {
      assert [b] + parts[0] + [sep] + Join(parts[1..], sep) == [b] + (parts[0] + [sep] + Join(parts[1..], sep));
    }
  }

  lemma JoinOne(s: Str, sep: byte)
    ensures Join([s], sep) == s
  {}

  lemma JoinEmptyFirst(parts: seq<Str>, sep: byte)
    requires parts != []
    ensures Join([[]] + parts, sep) == [sep] + Join(parts, sep)
  {
    assert ([[]] + parts)[1..] == parts;
  }

  // Splitting at one separator and joining with another replaces the separator.
  lemma {:induction false} JoinSplit(s: Str, from: byte, to: byte)
    ensures Join(Split(s, from), to) == Replace(s, from, to)
  {
    hide Join;
    if s == [] {
      JoinOne([], to);
    } else {
      JoinSplit(s[1..], from, to);
      var rest := Split(s[1..], from);
      JoinEmptyFirst(rest, to);
      JoinLonger(s[0], rest, to);
      assert Replace(s, from, to) == [if s[0] == from then to else s[0]] + Replace(s[1..], from, to);
    }
  }

  lemma {:induction false} SplitWithout(s: Str, sep: byte)
    requires sep !in s
    ensures Split(s, sep) == [s]
  {
    if s != [] {
      SplitWithout(s[1..], sep);
      assert [s[0]] + s[1..] == s;
    }
  }

  // The piece after the last separator is the last piece of the split.
  lemma {:induction false} SplitLast(a: Str, sep: byte, b: Str)
    requires sep !in b
    ensures Split(a + [sep] + b, sep) == Split(a, sep) + [b]
  {
    hide Split;
    var s := a + [sep] + b;
    SplitStep(s, sep);
    if a == [] {
      SplitWithout(b, sep);
      SplitWithout([], sep);
      assert s[1..] == b;
    } else {
      SplitLast(a[1..], sep, b);
      SplitStep(a, sep);
      assert s[1..] == a[1..] + [sep] + b;
      AppendToSplit(a[0], Split(a[1..], sep), sep, b);
    }
  }

  /** The pieces of a text from its first byte and the pieces of the rest. */
  function Prepended(first: byte, rest: seq<Str>, sep: byte): seq<Str>
    requires rest != []
  {
    if first == sep then [[]] + rest else [[first] + rest[0]] + rest[1..]
  }

  lemma SplitStep(s: Str, sep: byte)
    requires s != []
    ensures Split(s, sep) == Prepended(s[0], Split(s[1..], sep), sep)
  {}

  lemma AppendToSplit(first: byte, rest: seq<Str>, sep: byte, last: Str)
    requires rest != []
    ensures Prepended(first, rest + [last], sep) == Prepended(first, rest, sep) + [last]
  {
    assert (rest + [last])[1..] == rest[1..] + [last];
  }

  /** The names in the order a list call happens to return them. */
  ghost predicate IsOrder(names: seq<Str>, keys: set<Str>) {
    && (forall i, j :: 0 <= i < j < |names| ==> names[i] != names[j])
    && forall n :: n in names <==> n in keys
  }
}
