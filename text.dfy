/** Strings split at a separator character, as `String.Split(char)` of .NET does it. */
module Text {
  import opened Wrappers

  /** The number of times `c` occurs in `s`. */
  function Occurrences(s: string, c: char): (n: nat)
    ensures n == 0 <==> c !in s
    ensures n <= |s|
  {
    if s == [] then 0
    else
      assert s == [s[0]] + s[1..];
      (if s[0] == c then 1 else 0) + Occurrences(s[1..], c)
  }

  lemma {:induction false} OccurrencesConcat(x: string, y: string, c: char)
    ensures Occurrences(x + y, c) == Occurrences(x, c) + Occurrences(y, c)
  {
    if x != [] {
      assert (x + y)[1..] == x[1..] + y;
      OccurrencesConcat(x[1..], y, c);
    } else {
      assert x + y == y;
    }
  }

  /**
   * `s.Split(sep)`: the fields of `s` between separators, splitting at EVERY
   * occurrence of `sep`. The empty string gives one empty field, and a trailing
   * separator gives a trailing empty field.
   */
  function Split(s: string, sep: char): (parts: seq<string>)
    ensures |parts| == Occurrences(s, sep) + 1
    ensures forall i :: 0 <= i < |parts| ==> sep !in parts[i]
  {
    if s == [] then [""]
    else
      var rest := Split(s[1..], sep);
      if s[0] == sep then [""] + rest
      else [[s[0]] + rest[0]] + rest[1..]
  }

  /** The inverse of Split: the fields glued back together with `sep` between them. */
  function Join(parts: seq<string>, sep: char): (s: string)
    requires |parts| >= 1
  {
    if |parts| == 1 then parts[0] else parts[0] + [sep] + Join(parts[1..], sep)
  }

  /** A string without the separator is a single field. */
  lemma {:induction false} SplitWithoutSeparator(s: string, sep: char)
    requires sep !in s
    ensures Split(s, sep) == [s]
  {
    if s != [] {
      SplitWithoutSeparator(s[1..], sep);
      assert [s[0]] + s[1..] == s;
    }
  }

  /** The first field ends at the first separator; the rest is split independently. */
  lemma {:induction false} SplitAfterField(a: string, b: string, sep: char)
    requires sep !in a
    ensures Split(a + [sep] + b, sep) == [a] + Split(b, sep)
  {
    if a == [] {
      assert a + [sep] + b == [sep] + b;
      assert ([sep] + b)[1..] == b;
    } else {
      var s := a + [sep] + b;
      assert s[0] == a[0];
      assert s[1..] == a[1..] + [sep] + b;
      SplitAfterField(a[1..], b, sep);
      assert [a[0]] + a[1..] == a;
    }
  }

  /** Splitting then joining gives back the original string. */
  lemma {:induction false} JoinSplit(s: string, sep: char)
    ensures Join(Split(s, sep), sep) == s
    decreases |s|
  {
    match SplitAtFirst(s, sep)
    case None =>
      SplitWithoutSeparator(s, sep);
    case Some((a, b)) =>
      SplitAfterField(a, b, sep);
      assert ([a] + Split(b, sep))[1..] == Split(b, sep);
      JoinSplit(b, sep);
  }

  /** Joining fields free of the separator then splitting gives back the fields. */
  lemma {:induction false} SplitJoin(parts: seq<string>, sep: char)
    requires |parts| >= 1
    requires forall i :: 0 <= i < |parts| ==> sep !in parts[i]
    ensures Split(Join(parts, sep), sep) == parts
  {
    if |parts| == 1 {
      SplitWithoutSeparator(parts[0], sep);
    } else {
      assert sep !in parts[0];
      SplitJoin(parts[1..], sep);
      SplitAfterField(parts[0], Join(parts[1..], sep), sep);
      assert [parts[0]] + parts[1..] == parts;
    }
  }

  /**
   * Splitting at the FIRST separator only, into at most two parts: `None` when
   * there is no separator, otherwise the text before it and everything after it.
   */
  function SplitAtFirst(s: string, sep: char): (r: Option<(string, string)>)
    ensures r.None? <==> sep !in s
    ensures r.Some? ==> s == r.value.0 + [sep] + r.value.1 && sep !in r.value.0
  {
    if s == [] then None
    else if s[0] == sep then
      assert s == [] + [sep] + s[1..];
      Some(("", s[1..]))
    else
      match SplitAtFirst(s[1..], sep)
      case None =>
        assert s == [s[0]] + s[1..];
        None
      case Some((a, b)) =>
        assert s == [s[0]] + s[1..];
        Some(([s[0]] + a, b))
  }

  /** The decomposition at the first separator is unique. */
  lemma {:induction false} SplitAtFirstOf(a: string, b: string, sep: char)
    requires sep !in a
    ensures SplitAtFirst(a + [sep] + b, sep) == Some((a, b))
  {
    var s := a + [sep] + b;
    if a == [] {
      assert s == [sep] + b && s[1..] == b;
    } else {
      assert s[0] == a[0] && s[1..] == a[1..] + [sep] + b;
      SplitAtFirstOf(a[1..], b, sep);
      assert [a[0]] + a[1..] == a;
    }
  }

  /** Split's first field is the part before the first separator, and the remaining fields split what follows it. */
  lemma {:induction false} SplitAgreesWithSplitAtFirst(s: string, sep: char)
    requires sep in s
    ensures Split(s, sep) == [SplitAtFirst(s, sep).value.0] + Split(SplitAtFirst(s, sep).value.1, sep)
    ensures Occurrences(s, sep) == 1 + Occurrences(SplitAtFirst(s, sep).value.1, sep)
  {
    var (a, b) := SplitAtFirst(s, sep).value;
    SplitAfterField(a, b, sep);
    OccurrencesConcat(a, [sep] + b, sep);
    OccurrencesConcat([sep], b, sep);
    assert a + ([sep] + b) == a + [sep] + b;
  }

  /** When `s` contains the separator, Split's first field is strictly shorter than `s`. */
  lemma {:induction false} FirstFieldShorter(s: string, sep: char)
    requires sep in s
    ensures |Split(s, sep)[0]| < |s|
  {
    SplitAgreesWithSplitAtFirst(s, sep);
  }
}
