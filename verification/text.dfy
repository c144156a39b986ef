/**
 * The few Swift `String` operations the ground station relies on, over `seq<char>`:
 * `hasPrefix`, `replacingOccurrences(of:with: "")`, `split(separator:)` (which drops
 * empty pieces), `Int(String)`, decimal printing of integers, and newline-terminated
 * text files. Characters are compared one by one; grapheme clustering and Unicode
 * normalisation are not modelled.
 */
module Text {
  import opened Wrappers

  // ---------------------------------------------------------------- prefixes

  predicate HasPrefix(s: string, prefix: string) {
    |prefix| <= |s| && s[..|prefix|] == prefix
  }

  /** `tag` occurs in `s` starting at index `i`. */
  predicate OccursAt(s: string, tag: string, i: int) {
    0 <= i && i + |tag| <= |s| && s[i..i + |tag|] == tag
  }

  predicate Occurs(s: string, tag: string) {
    exists i | 0 <= i <= |s| :: OccursAt(s, tag, i)
  }

  // ---------------------------------------------------- replacingOccurrences

  /**
   * `s.replacingOccurrences(of: tag, with: "")`: a left-to-right scan that deletes every
   * non-overlapping occurrence of `tag`, wherever it is, not only a leading one.
   */
  function RemoveOccurrences(s: string, tag: string): (r: string)
    requires |tag| > 0
    ensures |r| <= |s|
    decreases |s|
  {
    if |s| < |tag| then s
    else if s[..|tag|] == tag then RemoveOccurrences(s[|tag|..], tag)
    else [s[0]] + RemoveOccurrences(s[1..], tag)
  }

  /** A string without the tag comes back unchanged. */
  lemma {:induction false} RemoveAbsent(s: string, tag: string)
    requires |tag| > 0
    requires !Occurs(s, tag)
    ensures RemoveOccurrences(s, tag) == s
    decreases |s|
  {
    if |s| >= |tag| {
      assert !OccursAt(s, tag, 0);
      assert !Occurs(s[1..], tag) by {
        forall i | OccursAt(s[1..], tag, i)
          ensures false
        {
          assert s[1..][i..i + |tag|] == s[i + 1..i + 1 + |tag|];
          assert OccursAt(s, tag, i + 1);
        }
      }
      RemoveAbsent(s[1..], tag);
    }
  }

  /** Removing a one-character tag removes every copy of that character. */
  lemma {:induction false} RemoveCharRemovesAll(s: string, c: char)
    ensures c !in RemoveOccurrences(s, [c])
    decreases |s|
  {
    if |s| >= 1 {
      RemoveCharRemovesAll(s[1..], c);
    }
  }

  /** A tag in front of the text is removed, and the scan continues after it. */
  lemma RemoveLeading(tag: string, rest: string)
    requires |tag| > 0
    ensures RemoveOccurrences(tag + rest, tag) == RemoveOccurrences(rest, tag)
  {
    assert (tag + rest)[..|tag|] == tag;
    assert (tag + rest)[|tag|..] == rest;
  }

  // ------------------------------------------------------------------ split

  function IndexOf(s: string, c: char): (i: nat)
    requires c in s
    ensures i < |s| && s[i] == c && c !in s[..i]
  {
    if s[0] == c then 0
    else
      var j := IndexOf(s[1..], c);
      assert s[..j + 1] == [s[0]] + s[1..][..j];
      j + 1
  }

  /**
   * `s.split(separator: sep)` with Swift's default `omittingEmptySubsequences: true`:
   * the maximal runs of non-separator characters, in order.
   */
  function Split(s: string, sep: char): (pieces: seq<string>)
    ensures forall i :: 0 <= i < |pieces| ==> |pieces[i]| > 0 && sep !in pieces[i]
    decreases |s|
  {
    if sep !in s then (if s == [] then [] else [s])
    else
      var i := IndexOf(s, sep);
      (if i == 0 then [] else [s[..i]]) + Split(s[i + 1..], sep)
  }

  /** Pieces joined with the separator between them (the inverse of `Split`). */
  function Join(pieces: seq<string>, sep: char): string {
    if pieces == [] then []
    else if |pieces| == 1 then pieces[0]
    else pieces[0] + [sep] + Join(pieces[1..], sep)
  }

  /** Pieces a `Split` can return: non-empty and free of the separator. */
  predicate Splittable(pieces: seq<string>, sep: char) {
    forall i :: 0 <= i < |pieces| ==> |pieces[i]| > 0 && sep !in pieces[i]
  }

  lemma IndexOfAfter(a: string, b: string, c: char)
    requires c !in a
    ensures c in a + [c] + b
    ensures IndexOf(a + [c] + b, c) == |a|
  {
    var s := a + [c] + b;
    assert s[|a|] == c;
  }

  /** Splitting what `Join` produced gives the pieces back. */
  lemma {:induction false} SplitJoin(pieces: seq<string>, sep: char)
    requires Splittable(pieces, sep)
    ensures Split(Join(pieces, sep), sep) == pieces
    decreases |pieces|
  {
    if |pieces| == 1 {
    } else if |pieces| > 1 {
      var s := Join(pieces, sep);
      var rest := Join(pieces[1..], sep);
      IndexOfAfter(pieces[0], rest, sep);
      assert s[..|pieces[0]|] == pieces[0];
      assert s[|pieces[0]| + 1..] == rest;
      SplitJoin(pieces[1..], sep);
    }
  }

  /** The concatenation of a sequence of strings. */
  function Concat(pieces: seq<string>): string {
    if pieces == [] then [] else pieces[0] + Concat(pieces[1..])
  }

  lemma {:induction false} RemoveCharAppend(a: string, b: string, c: char)
    ensures RemoveOccurrences(a + b, [c]) == RemoveOccurrences(a, [c]) + RemoveOccurrences(b, [c])
    decreases |a|
  {
    if a == [] {
      assert a + b == b;
    } else {
      assert (a + b)[1..] == a[1..] + b;
      assert (a + b)[..1] == a[..1] == [a[0]];
      RemoveCharAppend(a[1..], b, c);
      if a[0] == c {
        assert RemoveOccurrences(a, [c]) == RemoveOccurrences(a[1..], [c]);
        assert RemoveOccurrences(a + b, [c]) == RemoveOccurrences(a[1..] + b, [c]);
      } else {
        assert RemoveOccurrences(a, [c]) == [a[0]] + RemoveOccurrences(a[1..], [c]);
        assert RemoveOccurrences(a + b, [c]) == [a[0]] + RemoveOccurrences(a[1..] + b, [c]);
      }
    }
  }

  lemma RemoveCharAbsent(s: string, c: char)
    requires c !in s
    ensures RemoveOccurrences(s, [c]) == s
  {
    assert !Occurs(s, [c]) by {
      forall i | 0 <= i <= |s|
        ensures !OccursAt(s, [c], i)
      {
        if i < |s| {
          assert s[i..i + 1] == [s[i]];
        }
      }
    }
    RemoveAbsent(s, [c]);
  }

  /** Deleting a separator that follows separator-free text. */
  lemma RemoveAfterFree(a: string, b: string, sep: char)
    requires sep !in a
    ensures RemoveOccurrences(a + [sep] + b, [sep]) == a + RemoveOccurrences(b, [sep])
  {
    RemoveCharAppend(a + [sep], b, sep);
    RemoveCharAppend(a, [sep], sep);
    RemoveCharAbsent(a, sep);
    assert RemoveOccurrences([sep], [sep]) == [];
  }

  /** `Split` keeps the text before the first separator and continues after it. */
  lemma SplitFirst(s: string, sep: char)
    requires sep in s
    ensures Concat(Split(s, sep)) == s[..IndexOf(s, sep)] + Concat(Split(s[IndexOf(s, sep) + 1..], sep))
  {
    var i := IndexOf(s, sep);
    var tail := Split(s[i + 1..], sep);
    if i == 0 {
      assert Split(s, sep) == tail;
    } else {
      assert Split(s, sep) == [s[..i]] + tail;
      assert ([s[..i]] + tail)[1..] == tail;
    }
  }

  /** What `Split` keeps is exactly the text with every separator deleted. */
  lemma {:induction false} SplitKeepsAllButSeparators(s: string, sep: char)
    ensures Concat(Split(s, sep)) == RemoveOccurrences(s, [sep])
    decreases |s|
  {
    if sep !in s {
      RemoveCharAbsent(s, sep);
    } else {
      var i := IndexOf(s, sep);
      assert s == s[..i] + [sep] + s[i + 1..];
      RemoveAfterFree(s[..i], s[i + 1..], sep);
      SplitKeepsAllButSeparators(s[i + 1..], sep);
      SplitFirst(s, sep);
    }
  }

  // ------------------------------------------------------------- text files

  /** The text of a file whose lines are `lines`, each followed by a newline. */
  function Lines(lines: seq<string>): string {
    if lines == [] then [] else lines[0] + "\n" + Lines(lines[1..])
  }

  /** Splitting a file on newlines gives back its (non-empty, newline-free) lines. */
  lemma {:induction false} SplitLines(lines: seq<string>)
    requires Splittable(lines, '\n')
    ensures Split(Lines(lines), '\n') == lines
    decreases |lines|
  {
    if lines != [] {
      var rest := Lines(lines[1..]);
      var s := Lines(lines);
      assert s == lines[0] + ['\n'] + rest;
      IndexOfAfter(lines[0], rest, '\n');
      assert s[..|lines[0]|] == lines[0];
      assert s[|lines[0]| + 1..] == rest;
      SplitLines(lines[1..]);
    }
  }

  // --------------------------------------------------------------- integers

  const Int64Min: int := -0x8000_0000_0000_0000
  const Int64Max: int := 0x7FFF_FFFF_FFFF_FFFF

  predicate IsDigit(c: char) {
    '0' <= c <= '9'
  }

  predicate AllDigits(s: string) {
    forall i :: 0 <= i < |s| ==> IsDigit(s[i])
  }

  /** The value of a string of decimal digits. */
  function DigitsValue(ds: string): nat
    requires AllDigits(ds)
    decreases |ds|
  {
    if ds == [] then 0
    else DigitsValue(ds[..|ds| - 1]) * 10 + (ds[|ds| - 1] as int - '0' as int)
  }

  /**
   * Swift's `Int(String)` (radix 10, 64-bit `Int`): an optional `+` or `-`, then one or
   * more ASCII digits and nothing else; `None` when the value is outside the 64-bit range.
   */
  function ParseInt(s: string): (r: Option<int>)
    ensures r.Some? ==> Int64Min <= r.value <= Int64Max
  {
    var signed := |s| > 0 && (s[0] == '-' || s[0] == '+');
    var digits := if signed then s[1..] else s;
    if |digits| == 0 || !AllDigits(digits) then None
    else
      var v: int := if signed && s[0] == '-' then -(DigitsValue(digits) as int) else DigitsValue(digits);
      if Int64Min <= v <= Int64Max then Some(v) else None
  }

  function DigitChar(d: nat): char
    requires d < 10
  {
    ('0' as int + d) as char
  }

  /** Decimal digits of `n`, without leading zeros. */
  function ShowNat(n: nat): (r: string)
    ensures |r| > 0 && AllDigits(r)
  {
    if n < 10 then [DigitChar(n)] else ShowNat(n / 10) + [DigitChar(n % 10)]
  }

  /** Swift's `"\(n)"` for an `Int`. */
  function ShowInt(n: int): (r: string)
    ensures |r| > 0
    ensures forall i :: 0 <= i < |r| ==> IsDigit(r[i]) || (i == 0 && r[i] == '-')
  {
    if n < 0 then "-" + ShowNat(-n) else ShowNat(n)
  }

  lemma {:induction false} ShowNatValue(n: nat)
    ensures DigitsValue(ShowNat(n)) == n
  {
    if n >= 10 {
      var s := ShowNat(n);
      assert s[..|s| - 1] == ShowNat(n / 10);
      ShowNatValue(n / 10);
    }
  }

  /** Printing an integer and parsing it back is the identity on the 64-bit range. */
  lemma ParseShowInt(n: int)
    requires Int64Min <= n <= Int64Max
    ensures ParseInt(ShowInt(n)) == Some(n)
  {
    if n < 0 {
      ParseShowNegative(n);
    } else {
      ShowNatValue(n);
      assert ShowInt(n)[0] != '-' && ShowInt(n)[0] != '+';
    }
  }

  lemma ParseShowNegative(n: int)
    requires Int64Min <= n < 0
    ensures ParseInt(ShowInt(n)) == Some(n)
  {
    var s := ShowInt(n);
    assert s[0] == '-' && s[1..] == ShowNat(-n);
    ShowNatValue(-n);
  }
}
