/** The JavaScript string built-ins the pages rely on, over `seq<char>`:
    `Array.prototype.join`, `String.prototype.split` with a one-character
    separator, `String.prototype.includes`, an ASCII-only `toLowerCase`,
    and the decimal rendering of a non-negative integer in a template. */
module Strings {

  // ---------------------------------------------------------------------------
  // join

  /** `parts.join(sep)`: the parts, in order, with `sep` between
      neighbours. Joining nothing gives the empty string, and a join starts
      with its first part. */
  function Join(parts: seq<string>, sep: string): (r: string)
    ensures |parts| == 0 ==> r == ""
    ensures |parts| >= 1 ==> |parts[0]| <= |r| && r[..|parts[0]|] == parts[0]
  {
    if |parts| == 0 then ""
    else if |parts| == 1 then parts[0]
    else parts[0] + sep + Join(parts[1..], sep)
  }

  /** The sum of the lengths of `parts`. */
  function TotalLength(parts: seq<string>): nat
  {
    if |parts| == 0 then 0 else |parts[0]| + TotalLength(parts[1..])
  }

  /** Where part `i` starts inside `Join(parts, sep)`: every earlier part
      followed by one separator. */
  function Offset(parts: seq<string>, sep: string, i: nat): nat
    requires i <= |parts|
  {
    if i == 0 then 0 else |parts[0]| + |sep| + Offset(parts[1..], sep, i - 1)
  }

  /** A non-empty join is exactly as long as its parts plus one separator
      between each pair of neighbours. */
  lemma {:induction false} JoinLength(parts: seq<string>, sep: string)
    requires |parts| >= 1
    ensures |Join(parts, sep)| == TotalLength(parts) + (|parts| - 1) * |sep|
  {
    if |parts| > 1 {
      JoinLength(parts[1..], sep);
      assert (|parts| - 1) * |sep| == (|parts| - 2) * |sep| + |sep|;
    }
  }

  /** Part `i` appears verbatim at `Offset(parts, sep, i)`, and unless it is the
      last part it is followed by the separator, after which part `i + 1`
      starts. */
  lemma JoinAt(parts: seq<string>, sep: string, i: nat)
    requires i < |parts|
    ensures Offset(parts, sep, i) + |parts[i]| <= |Join(parts, sep)|
    ensures Join(parts, sep)[Offset(parts, sep, i)..Offset(parts, sep, i) + |parts[i]|] == parts[i]
    ensures i + 1 < |parts| ==>
      && Offset(parts, sep, i + 1) == Offset(parts, sep, i) + |parts[i]| + |sep|
      && Offset(parts, sep, i + 1) <= |Join(parts, sep)|
      && Join(parts, sep)[Offset(parts, sep, i) + |parts[i]|..Offset(parts, sep, i + 1)] == sep
  {
    JoinPartAt(parts, sep, i);
    if i + 1 < |parts| {
      JoinSepAfter(parts, sep, i);
    }
  }

  /** Consecutive offsets are one part and one separator apart. */
  lemma {:induction false} OffsetStep(parts: seq<string>, sep: string, i: nat)
    requires i + 1 <= |parts|
    ensures Offset(parts, sep, i + 1) == Offset(parts, sep, i) + |parts[i]| + |sep|
  {
    if i > 0 {
      OffsetStep(parts[1..], sep, i - 1);
      assert parts[1..][i - 1] == parts[i];
    }
  }

  /** Part `i` appears verbatim at its offset. */
  lemma {:induction false} JoinPartAt(parts: seq<string>, sep: string, i: nat)
    requires i < |parts|
    ensures Offset(parts, sep, i) + |parts[i]| <= |Join(parts, sep)|
    ensures Join(parts, sep)[Offset(parts, sep, i)..Offset(parts, sep, i) + |parts[i]|] == parts[i]
  {
    if |parts| > 1 {
      JoinCons(parts, sep);
      if i == 0 {
        FoundAfter([], parts[0] + sep + Join(parts[1..], sep), parts[0], 0);
      } else {
        JoinPartAt(parts[1..], sep, i - 1);
        assert parts[1..][i - 1] == parts[i];
        FoundAfter(parts[0] + sep, Join(parts[1..], sep), parts[i], Offset(parts[1..], sep, i - 1));
      }
    }
  }

  /** A non-last part is followed by the separator, up to the next offset. */
  lemma {:induction false} JoinSepAfter(parts: seq<string>, sep: string, i: nat)
    requires i + 1 < |parts|
    ensures Offset(parts, sep, i + 1) == Offset(parts, sep, i) + |parts[i]| + |sep|
    ensures Offset(parts, sep, i + 1) <= |Join(parts, sep)|
    ensures Join(parts, sep)[Offset(parts, sep, i) + |parts[i]|..Offset(parts, sep, i + 1)] == sep
  {
    OffsetStep(parts, sep, i);
    JoinCons(parts, sep);
    if i == 0 {
      Middle(parts[0], sep, Join(parts[1..], sep));
    } else {
      JoinSepAfter(parts[1..], sep, i - 1);
      assert parts[1..][i - 1] == parts[i];
      FoundAfter(parts[0] + sep, Join(parts[1..], sep), sep, Offset(parts[1..], sep, i - 1) + |parts[i]|);
    }
  }

  /** One step of `Join` for two or more parts. */
  lemma JoinCons(parts: seq<string>, sep: string)
    requires |parts| > 1
    ensures Join(parts, sep) == parts[0] + sep + Join(parts[1..], sep)
  {
  }

  /** The middle of three concatenated strings. */
  lemma Middle(a: string, b: string, c: string)
    ensures (a + b + c)[|a|..|a| + |b|] == b
  {
    assert forall k :: 0 <= k < |b| ==> (a + b + c)[|a|..|a| + |b|][k] == b[k];
  }

  /** `x` found at `o` in `rest` is found at `|head| + o` in `head + rest`. */
  lemma FoundAfter(head: string, rest: string, x: string, o: nat)
    requires o + |x| <= |rest| && rest[o..o + |x|] == x
    ensures (head + rest)[|head| + o..|head| + o + |x|] == x
  {
    SliceShift(head, rest, o, o + |x|);
  }

  /** A slice of `rest` is the same slice of `head + rest`, shifted by `|head|`. */
  lemma SliceShift(head: string, rest: string, a: nat, b: nat)
    requires a <= b <= |rest|
    ensures (head + rest)[|head| + a..|head| + b] == rest[a..b]
  {
    assert forall k :: 0 <= k < b - a ==> (head + rest)[|head| + a..|head| + b][k] == rest[a..b][k];
  }

  // ---------------------------------------------------------------------------
  // split

  /** `s.split(c)` for a one-character separator: the maximal runs between
      occurrences of `c`; the empty string gives one empty piece. */
  function Split(s: string, c: char): (r: seq<string>)
    ensures |r| >= 1
    ensures forall k :: 0 <= k < |r| ==> c !in r[k]
  {
    if |s| == 0 then [""]
    else
      var rest := Split(s[1..], c);
      if s[0] == c then [""] + rest
      else [[s[0]] + rest[0]] + rest[1..]
  }

  /** A string without the separator is a single piece. */
  lemma {:induction false} SplitWithout(s: string, c: char)
    requires c !in s
    ensures Split(s, c) == [s]
  {
    if |s| > 0 {
      assert c !in s[1..] by {
        forall k | 0 <= k < |s| - 1 ensures s[1..][k] != c {
          assert s[1..][k] == s[k + 1];
        }
      }
      SplitWithout(s[1..], c);
      assert [s[0]] + s[1..] == s;
    }
  }

  /** Splitting gives one piece more than there are separators. */
  lemma {:induction false} SplitCount(s: string, c: char)
    ensures |Split(s, c)| == multiset(s)[c] + 1
  {
    if |s| > 0 {
      SplitCount(s[1..], c);
      assert s == [s[0]] + s[1..];
      assert multiset(s) == multiset([s[0]]) + multiset(s[1..]);
    }
  }

  /** Joining the pieces with the separator gives the string back. */
  lemma {:induction false} SplitJoin(s: string, c: char)
    ensures Join(Split(s, c), [c]) == s
  {
    if |s| > 0 {
      SplitJoin(s[1..], c);
      var rest := Split(s[1..], c);
      assert s == [s[0]] + s[1..];
      if s[0] == c {
        assert ([""] + rest)[1..] == rest;
      } else if |rest| > 1 {
        var r := Split(s, c);
        assert r[1..] == rest[1..];
        assert Join(rest, [c]) == rest[0] + [c] + Join(rest[1..], [c]);
      }
    }
  }

  /** A word without the separator, the separator, then the rest: the word
      is the first piece and the rest's pieces follow. */
  lemma {:induction false} SplitAt(word: string, rest: string, c: char)
    requires c !in word
    ensures Split(word + [c] + rest, c) == [word] + Split(rest, c)
  {
    if |word| == 0 {
      assert word + [c] + rest == [c] + rest;
      assert ([c] + rest)[1..] == rest;
    } else {
      assert c !in word[1..] by {
        forall k | 0 <= k < |word| - 1 ensures word[1..][k] != c {
          assert word[1..][k] == word[k + 1];
        }
      }
      SplitAt(word[1..], rest, c);
      var s := word + [c] + rest;
      assert s[1..] == word[1..] + [c] + rest;
      assert [word[0]] + word[1..] == word;
    }
  }


  /** Splitting undoes joining: words without the separator, joined with it,
      split back into the same words. */
  lemma {:induction false} JoinSplit(words: seq<string>, c: char)
    requires |words| >= 1
    requires forall i :: 0 <= i < |words| ==> c !in words[i]
    ensures Split(Join(words, [c]), c) == words
  {
    if |words| == 1 {
      SplitWithout(words[0], c);
    } else {
      JoinSplit(words[1..], c);
      SplitAt(words[0], Join(words[1..], [c]), c);
      assert [words[0]] + words[1..] == words;
    }
  }

  /** Joining one-character parts with nothing between them gives those
      characters, in order. */
  lemma {:induction false} JoinSingletons(parts: seq<string>)
    requires forall i :: 0 <= i < |parts| ==> |parts[i]| == 1
    ensures Join(parts, "") == seq(|parts|, i requires 0 <= i < |parts| => parts[i][0])
  {
    if |parts| > 1 {
      JoinSingletons(parts[1..]);
      assert parts[0] == [parts[0][0]];
    } else if |parts| == 1 {
      assert parts[0] == [parts[0][0]];
    }
  }

  // ---------------------------------------------------------------------------
  // includes

  /** `needle` occurs in `hay` starting at index `i`. */
  predicate OccursAt(hay: string, needle: string, i: int)
  {
    0 <= i && i + |needle| <= |hay| && hay[i..i + |needle|] == needle
  }

  /** `hay.includes(needle)`, scanning from the left. Every string includes
      the empty string, and no string includes a longer one. */
  function Contains(hay: string, needle: string): (b: bool)
    ensures |needle| == 0 ==> b
    ensures b ==> |needle| <= |hay|
    decreases |hay|
  {
    if |needle| > |hay| then false
    else if hay[..|needle|] == needle then true
    else Contains(hay[1..], needle)
  }

  /** The scan finds `needle` exactly when it occurs somewhere in `hay`. */
  lemma {:induction false} ContainsIff(hay: string, needle: string)
    ensures Contains(hay, needle) <==> exists i :: OccursAt(hay, needle, i)
  {
    if |needle| > |hay| {
    } else if hay[..|needle|] == needle {
      assert OccursAt(hay, needle, 0);
    } else {
      ContainsIff(hay[1..], needle);
      if i :| OccursAt(hay[1..], needle, i) {
        assert hay[1..][i..i + |needle|] == hay[i + 1..i + 1 + |needle|];
        assert OccursAt(hay, needle, i + 1);
      }
      if i :| OccursAt(hay, needle, i) {
        assert i != 0;
        assert hay[1..][i - 1..i - 1 + |needle|] == hay[i..i + |needle|];
        assert OccursAt(hay[1..], needle, i - 1);
      }
    }
  }

  /** A slice of a slice is a slice of the whole. */
  lemma SliceOfSlice(x: string, a: nat, b: nat, i: nat, j: nat)
    requires a <= b <= |x| && i <= j <= b - a
    ensures x[a..b][i..j] == x[a + i..a + j]
  {
    assert forall k :: 0 <= k < j - i ==> x[a..b][i..j][k] == x[a + i + k];
  }

  /** An occurrence inside an occurrence is an occurrence. */
  lemma OccursWithin(hay: string, s: string, o: int, needle: string, j: int)
    requires OccursAt(hay, s, o) && OccursAt(s, needle, j)
    ensures OccursAt(hay, needle, o + j)
  {
    SliceOfSlice(hay, o, o + |s|, j, j + |needle|);
  }

  /** An occurrence stays an occurrence when text is added on either side. */
  lemma OccursInside(before: string, x: string, after: string, needle: string, i: int)
    requires OccursAt(x, needle, i)
    ensures OccursAt(before + x + after, needle, |before| + i)
  {
    var w := before + x + after;
    assert w[|before| + i..|before| + i + |needle|] == x[i..i + |needle|];
  }

  // ---------------------------------------------------------------------------
  // toLowerCase, over ASCII only

  function LowerChar(c: char): char
  {
    if 'A' <= c <= 'Z' then (c as int - 'A' as int + 'a' as int) as char else c
  }

  function UpperChar(c: char): char
  {
    if 'a' <= c <= 'z' then (c as int - 'a' as int + 'A' as int) as char else c
  }

  /** `s.toLowerCase()` restricted to the ASCII letters. */
  function Lower(s: string): (r: string)
    ensures |r| == |s|
    ensures forall k :: 0 <= k < |s| ==> !('A' <= r[k] <= 'Z')
  {
    seq(|s|, k requires 0 <= k < |s| => LowerChar(s[k]))
  }

  /** `s.toUpperCase()` restricted to the ASCII letters. */
  function Upper(s: string): (r: string)
  {
    seq(|s|, k requires 0 <= k < |s| => UpperChar(s[k]))
  }

  /** Lowering is idempotent and forgets any earlier change of case. */
  lemma {:induction false} LowerForgetsCase(s: string)
    ensures Lower(Lower(s)) == Lower(s)
    ensures Lower(Upper(s)) == Lower(s)
  {
    assert forall k :: 0 <= k < |s| ==> LowerChar(UpperChar(s[k])) == LowerChar(s[k]);
    assert forall k :: 0 <= k < |s| ==> LowerChar(LowerChar(s[k])) == LowerChar(s[k]);
  }

  // ---------------------------------------------------------------------------
  // decimal rendering of a number in a template string

  predicate IsDigit(c: char)
  {
    '0' <= c <= '9'
  }

  function DigitChar(d: nat): char
    requires d < 10
  {
    ('0' as int + d) as char
  }

  /** `${n}` for a non-negative integer: its decimal digits, most significant
      first, with no leading zero. */
  function NatToString(n: nat): (r: string)
    ensures |r| >= 1
    ensures forall k :: 0 <= k < |r| ==> IsDigit(r[k])
    ensures r[0] == '0' ==> n == 0
  {
    if n < 10 then [DigitChar(n)] else NatToString(n / 10) + [DigitChar(n % 10)]
  }

  /** The number a string of decimal digits denotes. */
  function DecimalValue(s: string): nat
    requires forall k :: 0 <= k < |s| ==> IsDigit(s[k])
  {
    if |s| == 0 then 0
    else assert IsDigit(s[|s| - 1]); 10 * DecimalValue(s[..|s| - 1]) + (s[|s| - 1] as int - '0' as int)
  }

  /** Reading the rendered digits back gives the number. */
  lemma {:induction false} NatToStringRoundTrip(n: nat)
    ensures DecimalValue(NatToString(n)) == n
  {
    var r := NatToString(n);
    if n >= 10 {
      NatToStringRoundTrip(n / 10);
      assert r[..|r| - 1] == NatToString(n / 10);
    }
  }
}
