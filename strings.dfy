/** String operations with the semantics of JavaScript's `String.prototype.split`
    (for a non-empty separator), `Array.prototype.join`, `includes` and `slice`,
    on which the rest of the model builds. */
module Strings {
  import opened Wrappers

  /** `sep` occurs in `s` starting at index `i`. */
  predicate OccursAt(s: string, sep: string, i: nat) {
    i + |sep| <= |s| && s[i..i + |sep|] == sep
  }

  lemma OccursAtShift(s: string, sep: string, i: nat)
    requires |s| > 0
    ensures OccursAt(s[1..], sep, i) <==> OccursAt(s, sep, i + 1)
  {
    if i + |sep| <= |s[1..]| {
      assert s[1..][i..i + |sep|] == s[i + 1..i + 1 + |sep|];
    }
  }

  /** The index of the first occurrence of `sep` in `s` (JavaScript's `indexOf`,
      with `None` for -1). */
  function IndexOf(s: string, sep: string): (r: Option<nat>)
    requires |sep| > 0
    ensures r.Some? ==> OccursAt(s, sep, r.value)
    ensures r.Some? ==> forall j: nat :: j < r.value ==> !OccursAt(s, sep, j)
    ensures r.None? ==> forall j: nat :: !OccursAt(s, sep, j)
    decreases |s|
  {
    if |s| < |sep| then None
    else if s[..|sep|] == sep then
      assert s[0..|sep|] == s[..|sep|];
      Some(0)
    else
      var rest := IndexOf(s[1..], sep);
      assert !OccursAt(s, sep, 0) by { assert s[0..|sep|] == s[..|sep|]; }
      forall j: nat ensures OccursAt(s[1..], sep, j) <==> OccursAt(s, sep, j + 1) {
        OccursAtShift(s, sep, j);
      }
      match rest
      case None =>
        assert forall j: nat :: !OccursAt(s, sep, j) by {
          forall j: nat ensures !OccursAt(s, sep, j) {
            if j > 0 { assert !OccursAt(s[1..], sep, j - 1); }
          }
        }
        None
      case Some(i) =>
        assert forall j: nat :: j < i + 1 ==> !OccursAt(s, sep, j) by {
          forall j: nat | j < i + 1 ensures !OccursAt(s, sep, j) {
            if j > 0 { assert !OccursAt(s[1..], sep, j - 1); }
          }
        }
        Some(i + 1)
  }

  /** `s.split(sep)`: the pieces of `s` between successive non-overlapping
      occurrences of `sep`, scanning left to right. */
  function Split(s: string, sep: string): (parts: seq<string>)
    requires |sep| > 0
    ensures |parts| >= 1
    decreases |s|
  {
    match IndexOf(s, sep)
    case None => [s]
    case Some(i) => [s[..i]] + Split(s[i + |sep|..], sep)
  }

  /** `parts.join(sep)`. */
  function Join(parts: seq<string>, sep: string): string {
    if |parts| == 0 then ""
    else if |parts| == 1 then parts[0]
    else parts[0] + sep + Join(parts[1..], sep)
  }

  /** `s.split(sep)[k]`, `None` standing for JavaScript's `undefined`. */
  function Field(s: string, sep: string, k: nat): (r: Option<string>)
    requires |sep| > 0
    ensures r.Some? <==> k < |Split(s, sep)|
  {
    var parts := Split(s, sep);
    if k < |parts| then Some(parts[k]) else None
  }

  /** The number of times `c` occurs in `s`. */
  function Count(s: string, c: char): nat {
    if s == [] then 0 else (if s[0] == c then 1 else 0) + Count(s[1..], c)
  }

  /** The text of `s` before its first `c`, or all of `s` when it has none. */
  function TakeUntil(s: string, c: char): (r: string)
    ensures c !in r
    ensures r <= s
    ensures |r| < |s| ==> s[|r|] == c
  {
    if s == [] || s[0] == c then "" else [s[0]] + TakeUntil(s[1..], c)
  }

  lemma CountAppend(a: string, b: string, c: char)
    ensures Count(a + b, c) == Count(a, c) + Count(b, c)
  {
    if a == [] {
      assert a + b == b;
    } else {
      assert (a + b)[0] == a[0];
      assert (a + b)[1..] == a[1..] + b;
      CountAppend(a[1..], b, c);
    }
  }

  /** A one-character separator splits `s` into one more piece than it occurs. */
  lemma {:induction false} SplitCount(s: string, c: char)
    ensures |Split(s, [c])| == Count(s, c) + 1
    decreases |s|
  {
    match IndexOf(s, [c])
    case None =>
      forall j | 0 <= j < |s| ensures s[j] != c {
        assert !OccursAt(s, [c], j);
        assert s[j..j + 1] == [s[j]];
      }
      NoOccurrenceCount(s, c);
    case Some(i) =>
      var rest := s[i + 1..];
      SplitCount(rest, c);
      forall j | 0 <= j < i ensures s[j] != c {
        assert !OccursAt(s, [c], j);
        assert s[j..j + 1] == [s[j]];
      }
      NoOccurrenceCount(s[..i], c);
      assert s[i..i + 1] == [c];
      assert s == s[..i] + [c] + rest;
      CountAppend(s[..i] + [c], rest, c);
      CountAppend(s[..i], [c], c);
  }

  lemma {:induction false} NoOccurrenceCount(s: string, c: char)
    requires forall j :: 0 <= j < |s| ==> s[j] != c
    ensures Count(s, c) == 0
    decreases |s|
  {
    if s != [] { NoOccurrenceCount(s[1..], c); }
  }

  /** The first piece of a split on one character is the text before that
      character's first occurrence. */
  lemma {:induction false} FirstPiece(s: string, c: char)
    ensures Split(s, [c])[0] == TakeUntil(s, c)
  {
    var t := TakeUntil(s, c);
    match IndexOf(s, [c])
    case None =>
      TakeUntilWhole(s, c);
    case Some(i) =>
      assert s[i..i + 1] == [c];
      forall j | 0 <= j < i ensures s[j] != c {
        assert !OccursAt(s, [c], j);
        assert s[j..j + 1] == [s[j]];
      }
      TakeUntilAt(s, c, i);
  }

  lemma {:induction false} TakeUntilWhole(s: string, c: char)
    requires forall j :: 0 <= j < |s| ==> !OccursAt(s, [c], j)
    ensures TakeUntil(s, c) == s
  {
    if s != [] {
      assert s[0..1] == [s[0]];
      assert !OccursAt(s, [c], 0);
      forall j | 0 <= j < |s[1..]| ensures !OccursAt(s[1..], [c], j) {
        OccursAtShift(s, [c], j);
      }
      TakeUntilWhole(s[1..], c);
    }
  }

  /** `TakeUntil` stops exactly at the first occurrence. */
  lemma {:induction false} TakeUntilAt(s: string, c: char, i: nat)
    requires i < |s| && s[i] == c
    requires forall j :: 0 <= j < i ==> s[j] != c
    ensures TakeUntil(s, c) == s[..i]
  {
    if i > 0 {
      TakeUntilAt(s[1..], c, i - 1);
    }
  }

  /** `TakeUntil` of a prefix that reaches up to an occurrence of `c` is
      `TakeUntil` of the whole. */
  lemma TakeUntilPrefix(s: string, n: nat, c: char)
    requires n <= |s|
    requires n < |s| ==> s[n] == c
    ensures TakeUntil(s[..n], c) == TakeUntil(s, c)
  {
    if s != [] && n > 0 && s[0] != c {
      TakeUntilPrefix(s[1..], n - 1, c);
      assert s[..n][1..] == s[1..][..n - 1];
    }
  }

  /** The second piece of a split on one character (`s.split(c)[1]`) exists
      exactly when `c` occurs, and is the text between its first and second
      occurrences. */
  lemma SecondPiece(s: string, c: char)
    ensures Field(s, [c], 1).Some? <==> c in s
    ensures Field(s, [c], 1).Some? ==>
      |TakeUntil(s, c)| < |s| && Field(s, [c], 1).value == TakeUntil(s[|TakeUntil(s, c)| + 1..], c)
  {
    match IndexOf(s, [c])
    case None =>
      forall j | 0 <= j < |s| ensures s[j] != c {
        assert !OccursAt(s, [c], j);
        assert s[j..j + 1] == [s[j]];
      }
    case Some(i) =>
      var rest := s[i + 1..];
      assert s[i..i + 1] == [c];
      forall j | 0 <= j < i ensures s[j] != c {
        assert !OccursAt(s, [c], j);
        assert s[j..j + 1] == [s[j]];
      }
      TakeUntilAt(s, c, i);
      assert Split(s, [c]) == [s[..i]] + Split(rest, [c]);
      FirstPiece(rest, c);
  }

  /** Text without `c` is its own `TakeUntil`. */
  lemma {:induction false} TakeUntilAbsent(s: string, c: char)
    requires c !in s
    ensures TakeUntil(s, c) == s
  {
    if s != [] {
      assert s[0] != c;
      assert c !in s[1..];
      TakeUntilAbsent(s[1..], c);
    }
  }

  /** In `prefix + c + value + rest`, where neither `prefix` nor `value`
      contains `c` and `rest` is empty or starts with `c`, the second piece
      of a split on `c` is `value`. */
  lemma SecondPieceOf(prefix: string, c: char, value: string, rest: string)
    requires c !in prefix && c !in value
    requires rest == [] || rest[0] == c
    ensures Field(prefix + [c] + value + rest, [c], 1) == Some(value)
  {
    var tail := value + rest;
    assert prefix + [c] + value + rest == prefix + [c] + tail;
    SplitAfterFirst(prefix, c, tail);
    if rest == [] {
      assert tail == value;
      SplitAbsent(value, c);
    } else {
      assert tail == value + [c] + rest[1..];
      SplitAfterFirst(value, c, rest[1..]);
    }
  }

  /** Text without `c` splits into itself alone. */
  lemma SplitAbsent(s: string, c: char)
    requires c !in s
    ensures Split(s, [c]) == [s]
  {
    forall j: nat ensures !OccursAt(s, [c], j) {
      if j + 1 <= |s| { assert s[j..j + 1] == [s[j]]; }
    }
  }

  /** A split on `c` cuts at the first `c`: the text before it is the first
      piece and the rest is split on. */
  lemma SplitAfterFirst(a: string, c: char, b: string)
    requires c !in a
    ensures Split(a + [c] + b, [c]) == [a] + Split(b, [c])
  {
    var s := a + [c] + b;
    assert s[|a|..|a| + 1] == [c];
    assert s[..|a|] == a;
    assert s[|a| + 1..] == b;
    forall j: nat | j < |a| ensures !OccursAt(s, [c], j) {
      assert s[j..j + 1] == [a[j]];
    }
    assert OccursAt(s, [c], |a|);
    var r := IndexOf(s, [c]);
    assert r.Some?;
    assert !(r.value < |a|);
    assert r.value == |a|;
  }

  /** Joining pieces that do not contain `c` and splitting on `c` gives the
      pieces back. */
  lemma {:induction false} SplitJoin(parts: seq<string>, c: char)
    requires |parts| >= 1
    requires forall k :: 0 <= k < |parts| ==> c !in parts[k]
    ensures Split(Join(parts, [c]), [c]) == parts
    decreases |parts|
  {
    if |parts| == 1 {
      SplitAbsent(parts[0], c);
    } else {
      SplitJoin(parts[1..], c);
      SplitAfterFirst(parts[0], c, Join(parts[1..], [c]));
      assert parts == [parts[0]] + parts[1..];
    }
  }

  /** Where the first piece of a split ends: the first occurrence of the
      separator, or the end of the text. */
  function FirstCut(s: string, sep: string): (n: nat)
    requires |sep| > 0
    ensures n <= |s| && Split(s, sep)[0] == s[..n]
    ensures n < |s| ==> OccursAt(s, sep, n)
  {
    match IndexOf(s, sep)
    case None => |s|
    case Some(i) => i
  }

  /** A leading character other than `c` is kept by `TakeUntil`. */
  lemma TakeUntilCons(x: char, s: string, c: char)
    requires x != c
    ensures TakeUntil([x] + s, c) == [x] + TakeUntil(s, c)
  {
    assert ([x] + s)[1..] == s;
  }

  /** `TakeUntil` of text without `c` followed by `c` is that text. */
  lemma {:induction false} TakeUntilStop(a: string, b: string, c: char)
    requires c !in a
    ensures TakeUntil(a + [c] + b, c) == a
    decreases |a|
  {
    if a != [] {
      assert (a + [c] + b)[1..] == a[1..] + [c] + b;
      TakeUntilStop(a[1..], b, c);
    }
  }
}
