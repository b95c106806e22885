/**
 The few Python `str` operations the chat client relies on, written out over
 `seq<char>`: substring membership (`sub in s`), `s.split(sep, maxsplit)`,
 `s.split(sep)`, `s.strip()` and `s.lower()`. A prefix test
 (`s.startswith(p)`) is Dafny's own `p <= s`.
 */
module Strings {
  import opened Wrappers

  function Min(a: int, b: int): int { if a <= b then a else b }

  /** `sub` occurs in `s` starting at index `i`. */
  predicate OccursAt(s: string, sub: string, i: int)
  {
    0 <= i && i + |sub| <= |s| && s[i..i + |sub|] == sub
  }

  /** Python's `sub in s`. */
  function Contains(s: string, sub: string): (b: bool)
    ensures b <==> exists i :: OccursAt(s, sub, i)
    decreases |s|
  {
    if |s| < |sub| then
      assert forall i :: !OccursAt(s, sub, i);
      false
    else if s[..|sub|] == sub then
      assert OccursAt(s, sub, 0);
      true
    else
      var rest := Contains(s[1..], sub);
      assert forall i :: OccursAt(s[1..], sub, i) <==> OccursAt(s, sub, i + 1) by {
        forall i ensures OccursAt(s[1..], sub, i) <==> OccursAt(s, sub, i + 1) {
          if 0 <= i && i + |sub| <= |s| - 1 {
            assert s[1..][i..i + |sub|] == s[i + 1..i + 1 + |sub|];
          }
        }
      }
      assert !OccursAt(s, sub, 0);
      assert (exists i :: OccursAt(s, sub, i)) ==> exists i :: OccursAt(s[1..], sub, i) by {
        if exists i :: OccursAt(s, sub, i) {
          var i :| OccursAt(s, sub, i);
          assert OccursAt(s[1..], sub, i - 1);
        }
      }
      rest
  }

  /** Index of the first `c` in `s`, if any. */
  function Find(s: string, c: char): (r: Option<nat>)
    ensures r.None? ==> c !in s
    ensures r.Some? ==> r.value < |s| && s[r.value] == c
    ensures r.Some? ==> forall j :: 0 <= j < r.value ==> s[j] != c
  {
    if |s| == 0 then None
    else if s[0] == c then Some(0)
    else
      match Find(s[1..], c)
      case None => None
      case Some(i) => Some(i + 1)
  }

  /** Number of occurrences of `c` in `s`. */
  function CountChar(s: string, c: char): (n: nat)
    ensures n <= |s|
  {
    if |s| == 0 then 0 else (if s[0] == c then 1 else 0) + CountChar(s[1..], c)
  }

  /** Python's `sep.join(parts)` for a one-character separator. */
  function Join(parts: seq<string>, sep: char): string
  {
    if |parts| == 0 then ""
    else if |parts| == 1 then parts[0]
    else parts[0] + [sep] + Join(parts[1..], sep)
  }

  /**
   Python's `s.split(sep, maxsplit)` for a one-character separator: the
   string is cut at its first `maxsplit` separators, empty pieces kept. The
   pieces joined back give `s`; every piece but the last is free of `sep`, and
   so is the last one when fewer than `maxsplit` cuts were made.
   */
  function SplitN(s: string, sep: char, maxsplit: nat): (parts: seq<string>)
    ensures 1 <= |parts| <= maxsplit + 1
    decreases maxsplit
  {
    if maxsplit == 0 then [s]
    else
      match Find(s, sep)
      case None => [s]
      case Some(i) => [s[..i]] + SplitN(s[i + 1..], sep, maxsplit - 1)
  }

  /**
   Python's `s.split(sep)`: no limit, since `s` has at most `|s|` separators.
   There is one more piece than there are separators.
   */
  function SplitAll(s: string, sep: char): (parts: seq<string>)
    ensures |parts| == CountChar(s, sep) + 1
  {
    SplitNLength(s, sep, |s|);
    SplitN(s, sep, |s|)
  }

  lemma {:induction false} JoinCons(head: string, rest: seq<string>, sep: char)
    requires |rest| >= 1
    ensures Join([head] + rest, sep) == head + [sep] + Join(rest, sep)
  {
    assert ([head] + rest)[1..] == rest;
  }

  /** One step of `split`: the piece before the first separator, then the rest split once less. */
  lemma {:induction false} SplitNStep(s: string, sep: char, maxsplit: nat, i: nat)
    requires maxsplit > 0 && Find(s, sep) == Some(i)
    ensures SplitN(s, sep, maxsplit) == [s[..i]] + SplitN(s[i + 1..], sep, maxsplit - 1)
  {
  }

  /** The pieces of `split(sep, maxsplit)` joined back with `sep` give the string. */
  lemma {:induction false} SplitNJoinBack(s: string, sep: char, maxsplit: nat)
    ensures Join(SplitN(s, sep, maxsplit), sep) == s
    decreases maxsplit
  {
    if maxsplit > 0 && Find(s, sep).Some? {
      var i := Find(s, sep).value;
      var rest := SplitN(s[i + 1..], sep, maxsplit - 1);
      SplitNStep(s, sep, maxsplit, i);
      SplitNJoinBack(s[i + 1..], sep, maxsplit - 1);
      JoinAround(s, sep, i, rest);
    }
  }

  /** Joining the text before index `i` to pieces that join back to the text after it gives `s`. */
  lemma {:induction false} JoinAround(s: string, sep: char, i: nat, rest: seq<string>)
    requires i < |s| && s[i] == sep && |rest| >= 1 && Join(rest, sep) == s[i + 1..]
    ensures Join([s[..i]] + rest, sep) == s
  {
    JoinCons(s[..i], rest, sep);
    Rejoin(s, i);
  }

  lemma {:induction false} Rejoin(s: string, i: nat)
    requires i < |s|
    ensures s == s[..i] + [s[i]] + s[i + 1..]
  {
  }

  /**
   Every piece of `split(sep, maxsplit)` but the last is free of `sep`, and so
   is the last one when fewer than `maxsplit` cuts were made.
   */
  lemma {:induction false} SplitNPieces(s: string, sep: char, maxsplit: nat)
    ensures var parts := SplitN(s, sep, maxsplit);
      forall k :: 0 <= k < |parts| - 1 ==> sep !in parts[k]
    ensures var parts := SplitN(s, sep, maxsplit);
      |parts| < maxsplit + 1 ==> sep !in parts[|parts| - 1]
    decreases maxsplit
  {
    if maxsplit > 0 && Find(s, sep).Some? {
      var i := Find(s, sep).value;
      SplitNStep(s, sep, maxsplit, i);
      SplitNPieces(s[i + 1..], sep, maxsplit - 1);
      BeforeFirst(s, sep, i);
      PiecesCons(s[..i], SplitN(s[i + 1..], sep, maxsplit - 1), sep, maxsplit);
    }
  }

  /** The text before the first separator holds no separator. */
  lemma {:induction false} BeforeFirst(s: string, sep: char, i: nat)
    requires Find(s, sep) == Some(i)
    ensures sep !in s[..i]
  {
    forall j | 0 <= j < i ensures s[..i][j] != sep {
      assert s[..i][j] == s[j];
    }
  }

  lemma {:induction false} PiecesCons(head: string, rest: seq<string>, sep: char, maxsplit: nat)
    requires maxsplit > 0 && |rest| >= 1 && sep !in head
    requires forall k :: 0 <= k < |rest| - 1 ==> sep !in rest[k]
    requires |rest| < maxsplit ==> sep !in rest[|rest| - 1]
    ensures var parts := [head] + rest;
      forall k :: 0 <= k < |parts| - 1 ==> sep !in parts[k]
    ensures var parts := [head] + rest;
      |parts| < maxsplit + 1 ==> sep !in parts[|parts| - 1]
  {
    var parts := [head] + rest;
    forall k | 0 <= k < |parts| - 1 ensures sep !in parts[k] {
      if k > 0 {
        assert parts[k] == rest[k - 1];
      }
    }
    assert parts[|parts| - 1] == rest[|rest| - 1];
  }

  lemma {:induction false} CountCharAbsent(s: string, c: char)
    requires c !in s
    ensures CountChar(s, c) == 0
  {
    if |s| > 0 {
      CountCharAbsent(s[1..], c);
    }
  }

  /** Cutting at the first separator, at index `i`, removes one separator from the count. */
  lemma {:induction false} CountCharFirst(s: string, i: nat, c: char)
    requires i < |s| && s[i] == c
    requires forall j :: 0 <= j < i ==> s[j] != c
    ensures CountChar(s, c) == 1 + CountChar(s[i + 1..], c)
  {
    if i > 0 {
      assert s[1..][i..] == s[i + 1..];
      CountCharFirst(s[1..], i - 1, c);
    }
  }

  /** `split(sep, maxsplit)` makes one cut per separator, up to `maxsplit`. */
  lemma {:induction false} SplitNLength(s: string, sep: char, maxsplit: nat)
    ensures |SplitN(s, sep, maxsplit)| == Min(CountChar(s, sep), maxsplit) + 1
    decreases maxsplit
  {
    if maxsplit > 0 {
      var f := Find(s, sep);
      if f.None? {
        CountCharAbsent(s, sep);
      } else {
        var i := f.value;
        var rest := SplitN(s[i + 1..], sep, maxsplit - 1);
        SplitNStep(s, sep, maxsplit, i);
        CountCharFirst(s, i, sep);
        SplitNLength(s[i + 1..], sep, maxsplit - 1);
      }
    }
  }

  /** Cutting a string whose first separator closes `a` gives `a` first. */
  lemma {:induction false} SplitNFirst(a: string, sep: char, b: string, maxsplit: nat)
    requires sep !in a && maxsplit > 0
    ensures SplitN(a + [sep] + b, sep, maxsplit) == [a] + SplitN(b, sep, maxsplit - 1)
  {
    var s := a + [sep] + b;
    assert s[|a|] == sep;
    assert s[..|a|] == a;
    assert s[|a| + 1..] == b;
    assert Find(s, sep) == Some(|a|);
  }

  /** Splitting a join of separator-free pieces gives the pieces back. */
  lemma {:induction false} SplitNJoin(parts: seq<string>, sep: char, maxsplit: nat)
    requires |parts| >= 1 && |parts| - 1 <= maxsplit
    requires forall k :: 0 <= k < |parts| ==> sep !in parts[k]
    ensures SplitN(Join(parts, sep), sep, maxsplit) == parts
    decreases maxsplit
  {
    if |parts| == 1 {
      if maxsplit > 0 {
        assert Find(parts[0], sep).None?;
      }
    } else {
      var rest := parts[1..];
      forall k | 0 <= k < |rest| ensures sep !in rest[k] {
        assert rest[k] == parts[k + 1];
      }
      calc {
        SplitN(Join(parts, sep), sep, maxsplit);
        { assert parts == [parts[0]] + rest; JoinCons(parts[0], rest, sep); }
        SplitN(parts[0] + [sep] + Join(rest, sep), sep, maxsplit);
        { SplitNFirst(parts[0], sep, Join(rest, sep), maxsplit); }
        [parts[0]] + SplitN(Join(rest, sep), sep, maxsplit - 1);
        { SplitNJoin(rest, sep, maxsplit - 1); }
        [parts[0]] + rest;
        parts;
      }
    }
  }

  lemma {:induction false} JoinLength(parts: seq<string>, sep: char)
    requires |parts| >= 1
    ensures |Join(parts, sep)| >= |parts| - 1
  {
    if |parts| > 1 {
      JoinLength(parts[1..], sep);
    }
  }

  /** `split(sep)` is the inverse of `sep.join` on separator-free pieces. */
  lemma {:induction false} SplitAllJoin(parts: seq<string>, sep: char)
    requires |parts| >= 1
    requires forall k :: 0 <= k < |parts| ==> sep !in parts[k]
    ensures SplitAll(Join(parts, sep), sep) == parts
  {
    JoinLength(parts, sep);
    SplitNJoin(parts, sep, |Join(parts, sep)|);
  }

  /** No piece of `split(sep)` contains `sep`. */
  lemma {:induction false} SplitAllPieces(s: string, sep: char)
    ensures forall k :: 0 <= k < |SplitAll(s, sep)| ==> sep !in SplitAll(s, sep)[k]
  {
    var parts := SplitAll(s, sep);
    SplitNPieces(s, sep, |s|);
    SplitNJoinBack(s, sep, |s|);
    if |parts| == |s| + 1 {
      JoinAllSeparators(parts, sep, |s|);
    }
  }

  /** Once `maxsplit` reaches the length of `s`, a larger limit cuts no more. */
  lemma {:induction false} SplitNSaturated(s: string, sep: char, m1: nat, m2: nat)
    requires m1 >= |s| && m2 >= |s|
    ensures SplitN(s, sep, m1) == SplitN(s, sep, m2)
    decreases |s|
  {
    if m1 > 0 && m2 > 0 {
      match Find(s, sep)
      case None =>
      case Some(i) =>
        SplitNStep(s, sep, m1, i);
        SplitNStep(s, sep, m2, i);
        SplitNSaturated(s[i + 1..], sep, m1 - 1, m2 - 1);
    } else if m1 > 0 {
      assert |s| == 0 && Find(s, sep).None?;
    } else if m2 > 0 {
      assert |s| == 0 && Find(s, sep).None?;
    }
  }

  /** `split(sep)` of a string whose first separator closes `a`: `a`, then the pieces of the rest. */
  lemma {:induction false} SplitAllFirst(a: string, sep: char, b: string)
    requires sep !in a
    ensures SplitAll(a + [sep] + b, sep) == [a] + SplitAll(b, sep)
  {
    var s := a + [sep] + b;
    SplitNFirst(a, sep, b, |s|);
    SplitNSaturated(b, sep, |s| - 1, |b|);
  }

  /** `split(sep)` of a string without `sep` is that string alone. */
  lemma {:induction false} SplitAllNone(s: string, sep: char)
    requires sep !in s
    ensures SplitAll(s, sep) == [s]
  {
    if |s| > 0 {
      assert Find(s, sep).None?;
    }
  }

  /** A join of `n + 1` pieces of length `n` made only of separators has only empty pieces. */
  lemma {:induction false} JoinAllSeparators(parts: seq<string>, sep: char, n: nat)
    requires |parts| == n + 1 && |Join(parts, sep)| == n
    ensures forall k :: 0 <= k < |parts| ==> |parts[k]| == 0
  {
    if n > 0 {
      JoinLength(parts[1..], sep);
      JoinAllSeparators(parts[1..], sep, n - 1);
      assert forall k :: 1 <= k < |parts| ==> parts[k] == parts[1..][k - 1];
    }
  }

  /** The prefix of `s` before its first `c` (Python's `s.split(c)[0]`). */
  function UpTo(s: string, c: char): (r: string)
    ensures c !in r
    ensures r <= s
    ensures |r| < |s| ==> s[|r|] == c
  {
    match Find(s, c)
    case None => s
    case Some(i) => s[..i]
  }

  /** `s` with one leading `c` removed, if it has one. */
  function DropLeading(s: string, c: char): (r: string)
    ensures r == s || [c] + r == s
    ensures [c] <= s ==> |r| == |s| - 1
  {
    if [c] <= s then s[1..] else s
  }

  /** The characters Python's `str.isspace()` accepts. */
  predicate IsSpace(c: char)
  {
    || '\t' <= c <= '\r'
    || '\U{1C}' <= c <= ' '
    || c == '\U{85}' || c == '\U{A0}' || c == '\U{1680}'
    || '\U{2000}' <= c <= '\U{200A}'
    || c == '\U{2028}' || c == '\U{2029}' || c == '\U{202F}' || c == '\U{205F}' || c == '\U{3000}'
  }

  /** No whitespace at either end. */
  predicate Stripped(s: string)
  {
    |s| == 0 || (!IsSpace(s[0]) && !IsSpace(s[|s| - 1]))
  }

  /** Python's `s.lstrip()`: a suffix of `s` (which one, `TrimStartSpaces` says). */
  function TrimStart(s: string): (r: string)
    ensures |r| <= |s| && s[|s| - |r|..] == r
  {
    if |s| > 0 && IsSpace(s[0]) then TrimStart(s[1..]) else s
  }

  /** Python's `s.rstrip()`: a prefix of `s` (which one, `TrimEndSpaces` says). */
  function TrimEnd(s: string): (r: string)
    ensures r <= s
  {
    if |s| > 0 && IsSpace(s[|s| - 1]) then TrimEnd(s[..|s| - 1]) else s
  }

  /** Python's `s.strip()`: never longer than `s` (what it removes, `StripResult` and `StripIsInfix` say). */
  function Strip(s: string): (r: string)
    ensures |r| <= |s|
  {
    TrimEnd(TrimStart(s))
  }

  /** `lstrip()` removes exactly the leading whitespace. */
  lemma {:induction false} TrimStartSpaces(s: string)
    ensures forall i :: 0 <= i < |s| - |TrimStart(s)| ==> IsSpace(s[i])
  {
    if |s| > 0 && IsSpace(s[0]) {
      TrimStartSpaces(s[1..]);
      forall i | 1 <= i < |s| - |TrimStart(s)| ensures IsSpace(s[i]) {
        assert s[i] == s[1..][i - 1];
      }
    }
  }

  /** `lstrip()` leaves no whitespace at the front. */
  lemma {:induction false} TrimStartFirst(s: string)
    ensures |TrimStart(s)| == 0 || !IsSpace(TrimStart(s)[0])
  {
    if |s| > 0 && IsSpace(s[0]) {
      TrimStartFirst(s[1..]);
    }
  }

  /** `rstrip()` leaves no whitespace at the back. */
  lemma {:induction false} TrimEndLast(s: string)
    ensures |TrimEnd(s)| == 0 || !IsSpace(TrimEnd(s)[|TrimEnd(s)| - 1])
  {
    if |s| > 0 && IsSpace(s[|s| - 1]) {
      TrimEndLast(s[..|s| - 1]);
    }
  }

  /** `rstrip()` removes exactly the trailing whitespace. */
  lemma {:induction false} TrimEndSpaces(s: string)
    ensures forall i :: |TrimEnd(s)| <= i < |s| ==> IsSpace(s[i])
  {
    if |s| > 0 && IsSpace(s[|s| - 1]) {
      TrimEndSpaces(s[..|s| - 1]);
    }
  }

  /** `strip()` leaves no whitespace at either end. */
  lemma {:induction false} StripResult(s: string)
    ensures Stripped(Strip(s))
  {
    StripIsTrim(s);
    TrimBothEnds(s);
  }

  lemma {:induction false} TrimBothEnds(s: string)
    ensures Stripped(TrimEnd(TrimStart(s)))
  {
    var t := TrimStart(s);
    var r := TrimEnd(t);
    TrimStartFirst(s);
    TrimEndLast(t);
    StrippedEnds(t, r);
  }

  /** A prefix of `t` that ends in a non-space, of a `t` that starts with one, is stripped. */
  lemma {:induction false} StrippedEnds(t: string, r: string)
    requires r <= t && (|t| == 0 || !IsSpace(t[0]))
    requires |r| == 0 || !IsSpace(r[|r| - 1])
    ensures Stripped(r)
  {
    if |r| > 0 {
      assert r[0] == t[0];
    }
  }

  /** A string with no whitespace at either end is its own `strip()`. */
  lemma {:induction false} StripStripped(s: string)
    requires Stripped(s)
    ensures Strip(s) == s
  {
  }

  /** Where `strip()`'s result sits in `s`: right after the leading whitespace. */
  lemma {:induction false} StripSlice(s: string)
    ensures var i := |s| - |TrimStart(s)|;
      var r := TrimEnd(TrimStart(s));
      i + |r| <= |s| && s[i..i + |r|] == r
  {
    PrefixOfSuffix(s, |s| - |TrimStart(s)|, TrimStart(s), TrimEnd(TrimStart(s)));
  }

  lemma {:induction false} StripIsTrim(s: string)
    ensures Strip(s) == TrimEnd(TrimStart(s))
  {
  }

  /** A prefix of the suffix of `s` from `i` is the slice of `s` from `i`. */
  lemma {:induction false} PrefixOfSuffix(s: string, i: nat, t: string, r: string)
    requires i <= |s| && s[i..] == t && r <= t
    ensures i + |r| <= |s| && s[i..i + |r|] == r
  {
    assert s[i..i + |r|] == t[..|r|];
  }

  /** A character missing from `s` is missing from every slice of it. */
  lemma {:induction false} SliceKeepsAbsent(s: string, i: nat, r: string, c: char)
    requires i + |r| <= |s| && s[i..i + |r|] == r && c !in s
    ensures c !in r
  {
    forall k | 0 <= k < |r| ensures r[k] != c {
      assert r[k] == s[i + k];
    }
  }

  /** `strip()` removes nothing but whitespace, and only at the two ends. */
  lemma {:induction false} StripIsInfix(s: string)
    ensures var i := |s| - |TrimStart(s)|;
      && i + |Strip(s)| <= |s|
      && s[i..i + |Strip(s)|] == Strip(s)
      && (forall k :: 0 <= k < i ==> IsSpace(s[k]))
      && (forall k :: i + |Strip(s)| <= k < |s| ==> IsSpace(s[k]))
  {
    var t := TrimStart(s);
    var i := |s| - |t|;
    StripIsTrim(s);
    StripSlice(s);
    TrimStartSpaces(s);
    TrimEndSpaces(t);
    TrimEndTail(s, i, t, TrimEnd(t));
  }

  lemma {:induction false} TrimEndTail(s: string, i: nat, t: string, r: string)
    requires i + |t| == |s| && s[i..] == t
    requires |r| <= |t| && forall k :: |r| <= k < |t| ==> IsSpace(t[k])
    ensures forall k :: i + |r| <= k < |s| ==> IsSpace(s[k])
  {
    forall k | i + |r| <= k < |s| ensures IsSpace(s[k]) {
      assert s[k] == t[k - i];
    }
  }

  /** `strip()` is idempotent. */
  lemma {:induction false} StripIdempotent(s: string)
    ensures Strip(Strip(s)) == Strip(s)
  {
    StripResult(s);
    StripStripped(Strip(s));
  }

  function LowerChar(c: char): (d: char)
  {
    if 'A' <= c <= 'Z' then (c as int - 'A' as int + 'a' as int) as char else c
  }

  /** Python's `s.lower()` on ASCII letters. */
  function Lower(s: string): (r: string)
    ensures |r| == |s|
    ensures forall i :: 0 <= i < |s| ==> r[i] == LowerChar(s[i])
  {
    seq(|s|, i requires 0 <= i < |s| => LowerChar(s[i]))
  }

  /**
   Lower-casing turns each upper-case ASCII letter into the lower-case letter
   at the same place in the alphabet, leaves no upper-case ASCII letter, and
   changes nothing else.
   */
  lemma {:induction false} LowerResult(s: string)
    ensures forall i :: 0 <= i < |s| && 'A' <= s[i] <= 'Z' ==>
      'a' <= Lower(s)[i] <= 'z' && Lower(s)[i] as int - 'a' as int == s[i] as int - 'A' as int
    ensures forall i :: 0 <= i < |s| ==> !('A' <= Lower(s)[i] <= 'Z')
    ensures forall i :: 0 <= i < |s| && !('A' <= s[i] <= 'Z') ==> Lower(s)[i] == s[i]
    ensures Lower(Lower(s)) == Lower(s)
  {
  }

}
